/** RSS ingestion (backend/services/feed_service.py): each configured feed is parsed, each
    entry becomes a new alert unless its link is empty or already known, and the run is
    summarised in an `IngestResult`. The feed parser is abstracted as the sequence of what
    parsing each feed produced; the table's links before the run are a set. */
module FeedService {
  import opened Wrappers
  import opened Models
  import opened Types

  datatype FeedSource = FeedSource(name: string, url: string, category: string, jurisdiction: string)

  /** A feed of the Guernsey Financial Services Commission: the default jurisdiction. */
  function Gfsc(name: string, url: string, category: string): FeedSource {
    FeedSource(name, url, category, "Guernsey")
  }

  const DefaultFeeds: seq<FeedSource> := [
    Gfsc("GFSC - All News", "https://www.gfsc.gg/article.xml", "General"),
    Gfsc("GFSC - Financial Crime", "https://www.gfsc.gg/article.xml?tid=55", "Financial Crime"),
    Gfsc("GFSC - Sanctions", "https://www.gfsc.gg/article.xml?tid=56", "Sanctions"),
    Gfsc("GFSC - Prohibitions", "https://www.gfsc.gg/article.xml?tid=63", "Prohibitions"),
    Gfsc("GFSC - Banking", "https://www.gfsc.gg/article.xml?tid=50", "Banking"),
    Gfsc("GFSC - Banking Consultations", "https://www.gfsc.gg/article.xml?tid=50%2C51", "Banking Consultations"),
    Gfsc("GFSC - Fiduciary", "https://www.gfsc.gg/article.xml?tid=53", "Fiduciary"),
    Gfsc("GFSC - Fiduciary Consultations", "https://www.gfsc.gg/article.xml?tid=53%2C60", "Fiduciary Consultations"),
    Gfsc("GFSC - Insurance", "https://www.gfsc.gg/article.xml?tid=49", "Insurance"),
    Gfsc("GFSC - Insurance Consultations", "https://www.gfsc.gg/article.xml?tid=49%2C60", "Insurance Consultations"),
    Gfsc("GFSC - Investment", "https://www.gfsc.gg/article.xml?tid=52", "Investment"),
    Gfsc("GFSC - Investment Consultations", "https://www.gfsc.gg/article.xml?tid=52%2C60", "Investment Consultations"),
    Gfsc("GFSC - Consumer", "https://www.gfsc.gg/article.xml?tid=57", "Consumer")
  ]

  /** `feeds or DEFAULT_FEEDS`: no list, or an empty one, means the defaults, so a run always
      has feeds to read. */
  function EffectiveFeeds(feeds: Option<seq<FeedSource>>): (r: seq<FeedSource>)
    ensures (feeds.None? || feeds.value == []) ==> r == DefaultFeeds
    ensures feeds.Some? && feeds.value != [] ==> r == feeds.value
    ensures |r| > 0
  {
    match feeds
    case Some(fs) => if fs == [] then DefaultFeeds else fs
    case None => DefaultFeeds
  }

  /** One item of an entry's `content` list. */
  datatype ContentItem = ContentItem(value: Option<string>)

  /** The keys of a parsed feed entry that ingestion reads; `None` is a missing key. */
  datatype Entry = Entry(
    title: Option<string>,
    link: Option<string>,
    published: Option<string>,
    summary: Option<string>,
    content: Option<seq<ContentItem>>
  )

  /** What parsing one feed produced: an exception, or the bozo flag, its exception text and
      the entries. */
  datatype ParseOutcome =
    | Raises(exception: string)
    | Parsed(bozo: bool, bozoException: string, entries: seq<Entry>)

  /** `entry.get("link", "")`. */
  function LinkOf(e: Entry): string {
    e.link.GetOr("")
  }

  /** The content choice of `_parse_entry`: the first content item's value when the content
      list is non-empty, else a non-empty summary, else `""`. */
  function RawContent(e: Entry): (s: string)
    ensures e.content.Some? && e.content.value != [] ==> s == e.content.value[0].value.GetOr("")
    ensures (e.content.None? || e.content.value == []) && e.summary.Some? && e.summary.value != ""
            ==> s == e.summary.value
    ensures (e.content.None? || e.content.value == []) && (e.summary.None? || e.summary.value == "")
            ==> s == ""
  {
    if e.content.Some? && e.content.value != [] then e.content.value[0].value.GetOr("")
    else if e.summary.Some? && e.summary.value != "" then e.summary.value
    else ""
  }

  /** `_parse_entry(entry, source)`, with `now` standing for the creation timestamp. */
  function ParseEntry(e: Entry, src: FeedSource, now: string): (a: Alert)
    ensures a.id == None && !a.analysed && Unclassified(a)
    ensures a.title == (if e.title.Some? then e.title.value else "Untitled")
    ensures a.link == LinkOf(e) && a.source == src.jurisdiction && a.feedCategory == src.category
    ensures a.publishedDate == e.published.GetOr("") && a.rawContent == RawContent(e)
  {
    NewAlert(e.title.GetOr("Untitled"), LinkOf(e), src.jurisdiction, now,
             feedCategory := src.category, publishedDate := e.published.GetOr(""),
             rawContent := RawContent(e))
  }

  function FetchFailedMessage(name: string, exception: string): string {
    "Failed to fetch " + name + ": " + exception
  }

  function FeedErrorMessage(name: string, bozoException: string): string {
    "Feed error for " + name + ": " + bozoException
  }

  /** A feed whose entries are read: it parsed, and is not bozo with no entries. */
  predicate Fetched(o: ParseOutcome) {
    o.Parsed? && !(o.bozo && o.entries == [])
  }

  /** The entries ingestion reads from a feed. */
  function EntriesOf(o: ParseOutcome): seq<Entry> {
    if o.Parsed? then o.entries else []
  }

  /** The error a feed contributes: none for a fetched feed, one message otherwise. */
  function FeedErrors(src: FeedSource, o: ParseOutcome): (errs: seq<string>)
    ensures |errs| == (if Fetched(o) then 0 else 1)
  {
    match o
    case Raises(exc) => [FetchFailedMessage(src.name, exc)]
    case Parsed(bozo, bexc, es) => if bozo && es == [] then [FeedErrorMessage(src.name, bexc)] else []
  }

  /** The state `fetch_and_store` keeps while it runs: the counters, the growing link set,
      and the alerts handed to the session. */
  datatype IngestState = IngestState(result: IngestResult, links: set<string>, added: seq<Alert>)

  function InitState(storedLinks: set<string>): IngestState {
    IngestState(IngestResult(0, 0, 0, 0, []), storedLinks, [])
  }

  /** One entry of a fetched feed: counted, then skipped or added. */
  function EntryStep(st: IngestState, src: FeedSource, e: Entry, now: string): IngestState {
    var link := LinkOf(e);
    var r := st.result.(entriesFound := st.result.entriesFound + 1);
    if link == "" || link in st.links then
      st.(result := r.(duplicatesSkipped := r.duplicatesSkipped + 1))
    else
      IngestState(r.(newAlerts := r.newAlerts + 1), st.links + {link}, st.added + [ParseEntry(e, src, now)])
  }

  /** The inner loop over a feed's entries, from `es[0]` on. */
  function EntriesFrom(st: IngestState, src: FeedSource, es: seq<Entry>, now: string): IngestState
    decreases |es|
  {
    if es == [] then st else EntriesFrom(EntryStep(st, src, es[0], now), src, es[1..], now)
  }

  /** One iteration of the outer loop. */
  function FeedStep(st: IngestState, src: FeedSource, o: ParseOutcome, now: string): IngestState {
    if Fetched(o) then
      EntriesFrom(st.(result := st.result.(feedsFetched := st.result.feedsFetched + 1)), src, o.entries, now)
    else
      st.(result := st.result.(errors := st.result.errors + FeedErrors(src, o)))
  }

  /** The outer loop over the feeds, from `fs[0]` on. */
  function IngestFrom(st: IngestState, fs: seq<FeedSource>, os: seq<ParseOutcome>, now: string): IngestState
    requires |fs| == |os|
    decreases |fs|
  {
    if fs == [] then st else IngestFrom(FeedStep(st, fs[0], os[0], now), fs[1..], os[1..], now)
  }

  /** A whole run. */
  function Ingest(feeds: Option<seq<FeedSource>>, outcomes: seq<ParseOutcome>, storedLinks: set<string>,
                  now: string): IngestState
    requires |outcomes| == |EffectiveFeeds(feeds)|
  {
    IngestFrom(InitState(storedLinks), EffectiveFeeds(feeds), outcomes, now)
  }

  /** The errors of a run: one per feed that was not fetched, in feed order. */
  function ErrorsOf(fs: seq<FeedSource>, os: seq<ParseOutcome>): seq<string>
    requires |fs| == |os|
  {
    if fs == [] then [] else FeedErrors(fs[0], os[0]) + ErrorsOf(fs[1..], os[1..])
  }

  /** How many entries the feeds returned; a feed that was not fetched returned none. */
  function TotalEntries(os: seq<ParseOutcome>): nat {
    if os == [] then 0 else |EntriesOf(os[0])| + TotalEntries(os[1..])
  }

  /** How many feeds were fetched. */
  function FetchedCount(os: seq<ParseOutcome>): nat {
    if os == [] then 0 else (if Fetched(os[0]) then 1 else 0) + FetchedCount(os[1..])
  }

  // ---- Invariants of the run ----

  /** The counters balance: every entry counted was added or skipped, and the added count is
      the number of alerts handed to the session. */
  ghost predicate Balanced(st: IngestState) {
    && st.result.entriesFound == st.result.newAlerts + st.result.duplicatesSkipped
    && st.result.newAlerts == |st.added|
  }

  /** Deduplication relative to the links stored before the run: the link set is the stored
      links plus the added alerts' links, and the added alerts have non-empty, pairwise
      distinct links none of which was stored. */
  ghost predicate Deduplicated(st: IngestState, stored: set<string>) {
    && st.links == stored + LinksOf(st.added)
    && (forall i :: 0 <= i < |st.added| ==> st.added[i].link != "" && st.added[i].link !in stored)
    && LinksUnique(st.added)
  }

  lemma EntryStepKeeps(st: IngestState, src: FeedSource, e: Entry, now: string, stored: set<string>)
    requires Balanced(st) && Deduplicated(st, stored)
    ensures var nx := EntryStep(st, src, e, now);
      && Balanced(nx) && Deduplicated(nx, stored)
      && nx.result.entriesFound == st.result.entriesFound + 1
      && nx.result.feedsFetched == st.result.feedsFetched && nx.result.errors == st.result.errors
  {
    var link := LinkOf(e);
    if !(link == "" || link in st.links) {
      var nx := EntryStep(st, src, e, now);
      var a := ParseEntry(e, src, now);
      assert nx.added == st.added + [a];
      assert LinksOf(nx.added) == LinksOf(st.added) + {link} by {
        forall l | l in LinksOf(nx.added) ensures l in LinksOf(st.added) + {link} {
          var i :| 0 <= i < |nx.added| && nx.added[i].link == l;
          if i < |st.added| { assert st.added[i].link == l; }
        }
        forall l | l in LinksOf(st.added) ensures l in LinksOf(nx.added) {
          var i :| 0 <= i < |st.added| && st.added[i].link == l;
          assert nx.added[i].link == l;
        }
        assert nx.added[|st.added|].link == link;
      }
      forall i | 0 <= i < |st.added| ensures st.added[i].link != link {
        assert st.added[i].link in LinksOf(st.added);
      }
    }
  }

  lemma {:induction false} EntriesFromKeeps(st: IngestState, src: FeedSource, es: seq<Entry>, now: string,
                                            stored: set<string>)
    requires Balanced(st) && Deduplicated(st, stored)
    ensures var nx := EntriesFrom(st, src, es, now);
      && Balanced(nx) && Deduplicated(nx, stored)
      && nx.result.entriesFound == st.result.entriesFound + |es|
      && nx.result.feedsFetched == st.result.feedsFetched && nx.result.errors == st.result.errors
    decreases |es|
  {
    if es != [] {
      var mid := EntryStep(st, src, es[0], now);
      EntryStepKeeps(st, src, es[0], now, stored);
      EntriesFromKeeps(mid, src, es[1..], now, stored);
    }
  }

  lemma FeedStepKeeps(st: IngestState, src: FeedSource, o: ParseOutcome, now: string, stored: set<string>)
    requires Balanced(st) && Deduplicated(st, stored)
    ensures var nx := FeedStep(st, src, o, now);
      && Balanced(nx) && Deduplicated(nx, stored)
      && nx.result.entriesFound == st.result.entriesFound + |EntriesOf(o)|
      && nx.result.feedsFetched == st.result.feedsFetched + (if Fetched(o) then 1 else 0)
      && nx.result.errors == st.result.errors + FeedErrors(src, o)
  {
    if Fetched(o) {
      EntriesFromKeeps(st.(result := st.result.(feedsFetched := st.result.feedsFetched + 1)), src,
                       o.entries, now, stored);
    }
  }

  lemma {:induction false} IngestFromKeeps(st: IngestState, fs: seq<FeedSource>, os: seq<ParseOutcome>,
                                           now: string, stored: set<string>)
    requires |fs| == |os| && Balanced(st) && Deduplicated(st, stored)
    ensures var nx := IngestFrom(st, fs, os, now);
      && Balanced(nx) && Deduplicated(nx, stored)
      && nx.result.entriesFound == st.result.entriesFound + TotalEntries(os)
      && nx.result.feedsFetched == st.result.feedsFetched + FetchedCount(os)
      && nx.result.errors == st.result.errors + ErrorsOf(fs, os)
    decreases |fs|
  {
    if fs != [] {
      var mid := FeedStep(st, fs[0], os[0], now);
      FeedStepKeeps(st, fs[0], os[0], now, stored);
      IngestFromKeeps(mid, fs[1..], os[1..], now, stored);
      assert IngestFrom(st, fs, os, now) == IngestFrom(mid, fs[1..], os[1..], now);
      assert FetchedCount(os) == (if Fetched(os[0]) then 1 else 0) + FetchedCount(os[1..]);
      assert TotalEntries(os) == |EntriesOf(os[0])| + TotalEntries(os[1..]);
      assert st.result.errors + ErrorsOf(fs, os)
          == (st.result.errors + FeedErrors(fs[0], os[0])) + ErrorsOf(fs[1..], os[1..]);
    }
  }

  /** Links are only ever added, and every non-empty link read ends up known. */
  lemma {:induction false} EntriesFromCovers(st: IngestState, src: FeedSource, es: seq<Entry>, now: string)
    ensures var nx := EntriesFrom(st, src, es, now);
      st.links <= nx.links && forall e :: e in es && LinkOf(e) != "" ==> LinkOf(e) in nx.links
    decreases |es|
  {
    if es != [] {
      EntriesFromCovers(EntryStep(st, src, es[0], now), src, es[1..], now);
      assert forall e :: e in es ==> e == es[0] || e in es[1..];
    }
  }

  lemma {:induction false} IngestFromCovers(st: IngestState, fs: seq<FeedSource>, os: seq<ParseOutcome>,
                                            now: string)
    requires |fs| == |os|
    ensures var nx := IngestFrom(st, fs, os, now);
      && st.links <= nx.links
      && (forall k, e :: 0 <= k < |os| && e in EntriesOf(os[k]) && LinkOf(e) != "" ==> LinkOf(e) in nx.links)
    decreases |fs|
  {
    if fs != [] {
      var mid := FeedStep(st, fs[0], os[0], now);
      if Fetched(os[0]) {
        EntriesFromCovers(st.(result := st.result.(feedsFetched := st.result.feedsFetched + 1)), fs[0],
                          os[0].entries, now);
      }
      IngestFromCovers(mid, fs[1..], os[1..], now);
      var nx := IngestFrom(st, fs, os, now);
      forall k, e | 0 <= k < |os| && e in EntriesOf(os[k]) && LinkOf(e) != "" ensures LinkOf(e) in nx.links {
        if k > 0 { assert os[1..][k - 1] == os[k]; }
      }
    }
  }

  lemma {:induction false} ErrorsAndFetched(fs: seq<FeedSource>, os: seq<ParseOutcome>)
    requires |fs| == |os|
    ensures FetchedCount(os) + |ErrorsOf(fs, os)| == |fs|
    decreases |fs|
  {
    if fs != [] {
      ErrorsAndFetched(fs[1..], os[1..]);
    }
  }

  /** What a run promises. Every feed is fetched or contributes exactly one error, the errors
      being exactly the per-feed messages in feed order; every entry found is added or
      skipped; the added alerts have non-empty links, pairwise distinct and none stored
      before; the link set grows by exactly their links; and every non-empty link of every
      fetched feed is known at the end; `entries_found` is the number of entries the fetched
      feeds returned. */
  lemma IngestCorrect(feeds: Option<seq<FeedSource>>, outcomes: seq<ParseOutcome>, storedLinks: set<string>,
                      now: string)
    requires |outcomes| == |EffectiveFeeds(feeds)|
    ensures var fs := EffectiveFeeds(feeds);
      var st := Ingest(feeds, outcomes, storedLinks, now);
      var r := st.result;
      && r.feedsFetched + |r.errors| == |fs|
      && r.errors == ErrorsOf(fs, outcomes)
      && r.entriesFound == TotalEntries(outcomes)
      && r.entriesFound == r.newAlerts + r.duplicatesSkipped
      && r.newAlerts == |st.added|
      && (forall a :: a in st.added ==> a.link != "" && a.link !in storedLinks)
      && LinksUnique(st.added)
      && st.links == storedLinks + LinksOf(st.added)
      && (forall k, e :: 0 <= k < |outcomes| && e in EntriesOf(outcomes[k]) && LinkOf(e) != ""
            ==> LinkOf(e) in st.links)
  {
    var fs := EffectiveFeeds(feeds);
    var init := InitState(storedLinks);
    assert LinksOf(init.added) == {};
    IngestFromKeeps(init, fs, outcomes, now, storedLinks);
    IngestFromCovers(init, fs, outcomes, now);
    ErrorsAndFetched(fs, outcomes);
    var st := Ingest(feeds, outcomes, storedLinks, now);
    forall a | a in st.added ensures a.link != "" && a.link !in storedLinks {
      var i :| 0 <= i < |st.added| && st.added[i] == a;
    }
  }

  /** Every added alert was built by `_parse_entry` from an entry of one of the feeds, and
      is new and unclassified. */
  lemma {:induction false} IngestProvenance(st: IngestState, fs: seq<FeedSource>, os: seq<ParseOutcome>,
                                            now: string)
    requires |fs| == |os|
    ensures forall a :: a in IngestFrom(st, fs, os, now).added ==>
      a in st.added || exists k, e :: 0 <= k < |fs| && e in EntriesOf(os[k]) && a == ParseEntry(e, fs[k], now)
    decreases |fs|
  {
    if fs != [] {
      var mid := FeedStep(st, fs[0], os[0], now);
      FeedStepProvenance(st, fs[0], os[0], now);
      IngestProvenance(mid, fs[1..], os[1..], now);
      forall a | a in IngestFrom(st, fs, os, now).added
        ensures a in st.added || exists k, e :: 0 <= k < |fs| && e in EntriesOf(os[k]) && a == ParseEntry(e, fs[k], now)
      {
        if a !in mid.added {
          var k, e :| 0 <= k < |fs[1..]| && e in EntriesOf(os[1..][k]) && a == ParseEntry(e, fs[1..][k], now);
          assert fs[k + 1] == fs[1..][k] && os[k + 1] == os[1..][k];
        } else if a !in st.added {
          var e :| e in EntriesOf(os[0]) && a == ParseEntry(e, fs[0], now);
        }
      }
    }
  }

  lemma FeedStepProvenance(st: IngestState, src: FeedSource, o: ParseOutcome, now: string)
    ensures forall a :: a in FeedStep(st, src, o, now).added ==>
      a in st.added || exists e :: e in EntriesOf(o) && a == ParseEntry(e, src, now)
  {
    if Fetched(o) {
      EntriesProvenance(st.(result := st.result.(feedsFetched := st.result.feedsFetched + 1)), src, o.entries, now);
    }
  }

  lemma {:induction false} EntriesProvenance(st: IngestState, src: FeedSource, es: seq<Entry>, now: string)
    ensures forall a :: a in EntriesFrom(st, src, es, now).added ==>
      a in st.added || exists e :: e in es && a == ParseEntry(e, src, now)
    decreases |es|
  {
    if es != [] {
      var mid := EntryStep(st, src, es[0], now);
      EntriesProvenance(mid, src, es[1..], now);
      assert forall a :: a in mid.added ==> a in st.added || a == ParseEntry(es[0], src, now);
      assert forall e :: e in es[1..] ==> e in es;
    }
  }

  /** After the commit the table is the old rows plus the added alerts; when the set read at
      the start holds the table's links, the unique constraint on `link` still holds. */
  lemma CommitKeepsLinksUnique(db: seq<Alert>, feeds: Option<seq<FeedSource>>, outcomes: seq<ParseOutcome>,
                               now: string)
    requires |outcomes| == |EffectiveFeeds(feeds)|
    requires LinksUnique(db)
    ensures LinksUnique(db + Ingest(feeds, outcomes, LinksOf(db), now).added)
  {
    var added := Ingest(feeds, outcomes, LinksOf(db), now).added;
    IngestCorrect(feeds, outcomes, LinksOf(db), now);
    var t := db + added;
    forall i, j | 0 <= i < j < |t| ensures t[i].link != t[j].link {
      if j >= |db| && i < |db| {
        assert t[i].link in LinksOf(db);
        assert t[j] in added;
      } else if i >= |db| {
        assert t[i] == added[i - |db|] && t[j] == added[j - |db|];
      }
    }
  }

  // ---- The loop ----

  /** `fetch_and_store(session, feeds)`: `outcomes[k]` is what parsing the k-th effective feed
      produced, `storedLinks` the links the table holds when the run starts, `now` the
      creation timestamp; `added` are the alerts handed to the session and committed. */
  method FetchAndStore(feeds: Option<seq<FeedSource>>, outcomes: seq<ParseOutcome>, storedLinks: set<string>,
                       now: string)
    returns (result: IngestResult, added: seq<Alert>)
    requires |outcomes| == |EffectiveFeeds(feeds)|
    ensures result == Ingest(feeds, outcomes, storedLinks, now).result
    ensures added == Ingest(feeds, outcomes, storedLinks, now).added
    ensures result.feedsFetched + |result.errors| == |EffectiveFeeds(feeds)|
    ensures result.entriesFound == TotalEntries(outcomes)
    ensures result.entriesFound == result.newAlerts + result.duplicatesSkipped
    ensures result.newAlerts == |added| && LinksUnique(added)
    ensures forall a :: a in added ==> a.link != "" && a.link !in storedLinks
  {
    var fs := EffectiveFeeds(feeds);
    result := IngestResult(0, 0, 0, 0, []);
    var existingLinks := storedLinks;
    added := [];
    var i := 0;
    while i < |fs|
      invariant 0 <= i <= |fs|
      invariant IngestFrom(IngestState(result, existingLinks, added), fs[i..], outcomes[i..], now)
             == Ingest(feeds, outcomes, storedLinks, now)
    {
      var src := fs[i];
      match outcomes[i] {
        case Raises(exc) =>
          result := result.(errors := result.errors + [FetchFailedMessage(src.name, exc)]);
        case Parsed(bozo, bozoException, entries) =>
          if bozo && |entries| == 0 {
            result := result.(errors := result.errors + [FeedErrorMessage(src.name, bozoException)]);
          } else {
            result := result.(feedsFetched := result.feedsFetched + 1);
            result, existingLinks, added := StoreEntries(result, existingLinks, added, src, entries, now);
          }
      }
      assert fs[i..][1..] == fs[i + 1..] && outcomes[i..][1..] == outcomes[i + 1..];
      i := i + 1;
    }
    IngestCorrect(feeds, outcomes, storedLinks, now);
  }

  /** The inner loop of `fetch_and_store` over one fetched feed's entries. */
  method StoreEntries(result0: IngestResult, links0: set<string>, added0: seq<Alert>, src: FeedSource,
                      entries: seq<Entry>, now: string)
    returns (result: IngestResult, existingLinks: set<string>, added: seq<Alert>)
    ensures IngestState(result, existingLinks, added) == EntriesFrom(IngestState(result0, links0, added0), src, entries, now)
  {
    result, existingLinks, added := result0, links0, added0;
    var j := 0;
    while j < |entries|
      invariant 0 <= j <= |entries|
      invariant EntriesFrom(IngestState(result, existingLinks, added), src, entries[j..], now)
             == EntriesFrom(IngestState(result0, links0, added0), src, entries, now)
    {
      var e := entries[j];
      var link := LinkOf(e);
      result := result.(entriesFound := result.entriesFound + 1);
      if link == "" || link in existingLinks {
        result := result.(duplicatesSkipped := result.duplicatesSkipped + 1);
      } else {
        var alert := ParseEntry(e, src, now);
        added := added + [alert];
        existingLinks := existingLinks + {link};
        result := result.(newAlerts := result.newAlerts + 1);
      }
      assert entries[j..][1..] == entries[j + 1..];
      j := j + 1;
    }
  }
}
