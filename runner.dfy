/** The pipeline runner: reading the feed configuration, collecting,
    de-duplicating and summarising the articles of each theme, appending
    them to the article store, and choosing which themes to run. */
module Runner {
  import opened Text
  import opened Values
  import Fetch
  import Summarizer

  // ---------------------------------------------------------------------
  // De-duplication by (url, title)

  /** The record's url and title can be stripped: each is a string or falsy. */
  predicate Keyed(r: Record)
  {
    Strippable(Get(r, "url")) && Strippable(Get(r, "title"))
  }

  predicate AllKeyed(rs: seq<Record>)
  {
    forall i :: 0 <= i < |rs| ==> Keyed(rs[i])
  }

  /** The de-duplication key: the stripped url and the stripped title, a
      missing or falsy one reading as "". */
  function KeyOf(r: Record): (string, string)
    requires Keyed(r)
  {
    (StrippedOr(Get(r, "url")).value, StrippedOr(Get(r, "title")).value)
  }

  /** The keys of all the records. */
  function KeySet(rs: seq<Record>): set<(string, string)>
    requires AllKeyed(rs)
  {
    if rs == [] then {} else KeySet(rs[..|rs| - 1]) + {KeyOf(rs[|rs| - 1])}
  }

  /** A key is in `KeySet(rs)` exactly when some record has it. */
  lemma KeySetMembers(rs: seq<Record>, k: (string, string))
    requires AllKeyed(rs)
    ensures k in KeySet(rs) <==> exists i :: 0 <= i < |rs| && KeyOf(rs[i]) == k
  {
    KeySetHas(rs);
    if k in KeySet(rs) {
      KeySetFrom(rs, k);
    }
  }

  lemma {:induction false} KeySetHas(rs: seq<Record>)
    requires AllKeyed(rs)
    ensures forall i :: 0 <= i < |rs| ==> KeyOf(rs[i]) in KeySet(rs)
  {
    if rs != [] {
      var front := rs[..|rs| - 1];
      assert AllKeyed(front);
      KeySetHas(front);
      assert KeySet(rs) == KeySet(front) + {KeyOf(rs[|rs| - 1])};
      forall i | 0 <= i < |rs| - 1
        ensures KeyOf(rs[i]) in KeySet(rs)
      {
        assert rs[i] == front[i];
      }
    }
  }

  lemma {:induction false} KeySetFrom(rs: seq<Record>, k: (string, string))
    requires AllKeyed(rs) && k in KeySet(rs)
    ensures exists i :: 0 <= i < |rs| && KeyOf(rs[i]) == k
  {
    var front := rs[..|rs| - 1];
    assert AllKeyed(front);
    assert KeySet(rs) == KeySet(front) + {KeyOf(rs[|rs| - 1])};
    if k != KeyOf(rs[|rs| - 1]) {
      KeySetFrom(front, k);
      var i :| 0 <= i < |front| && KeyOf(front[i]) == k;
      assert rs[i] == front[i];
    }
  }

  lemma KeySetSnoc(rs: seq<Record>, r: Record)
    requires AllKeyed(rs) && Keyed(r)
    ensures AllKeyed(rs + [r])
    ensures KeySet(rs + [r]) == KeySet(rs) + {KeyOf(r)}
  {
    assert (rs + [r])[..|rs|] == rs;
  }

  /** No two records share a key. */
  predicate UniqueKeys(rs: seq<Record>)
    requires AllKeyed(rs)
  {
    forall i, j :: 0 <= i < j < |rs| ==> KeyOf(rs[i]) != KeyOf(rs[j])
  }

  lemma UniqueSnoc(rs: seq<Record>, r: Record)
    requires AllKeyed(rs) && Keyed(r)
    ensures AllKeyed(rs + [r])
    ensures UniqueKeys(rs + [r]) <==> UniqueKeys(rs) && KeyOf(r) !in KeySet(rs)
  {
    var s := rs + [r];
    forall i | 0 <= i < |s|
      ensures Keyed(s[i])
    {
      if i < |rs| {
        assert s[i] == rs[i];
      }
    }
    KeySetMembers(rs, KeyOf(r));
    if UniqueKeys(rs) && KeyOf(r) !in KeySet(rs) {
      forall i, j | 0 <= i < j < |s|
        ensures KeyOf(s[i]) != KeyOf(s[j])
      {
        assert s[i] == rs[i];
        if j < |rs| {
          assert s[j] == rs[j];
        }
      }
    }
    if UniqueKeys(s) {
      forall i, j | 0 <= i < j < |rs|
        ensures KeyOf(rs[i]) != KeyOf(rs[j])
      {
        assert s[i] == rs[i] && s[j] == rs[j];
      }
    }
    if KeyOf(r) in KeySet(rs) {
      var i :| 0 <= i < |rs| && KeyOf(rs[i]) == KeyOf(r);
      assert KeyOf(s[i]) == KeyOf(s[|rs|]);
    }
  }

  /** The records `dedupe_items` keeps: each record whose key has not been
      seen among the records kept before it. */
  function FirstOccurrences(rs: seq<Record>): (out: seq<Record>)
    requires AllKeyed(rs)
    ensures AllKeyed(out) && |out| <= |rs|
  {
    if rs == [] then []
    else
      var prev := FirstOccurrences(rs[..|rs| - 1]);
      var r := rs[|rs| - 1];
      if KeyOf(r) in KeySet(prev) then prev
      else
        KeySetSnoc(prev, r);
        prev + [r]
  }

  lemma FirstOccurrencesSnoc(rs: seq<Record>, r: Record)
    requires AllKeyed(rs) && Keyed(r)
    ensures AllKeyed(rs + [r])
    ensures FirstOccurrences(rs + [r]) ==
      if KeyOf(r) in KeySet(FirstOccurrences(rs)) then FirstOccurrences(rs) else FirstOccurrences(rs) + [r]
  {
    assert (rs + [r])[..|rs|] == rs;
  }

  lemma TakeSnoc<T>(s: seq<T>, i: nat)
    requires i < |s|
    ensures s[..i + 1] == s[..i] + [s[i]]
  {
  }

  /** One iteration of `DedupeItems` keeps its invariant. */
  lemma DedupeStep(items: seq<Record>, i: nat, out: seq<Record>, seen: set<(string, string)>)
    requires i < |items| && AllKeyed(items[..i]) && Keyed(items[i])
    requires out == FirstOccurrences(items[..i]) && seen == KeySet(out)
    ensures AllKeyed(items[..i + 1])
    ensures KeyOf(items[i]) in seen ==> out == FirstOccurrences(items[..i + 1])
    ensures KeyOf(items[i]) !in seen ==>
      && out + [items[i]] == FirstOccurrences(items[..i + 1])
      && seen + {KeyOf(items[i])} == KeySet(out + [items[i]])
  {
    TakeSnoc(items, i);
    FirstOccurrencesSnoc(items[..i], items[i]);
    KeySetSnoc(out, items[i]);
  }

  /** `dedupe_items` as a function: it raises when some url or title is
      truthy but not a string, and otherwise keeps the first occurrences. */
  function Dedupe(rs: seq<Record>): (r: Result<seq<Record>>)
    ensures r.Raised? <==> exists i :: 0 <= i < |rs| && !Keyed(rs[i])
  {
    if AllKeyed(rs) then Ok(FirstOccurrences(rs)) else Raised(StripError)
  }

  /** `dedupe_items`: one pass with a set of the keys seen so far. */
  method DedupeItems(items: seq<Record>) returns (r: Result<seq<Record>>)
    ensures r == Dedupe(items)
  {
    var seen: set<(string, string)> := {};
    var out: seq<Record> := [];
    for i := 0 to |items|
      invariant AllKeyed(items[..i])
      invariant out == FirstOccurrences(items[..i])
      invariant seen == KeySet(out)
    {
      var it := items[i];
      var url := StrippedOr(Get(it, "url"));
      if url.Raised? {
        return Raised(url.error);
      }
      var title := StrippedOr(Get(it, "title"));
      if title.Raised? {
        return Raised(title.error);
      }
      var key := (url.value, title.value);
      assert Keyed(it) && key == KeyOf(it);
      DedupeStep(items, i, out, seen);
      if key in seen {
        continue;
      }
      seen := seen + {key};
      out := out + [it];
    }
    assert items[..|items|] == items;
    return Ok(out);
  }

  /** Nothing kept shares a key with anything else kept. */
  lemma {:induction false} DedupeUniqueKeys(rs: seq<Record>)
    requires AllKeyed(rs)
    ensures UniqueKeys(FirstOccurrences(rs))
  {
    if rs != [] {
      var prev := FirstOccurrences(rs[..|rs| - 1]);
      DedupeUniqueKeys(rs[..|rs| - 1]);
      UniqueSnoc(prev, rs[|rs| - 1]);
    }
  }

  /** Every key of the input survives: the kept records have exactly the
      input's keys. */
  lemma {:induction false} DedupeKeySet(rs: seq<Record>)
    requires AllKeyed(rs)
    ensures KeySet(FirstOccurrences(rs)) == KeySet(rs)
  {
    if rs != [] {
      var prev := FirstOccurrences(rs[..|rs| - 1]);
      DedupeKeySet(rs[..|rs| - 1]);
      KeySetSnoc(prev, rs[|rs| - 1]);
    }
  }

  /** The kept records are input records, unmodified and in input order. */
  lemma {:induction false} DedupeSubsequence(rs: seq<Record>)
    requires AllKeyed(rs)
    ensures SubsequenceOf(FirstOccurrences(rs), rs)
  {
    if rs != [] {
      var front := rs[..|rs| - 1];
      var prev := FirstOccurrences(front);
      DedupeSubsequence(front);
      var out := FirstOccurrences(rs);
      if out == prev {
        assert rs[..|rs| - 1] == front;
      } else {
        assert out[..|out| - 1] == prev;
      }
    }
  }

  /** What is kept from a prefix of the input is a prefix of what is kept
      from all of it: a record once kept is never replaced. */
  lemma {:induction false} DedupePrefix(rs: seq<Record>, k: nat)
    requires AllKeyed(rs) && k <= |rs|
    ensures AllKeyed(rs[..k])
    ensures var p := FirstOccurrences(rs[..k]);
      |p| <= |FirstOccurrences(rs)| && FirstOccurrences(rs)[..|p|] == p
    decreases |rs| - k
  {
    if k < |rs| {
      var front := rs[..|rs| - 1];
      assert front[..k] == rs[..k];
      DedupePrefix(front, k);
    } else {
      assert rs[..k] == rs;
    }
  }

  /** First seen wins: a record whose key does not occur before it is kept. */
  lemma DedupeKeepsFirst(rs: seq<Record>, i: nat)
    requires AllKeyed(rs) && i < |rs|
    requires forall j :: 0 <= j < i ==> KeyOf(rs[j]) != KeyOf(rs[i])
    ensures rs[i] in FirstOccurrences(rs)
  {
    NewKeyNotSeen(rs, i);
    KeptWhenNew(rs, i);
  }

  lemma NewKeyNotSeen(rs: seq<Record>, i: nat)
    requires AllKeyed(rs) && i < |rs|
    requires forall j :: 0 <= j < i ==> KeyOf(rs[j]) != KeyOf(rs[i])
    ensures AllKeyed(rs[..i]) && KeyOf(rs[i]) !in KeySet(rs[..i])
  {
    var front := rs[..i];
    forall j | 0 <= j < |front|
      ensures KeyOf(front[j]) != KeyOf(rs[i])
    {
      assert front[j] == rs[j];
    }
    KeySetMembers(front, KeyOf(rs[i]));
  }

  lemma KeptWhenNew(rs: seq<Record>, i: nat)
    requires AllKeyed(rs) && i < |rs|
    requires AllKeyed(rs[..i]) && KeyOf(rs[i]) !in KeySet(rs[..i])
    ensures rs[i] in FirstOccurrences(rs)
  {
    var front := rs[..i];
    TakeSnoc(rs, i);
    DedupeKeySet(front);
    FirstOccurrencesSnoc(front, rs[i]);
    ghost var q := FirstOccurrences(rs[..i + 1]);
    assert q == FirstOccurrences(front) + [rs[i]];
    DedupePrefix(rs, i + 1);
    LastOfPrefixIn(FirstOccurrences(rs), q, FirstOccurrences(front), rs[i]);
  }

  lemma LastOfPrefixIn<T>(a: seq<T>, q: seq<T>, p: seq<T>, x: T)
    requires |q| <= |a| && a[..|q|] == q && q == p + [x]
    ensures x in a
  {
    assert a[|p|] == q[|p|];
  }

  /** Records with distinct keys pass through unchanged. */
  lemma {:induction false} DistinctKeysKept(rs: seq<Record>)
    requires AllKeyed(rs) && UniqueKeys(rs)
    ensures FirstOccurrences(rs) == rs
  {
    if rs != [] {
      var front := rs[..|rs| - 1];
      UniqueSnoc(front, rs[|rs| - 1]);
      assert front + [rs[|rs| - 1]] == rs;
      DistinctKeysKept(front);
    }
  }

  /** De-duplicating twice keeps what de-duplicating once kept. */
  lemma DedupeIdempotent(rs: seq<Record>)
    requires AllKeyed(rs)
    ensures FirstOccurrences(FirstOccurrences(rs)) == FirstOccurrences(rs)
  {
    DedupeUniqueKeys(rs);
    DistinctKeysKept(FirstOccurrences(rs));
  }

  // ---------------------------------------------------------------------
  // The feed configuration

  /** A theme-to-feeds table: the themes in file order and each theme's
      feed URLs. */
  datatype FeedsMap = FeedsMap(themes: seq<string>, urls: map<string, seq<string>>)
  {
    /** A parsed JSON object: its keys, once each, are exactly the themes. */
    predicate Valid()
    {
      && (forall i, j :: 0 <= i < j < |themes| ==> themes[i] != themes[j])
      && (forall t :: t in urls ==> t in themes)
      && (forall t :: t in themes ==> t in urls)
    }
  }

  const NoFeeds := FeedsMap([], map[])

  /** `feeds_map.get(theme, [])`. */
  function FeedsFor(fm: FeedsMap, theme: string): seq<string>
  {
    if theme in fm.urls then fm.urls[theme] else []
  }

  /** `read_feeds_config`: the JSON file when it exists and parses, else
      the legacy loader's table, else no feeds at all. */
  function ReadFeedsConfig(fileExists: bool, fromFile: Result<FeedsMap>, legacy: Result<FeedsMap>): (fm: FeedsMap)
    ensures fileExists && fromFile.Ok? ==> fm == fromFile.value
    ensures !(fileExists && fromFile.Ok?) && legacy.Ok? ==> fm == legacy.value
    ensures !(fileExists && fromFile.Ok?) && legacy.Raised? ==> fm == NoFeeds
  {
    if fileExists && fromFile.Ok? then fromFile.value
    else if legacy.Ok? then legacy.value
    else NoFeeds
  }

  /** `if limit_sources: feed_urls = feed_urls[:limit_sources]`: a non-zero
      limit keeps that many feeds from the front (a negative one drops that
      many from the back); no limit or 0 keeps all. */
  function LimitFeeds(urls: seq<string>, limit: Option<int>): (r: seq<string>)
    ensures |r| <= |urls| && r == urls[..|r|]
    ensures limit.None? || limit.value == 0 ==> r == urls
    ensures limit.Some? && limit.value > 0 ==> |r| == if limit.value < |urls| then limit.value else |urls|
    ensures limit.Some? && limit.value < 0 ==> |r| == if |urls| + limit.value > 0 then |urls| + limit.value else 0
  {
    if limit.Some? && limit.value != 0 then Prefix(urls, limit.value) else urls
  }

  // ---------------------------------------------------------------------
  // One theme

  /** `data/articles.jsonl`, seen as the records appended to it. */
  class ArticleStore {
    var present: bool
    var records: seq<Record>

    constructor (present: bool, records: seq<Record>)
      ensures this.present == present && this.records == records
    {
      this.present := present;
      this.records := records;
    }

    /** `append_jsonl`: opening the file for appending creates it; the batch
        goes after what is there. */
    method Append(batch: seq<Record>)
      modifies this
      ensures present && records == old(records) + batch
    {
      present := true;
      records := records + batch;
    }
  }

  /** The summarised records, in order, leaving out each one whose
      summarisation raised. */
  function Summarized(items: seq<Record>, provider: string, openrouter: Summarizer.Provider): (out: seq<Record>)
    ensures |out| <= |items|
  {
    if items == [] then []
    else
      var prev := Summarized(items[..|items| - 1], provider, openrouter);
      match Summarizer.SummarizeItem(items[|items| - 1], provider, openrouter)
      case Ok(r) => prev + [r]
      case Raised(_) => prev
  }

  /** Summarising keeps the url and the title, hence the key. */
  lemma SummarizeKeepsKey(item: Record, provider: string, openrouter: Summarizer.Provider)
    requires Keyed(item) && Summarizer.SummarizeItem(item, provider, openrouter).Ok?
    ensures var r := Summarizer.SummarizeItem(item, provider, openrouter).value;
      Keyed(r) && KeyOf(r) == KeyOf(item)
  {
    var r := Summarizer.SummarizeItem(item, provider, openrouter).value;
    assert Get(r, "url") == Get(item, "url");
    assert Get(r, "title") == Get(item, "title");
  }

  /** Summarising keeps records apart: distinct keys stay distinct. */
  lemma {:induction false} SummarizedKeys(items: seq<Record>, provider: string, openrouter: Summarizer.Provider)
    requires AllKeyed(items)
    ensures AllKeyed(Summarized(items, provider, openrouter))
    ensures KeySet(Summarized(items, provider, openrouter)) <= KeySet(items)
    ensures UniqueKeys(items) ==> UniqueKeys(Summarized(items, provider, openrouter))
  {
    if items != [] {
      var front := items[..|items| - 1];
      var last := items[|items| - 1];
      assert front + [last] == items;
      SummarizedKeys(front, provider, openrouter);
      UniqueSnoc(front, last);
      var prev := Summarized(front, provider, openrouter);
      var s := Summarizer.SummarizeItem(last, provider, openrouter);
      if s.Ok? {
        SummarizeKeepsKey(last, provider, openrouter);
        UniqueSnoc(prev, s.value);
        KeySetSnoc(prev, s.value);
      }
    }
  }

  /** Records from the collector always summarise: the skip path of the
      summarising loop is never taken for them. */
  lemma {:induction false} ArticlesAllSummarized(items: seq<Record>, theme: string, provider: string, openrouter: Summarizer.Provider)
    requires forall i :: 0 <= i < |items| ==> Fetch.IsArticle(items[i], theme)
    ensures |Summarized(items, provider, openrouter)| == |items|
  {
    if items != [] {
      ArticlesAllSummarized(items[..|items| - 1], theme, provider, openrouter);
      assert Fetch.IsArticle(items[|items| - 1], theme);
    }
  }

  lemma ArticlesKeyed(items: seq<Record>, theme: string)
    requires forall i :: 0 <= i < |items| ==> Fetch.IsArticle(items[i], theme)
    ensures AllKeyed(items)
  {
  }

  /** The feeds `run_theme` reads: those given, or the configured ones when
      none are given, cut to the limit. */
  function ThemeUrls(theme: string, feedUrls: Option<seq<string>>, config: FeedsMap, limit: Option<int>): seq<string>
  {
    LimitFeeds(if feedUrls.None? then FeedsFor(config, theme) else feedUrls.value, limit)
  }

  /** The records `run_theme` appends for a theme read from `urls`. */
  function ThemeRecords(theme: string, urls: seq<string>, web: Fetch.Web, provider: string,
                        openrouter: Summarizer.Provider): seq<Record>
  {
    if urls == [] then []
    else
      var items := Fetch.Collected(urls, theme, web);
      Fetch.CollectedAreArticles(urls, theme, web);
      ArticlesKeyed(items, theme);
      Summarized(FirstOccurrences(items), provider, openrouter)
  }

  /** The articles one theme run appends never repeat a (url, title) key. */
  lemma ThemeRecordsUnique(theme: string, urls: seq<string>, web: Fetch.Web, provider: string,
                           openrouter: Summarizer.Provider)
    ensures AllKeyed(ThemeRecords(theme, urls, web, provider, openrouter))
    ensures UniqueKeys(ThemeRecords(theme, urls, web, provider, openrouter))
  {
    if urls != [] {
      var items := Fetch.Collected(urls, theme, web);
      Fetch.CollectedAreArticles(urls, theme, web);
      ArticlesKeyed(items, theme);
      DedupeUniqueKeys(items);
      SummarizedKeys(FirstOccurrences(items), provider, openrouter);
    }
  }

  /** A theme run appends exactly the de-duplicated articles, so no more
      than `MaxEntries` per feed. */
  lemma ThemeRecordsCount(theme: string, urls: seq<string>, web: Fetch.Web, provider: string,
                          openrouter: Summarizer.Provider)
    requires urls != []
    ensures Dedupe(Fetch.Collected(urls, theme, web)).Ok?
    ensures |ThemeRecords(theme, urls, web, provider, openrouter)| == |Dedupe(Fetch.Collected(urls, theme, web)).value|
    ensures |ThemeRecords(theme, urls, web, provider, openrouter)| <= Fetch.MaxEntries * |urls|
  {
    var items := Fetch.Collected(urls, theme, web);
    Fetch.CollectedAreArticles(urls, theme, web);
    ArticlesKeyed(items, theme);
    DedupeArticles(items, theme);
    ArticlesAllSummarized(FirstOccurrences(items), theme, provider, openrouter);
    Fetch.CollectedBound(urls, theme, web);
  }

  /** Every kept record is one of the input records. */
  lemma FirstOccurrencesMembers(rs: seq<Record>)
    requires AllKeyed(rs)
    ensures forall j :: 0 <= j < |FirstOccurrences(rs)| ==> FirstOccurrences(rs)[j] in rs
  {
    DedupeSubsequence(rs);
    SubsequenceMembers(FirstOccurrences(rs), rs);
  }

  /** De-duplication keeps input records, so it keeps articles. */
  lemma DedupeArticles(items: seq<Record>, theme: string)
    requires forall i :: 0 <= i < |items| ==> Fetch.IsArticle(items[i], theme)
    ensures AllKeyed(items)
    ensures forall i :: 0 <= i < |FirstOccurrences(items)| ==> Fetch.IsArticle(FirstOccurrences(items)[i], theme)
  {
    forall i | 0 <= i < |items|
      ensures Keyed(items[i])
    {
      assert Fetch.IsArticle(items[i], theme);
    }
    FirstOccurrencesMembers(items);
    var out := FirstOccurrences(items);
    forall j | 0 <= j < |out|
      ensures Fetch.IsArticle(out[j], theme)
    {
      var i :| 0 <= i < |items| && items[i] == out[j];
    }
  }

  /** `run_theme`'s summarising loop: a record whose summarisation raises
      is reported and skipped. */
  method SummarizeAll(items: seq<Record>, provider: string, openrouter: Summarizer.Provider)
    returns (summarized: seq<Record>)
    ensures summarized == Summarized(items, provider, openrouter)
  {
    summarized := [];
    for i := 0 to |items|
      invariant summarized == Summarized(items[..i], provider, openrouter)
    {
      var r := Summarizer.SummarizeItem(items[i], provider, openrouter);
      assert items[..i + 1][..i] == items[..i];
      if r.Ok? {
        summarized := summarized + [r.value];
      }
    }
    assert items[..|items|] == items;
  }

  /** `run_theme`: returns how many records it appended to the store, and
      appends (creating the file) only when that is not zero. */
  method RunTheme(store: ArticleStore, theme: string, feedUrls: Option<seq<string>>, config: FeedsMap,
                  limit: Option<int>, web: Fetch.Web, provider: string, openrouter: Summarizer.Provider)
    returns (count: nat)
    modifies store
    ensures var batch := ThemeRecords(theme, ThemeUrls(theme, feedUrls, config, limit), web, provider, openrouter);
      && count == |batch|
      && store.records == old(store.records) + batch
      && store.present == (old(store.present) || count > 0)
  {
    var urls := if feedUrls.None? then FeedsFor(config, theme) else feedUrls.value;
    if limit.Some? && limit.value != 0 {
      urls := Prefix(urls, limit.value);
    }
    assert urls == ThemeUrls(theme, feedUrls, config, limit);
    if urls == [] {
      return 0;
    }
    var collected := Fetch.CollectFromFeeds(urls, theme, web);
    Fetch.CollectedAreArticles(urls, theme, web);
    ArticlesKeyed(collected, theme);
    var deduped := DedupeItems(collected);
    var summarized := SummarizeAll(deduped.value, provider, openrouter);
    if summarized != [] {
      store.Append(summarized);
    }
    return |summarized|;
  }

  // ---------------------------------------------------------------------
  // The whole run

  /** The requested themes: each comma-separated piece, stripped and
      lower-cased, leaving out the blank ones. */
  function Requested(pieces: seq<string>): (ts: seq<string>)
    ensures |ts| <= |pieces|
  {
    if pieces == [] then []
    else
      var prev := Requested(pieces[..|pieces| - 1]);
      var t := Strip(pieces[|pieces| - 1]);
      if t == "" then prev else prev + [Lower(t)]
  }

  /** Each piece, stripped and lower-cased, in piece order. */
  function Themed(pieces: seq<string>): seq<string>
  {
    seq(|pieces|, i requires 0 <= i < |pieces| => Lower(Strip(pieces[i])))
  }

  /** The requested themes are the non-blank pieces, stripped and
      lower-cased, in piece order: one per non-blank piece, each taken from
      such a piece, and every such piece giving one. */
  lemma RequestedPieces(pieces: seq<string>)
    ensures |Requested(pieces)| == NonBlankCount(pieces)
    ensures SubsequenceOf(Requested(pieces), Themed(pieces))
    ensures forall t :: t in Requested(pieces) <==>
      exists i :: 0 <= i < |pieces| && Strip(pieces[i]) != "" && t == Lower(Strip(pieces[i]))
  {
    RequestedCount(pieces);
    RequestedOrder(pieces);
    RequestedFrom(pieces);
    forall t, i | 0 <= i < |pieces| && Strip(pieces[i]) != "" && t == Lower(Strip(pieces[i]))
      ensures t in Requested(pieces)
    {
      RequestedHas(pieces, i);
    }
  }

  lemma {:induction false} RequestedCount(pieces: seq<string>)
    ensures |Requested(pieces)| == NonBlankCount(pieces)
  {
    if pieces != [] {
      RequestedCount(pieces[..|pieces| - 1]);
      StripBlank(pieces[|pieces| - 1]);
    }
  }

  lemma {:induction false} RequestedOrder(pieces: seq<string>)
    ensures SubsequenceOf(Requested(pieces), Themed(pieces))
  {
    if pieces != [] {
      var front := pieces[..|pieces| - 1];
      RequestedOrder(front);
      var tp := Themed(pieces);
      assert tp[..|tp| - 1] == Themed(front);
      if Strip(pieces[|pieces| - 1]) != "" {
        var r := Requested(pieces);
        assert r[..|r| - 1] == Requested(front);
      }
    }
  }

  /** Every requested theme comes from a non-blank piece. */
  lemma {:induction false} RequestedFrom(pieces: seq<string>)
    ensures forall t :: t in Requested(pieces) ==>
      exists i :: 0 <= i < |pieces| && Strip(pieces[i]) != "" && t == Lower(Strip(pieces[i]))
  {
    if pieces != [] {
      var front := pieces[..|pieces| - 1];
      RequestedFrom(front);
      forall t | t in Requested(pieces)
        ensures exists i :: 0 <= i < |pieces| && Strip(pieces[i]) != "" && t == Lower(Strip(pieces[i]))
      {
        if t in Requested(front) {
          var i :| 0 <= i < |front| && Strip(front[i]) != "" && t == Lower(Strip(front[i]));
          assert pieces[i] == front[i];
        } else {
          assert Strip(pieces[|pieces| - 1]) != "" && t == Lower(Strip(pieces[|pieces| - 1]));
        }
      }
    }
  }

  /** Every non-blank piece gives a requested theme. */
  lemma {:induction false} RequestedHas(pieces: seq<string>, i: nat)
    requires i < |pieces| && Strip(pieces[i]) != ""
    ensures Lower(Strip(pieces[i])) in Requested(pieces)
    decreases |pieces|
  {
    var front := pieces[..|pieces| - 1];
    if i < |front| {
      RequestedHas(front, i);
      assert front[i] == pieces[i];
    }
  }

  /** A usable theme name: non-empty, its own strip, no upper-case ASCII
      letter. */
  predicate ThemeName(s: string)
  {
    && s != [] && Strip(s) == s
    && forall k :: 0 <= k < |s| ==> !('A' <= s[k] <= 'Z')
  }

  /** Lower-casing a non-empty stripped string gives a theme name. */
  lemma LowerStripped(t: string)
    requires t != [] && !IsSpace(t[0]) && !IsSpace(t[|t| - 1])
    ensures ThemeName(Lower(t))
  {
    var l := Lower(t);
    LowerCharKeepsText(t[0]);
    LowerCharKeepsText(t[|t| - 1]);
    assert l[0] == LowerChar(t[0]) && l[|l| - 1] == LowerChar(t[|t| - 1]);
    StripStripped(l);
  }

  /** Lower-casing never turns a character into whitespace. */
  lemma LowerCharKeepsText(c: char)
    requires !IsSpace(c)
    ensures !IsSpace(LowerChar(c))
  {
    if 'A' <= c <= 'Z' {
      assert 'a' <= LowerChar(c) <= 'z';
    }
  }

  /** Every requested theme is a theme name. */
  lemma {:induction false} RequestedShape(pieces: seq<string>)
    ensures forall i :: 0 <= i < |Requested(pieces)| ==> ThemeName(Requested(pieces)[i])
  {
    if pieces != [] {
      var front := pieces[..|pieces| - 1];
      RequestedShape(front);
      var t := Strip(pieces[|pieces| - 1]);
      if t != "" {
        RequestedLast(pieces[|pieces| - 1]);
        ThemeNamesSnoc(Requested(front), Lower(t));
      }
    }
  }

  /** A non-blank piece, stripped and lower-cased, is a theme name. */
  lemma RequestedLast(piece: string)
    requires Strip(piece) != ""
    ensures ThemeName(Lower(Strip(piece)))
  {
    StripEnds(piece);
    LowerStripped(Strip(piece));
  }

  lemma ThemeNamesSnoc(names: seq<string>, name: string)
    requires forall i :: 0 <= i < |names| ==> ThemeName(names[i])
    requires ThemeName(name)
    ensures forall i :: 0 <= i < |names + [name]| ==> ThemeName((names + [name])[i])
  {
    forall i | 0 <= i < |names + [name]|
      ensures ThemeName((names + [name])[i])
    {
      if i < |names| {
        assert (names + [name])[i] == names[i];
      } else {
        assert (names + [name])[i] == name;
      }
    }
  }

  /** The requested themes the configuration knows, in requested order,
      repeats included. */
  function Known(ts: seq<string>, fm: FeedsMap): (ks: seq<string>)
    ensures SubsequenceOf(ks, ts)
    ensures forall t :: t in ks <==> t in ts && t in fm.urls
    ensures forall t :: multiset(ks)[t] == if t in fm.urls then multiset(ts)[t] else 0
  {
    var unknown := (t: string) => t !in fm.urls;
    KeepFacts(ts, unknown);
    Keep(ts, unknown)
  }

  /** The themes `main` runs: the known requested ones, or every configured
      theme, in file order, when `THEMES` is blank or names none of them. */
  function SelectThemes(setting: Option<string>, fm: FeedsMap): (themes: seq<string>)
    ensures Strip(setting.GetOr("")) == "" ==> themes == fm.themes
    ensures themes == fm.themes || forall t :: t in themes ==> t in fm.urls
    ensures var env := Strip(setting.GetOr(""));
      env != "" && Known(Requested(Split(env, ',')), fm) != [] ==>
        themes == Known(Requested(Split(env, ',')), fm)
    ensures var env := Strip(setting.GetOr(""));
      env != "" && Known(Requested(Split(env, ',')), fm) == [] ==> themes == fm.themes
  {
    var env := Strip(setting.GetOr(""));
    if env == "" then fm.themes
    else
      var known := Known(Requested(Split(env, ',')), fm);
      if known == [] then fm.themes else known
  }

  /** With a well-formed configuration every selected theme is configured. */
  lemma SelectedAreConfigured(setting: Option<string>, fm: FeedsMap)
    requires fm.Valid()
    ensures forall t :: t in SelectThemes(setting, fm) ==> t in fm.urls
  {
  }

  /** The records the whole run appends, theme after theme. */
  function PipelineRecords(themes: seq<string>, fm: FeedsMap, limit: int, web: Fetch.Web, provider: string,
                           openrouter: Summarizer.Provider): seq<Record>
  {
    if themes == [] then []
    else
      var t := themes[|themes| - 1];
      PipelineRecords(themes[..|themes| - 1], fm, limit, web, provider, openrouter)
        + ThemeRecords(t, ThemeUrls(t, Some(FeedsFor(fm, t)), fm, Some(limit)), web, provider, openrouter)
  }

  /** The sum of the per-theme counts. */
  function TotalCount(themes: seq<string>, fm: FeedsMap, limit: int, web: Fetch.Web, provider: string,
                      openrouter: Summarizer.Provider): nat
  {
    if themes == [] then 0
    else
      var t := themes[|themes| - 1];
      TotalCount(themes[..|themes| - 1], fm, limit, web, provider, openrouter)
        + |ThemeRecords(t, ThemeUrls(t, Some(FeedsFor(fm, t)), fm, Some(limit)), web, provider, openrouter)|
  }

  /** The reported total is the number of records the run appended. */
  lemma {:induction false} TotalIsAppended(themes: seq<string>, fm: FeedsMap, limit: int, web: Fetch.Web,
                                           provider: string, openrouter: Summarizer.Provider)
    ensures TotalCount(themes, fm, limit, web, provider, openrouter) == |PipelineRecords(themes, fm, limit, web, provider, openrouter)|
  {
    if themes != [] {
      TotalIsAppended(themes[..|themes| - 1], fm, limit, web, provider, openrouter);
    }
  }

  lemma PipelineStep(themes: seq<string>, i: nat, fm: FeedsMap, limit: int, web: Fetch.Web, provider: string,
                     openrouter: Summarizer.Provider)
    requires i < |themes|
    ensures var t := themes[i];
      var batch := ThemeRecords(t, ThemeUrls(t, Some(FeedsFor(fm, t)), fm, Some(limit)), web, provider, openrouter);
      && TotalCount(themes[..i + 1], fm, limit, web, provider, openrouter)
           == TotalCount(themes[..i], fm, limit, web, provider, openrouter) + |batch|
      && PipelineRecords(themes[..i + 1], fm, limit, web, provider, openrouter)
           == PipelineRecords(themes[..i], fm, limit, web, provider, openrouter) + batch
  {
    assert themes[..i + 1][..i] == themes[..i];
  }

  /** `main`: reads the configuration, stops when it is empty, and runs
      each selected theme with the feed limit, summing what they append. */
  method RunPipeline(store: ArticleStore, themesSetting: Option<string>, limit: int,
                     fileExists: bool, fromFile: Result<FeedsMap>, legacy: Result<FeedsMap>,
                     web: Fetch.Web, provider: string, openrouter: Summarizer.Provider)
    returns (total: nat)
    modifies store
    ensures var fm := ReadFeedsConfig(fileExists, fromFile, legacy);
      fm.urls == map[] ==> total == 0 && store.records == old(store.records) && store.present == old(store.present)
    ensures var fm := ReadFeedsConfig(fileExists, fromFile, legacy);
      var themes := SelectThemes(themesSetting, fm);
      fm.urls != map[] ==>
        && total == TotalCount(themes, fm, limit, web, provider, openrouter)
        && store.records == old(store.records) + PipelineRecords(themes, fm, limit, web, provider, openrouter)
        && store.present == (old(store.present) || total > 0)
  {
    var fm := ReadFeedsConfig(fileExists, fromFile, legacy);
    if fm.urls == map[] {
      return 0;
    }
    var themes := SelectThemes(themesSetting, fm);
    total := 0;
    for i := 0 to |themes|
      invariant total == TotalCount(themes[..i], fm, limit, web, provider, openrouter)
      invariant store.records == old(store.records) + PipelineRecords(themes[..i], fm, limit, web, provider, openrouter)
      invariant store.present == (old(store.present) || total > 0)
    {
      var theme := themes[i];
      var n := RunTheme(store, theme, Some(FeedsFor(fm, theme)), fm, Some(limit), web, provider, openrouter);
      PipelineStep(themes, i, fm, limit, web, provider, openrouter);
      AppendAssoc(old(store.records), PipelineRecords(themes[..i], fm, limit, web, provider, openrouter),
        ThemeRecords(theme, ThemeUrls(theme, Some(FeedsFor(fm, theme)), fm, Some(limit)), web, provider, openrouter));
      total := total + n;
    }
    assert themes[..|themes|] == themes;
  }
}
