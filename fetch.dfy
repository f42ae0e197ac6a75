/** The feed collector: parses each feed, filters its entries and turns the
    ones that carry a title, a link and enough text into article records. */
module Fetch {
  import opened Text
  import opened Values

  /** Entries looked at per feed. */
  const MaxEntries := 30
  /** Extracted full text must be longer than this, once stripped. */
  const MinFullText := 300
  /** A feed-provided summary/description must be at least this long. */
  const MinFallback := 120
  /** Stored titles are cut to this many characters. */
  const MaxTitle := 240

  /** What an HTTP GET gives back: an exception, or a status and decoded body. */
  datatype HttpReply = GetRaised | Reply(status: int, text: string)

  /** What the feed parser gives back for a URL or for raw feed text. */
  datatype Parsed = ParseRaised | Feed(bozo: bool, entries: seq<Record>)

  /** What the boilerplate-stripping extractor gives back for an HTML page. */
  datatype Extraction = ExtractRaised(error: string) | NoText | Extracted(s: string)

  /** The outside world the collector talks to. `extractor` is `None` when
      the extraction library is not installed; `toIso` builds the UTC
      ISO-8601 string for the first six fields of a time tuple, or `None`
      when those fields are not a valid date. */
  datatype Web = Web(
    get: string -> HttpReply,
    parse: string -> Parsed,
    extractor: Option<string -> Extraction>,
    toIso: seq<int> -> Option<string>)

  /** `_download`: the body of a successful, non-empty response, else `None`. */
  function Download(url: string, web: Web): (r: Option<string>)
    ensures r.Some? <==> web.get(url) != GetRaised && web.get(url).status == 200 && web.get(url).text != ""
    ensures r.Some? ==> r.value == web.get(url).text && r.value != ""
  {
    match web.get(url)
    case GetRaised => None
    case Reply(status, text) => if status == 200 && text != "" then Some(text) else None
  }

  /** `_extract_text`: the stripped extracted article text when it is longer
      than `MinFullText`, "" otherwise (no extractor, no page, no text); an
      exception inside the extractor is not caught here. */
  function ExtractText(url: string, web: Web): (r: Result<string>)
    ensures r.Ok? ==> r.value == "" || |r.value| > MinFullText
    ensures r.Raised? ==> web.extractor.Some? && Download(url, web).Some?
  {
    match web.extractor
    case None => Ok("")
    case Some(extract) =>
      match Download(url, web)
      case None => Ok("")
      case Some(html) =>
        match extract(html)
        case ExtractRaised(e) => Raised(e)
        case NoText => Ok("")
        case Extracted(txt) => Ok(KeepLong(txt))
  }

  /** The stripped extracted text when it is longer than `MinFullText`,
      "" otherwise. */
  function KeepLong(txt: string): (r: string)
    ensures r == "" || (|r| > MinFullText && Strip(r) == r)
    ensures r != "" ==> r == Strip(txt)
    ensures r == "" <==> |Strip(txt)| <= MinFullText
  {
    var t := Strip(txt);
    if |t| > MinFullText then
      StripIdempotent(txt);
      t
    else ""
  }

  /** Where `_extract_text`'s outcome comes from: no extractor or no page
      gives "", an extractor exception propagates, no extracted text gives
      "", and extracted text gives its stripped form when long enough. */
  lemma ExtractTextCases(url: string, web: Web)
    ensures web.extractor.None? ==> ExtractText(url, web) == Ok("")
    ensures Download(url, web).None? ==> ExtractText(url, web) == Ok("")
    ensures web.extractor.Some? && Download(url, web).Some? ==>
      match web.extractor.value(Download(url, web).value)
      case ExtractRaised(e) => ExtractText(url, web) == Raised(e)
      case NoText => ExtractText(url, web) == Ok("")
      case Extracted(txt) => ExtractText(url, web) == Ok(KeepLong(txt))
  {
  }

  /** A structured date under `key`: a truthy time tuple converted from its
      first six fields; any other value, or a failed conversion, gives `None`. */
  function StructuredDate(entry: Record, key: string, toIso: seq<int> -> Option<string>): Option<string>
  {
    var dt := Get(entry, key);
    if Truthy(dt) && dt.Stamp? then toIso(Prefix(dt.fields, 6)) else None
  }

  /** A raw date under `key`: any truthy value, as its `str()`. */
  function RawDate(entry: Record, key: string): Option<string>
  {
    var raw := Get(entry, key);
    if Truthy(raw) then Some(Show(raw)) else None
  }

  function FirstStructured(entry: Record, keys: seq<string>, toIso: seq<int> -> Option<string>): Option<string>
  {
    if keys == [] then None
    else match StructuredDate(entry, keys[0], toIso)
      case Some(d) => Some(d)
      case None => FirstStructured(entry, keys[1..], toIso)
  }

  function FirstRaw(entry: Record, keys: seq<string>): Option<string>
  {
    if keys == [] then None
    else match RawDate(entry, keys[0])
      case Some(d) => Some(d)
      case None => FirstRaw(entry, keys[1..])
  }

  /** `_coerce_date`: the first of the four date fields that yields a date,
      in the order published_parsed, updated_parsed, published, updated. */
  function CoerceDate(entry: Record, toIso: seq<int> -> Option<string>): (r: Option<string>)
    ensures StructuredDate(entry, "published_parsed", toIso).Some? ==>
      r == StructuredDate(entry, "published_parsed", toIso)
    ensures (StructuredDate(entry, "published_parsed", toIso).None?
             && StructuredDate(entry, "updated_parsed", toIso).Some?) ==>
      r == StructuredDate(entry, "updated_parsed", toIso)
    ensures (StructuredDate(entry, "published_parsed", toIso).None?
             && StructuredDate(entry, "updated_parsed", toIso).None?) ==>
      r == (if RawDate(entry, "published").Some? then RawDate(entry, "published") else RawDate(entry, "updated"))
    ensures r.None? <==>
      && StructuredDate(entry, "published_parsed", toIso).None?
      && StructuredDate(entry, "updated_parsed", toIso).None?
      && !Truthy(Get(entry, "published")) && !Truthy(Get(entry, "updated"))
  {
    var structured := ["published_parsed", "updated_parsed"];
    var raw := ["published", "updated"];
    assert structured[1..] == ["updated_parsed"] && raw[1..] == ["updated"];
    assert FirstStructured(entry, structured, toIso) ==
      (if StructuredDate(entry, "published_parsed", toIso).Some? then StructuredDate(entry, "published_parsed", toIso)
       else FirstStructured(entry, ["updated_parsed"], toIso));
    assert FirstStructured(entry, ["updated_parsed"], toIso) == StructuredDate(entry, "updated_parsed", toIso);
    assert FirstRaw(entry, raw) == (if RawDate(entry, "published").Some? then RawDate(entry, "published")
                                    else FirstRaw(entry, ["updated"]));
    assert FirstRaw(entry, ["updated"]) == RawDate(entry, "updated");
    match FirstStructured(entry, structured, toIso)
    case Some(d) => Some(d)
    case None => FirstRaw(entry, raw)
  }

  /** The record emitted for an accepted entry. */
  function ArticleRecord(theme: string, title: string, link: string, published: Option<string>, text: string): Record
  {
    map[
      "theme" := Str(theme),
      "title" := Str(Prefix(title, MaxTitle)),
      "url" := Str(link),
      "published" := (match published case Some(d) => Str(d) case None => Null),
      "cleaned_text" := Str(text)]
  }

  lemma ArticleRecordIsArticle(theme: string, title: string, link: string, published: Option<string>, text: string)
    requires title != "" && link != "" && text != ""
    ensures IsArticle(ArticleRecord(theme, title, link, published, text), theme)
  {
    var r := ArticleRecord(theme, title, link, published, text);
    assert r.Keys == {"theme", "title", "url", "published", "cleaned_text"};
  }

  lemma ArticleRecordFields(theme: string, title: string, link: string, published: Option<string>, text: string)
    ensures var r := ArticleRecord(theme, title, link, published, text);
      && r["theme"] == Str(theme) && r["title"] == Str(Prefix(title, MaxTitle)) && r["url"] == Str(link)
      && r["published"] == (match published case Some(d) => Str(d) case None => Null)
      && r["cleaned_text"] == Str(text)
  {
  }

  /** Everything an emitted record is promised to be. */
  predicate IsArticle(r: Record, theme: string)
  {
    && r.Keys == {"theme", "title", "url", "published", "cleaned_text"}
    && r["theme"] == Str(theme)
    && r["title"].Str? && r["title"].s != "" && |r["title"].s| <= MaxTitle
    && r["url"].Str? && r["url"].s != ""
    && (r["published"].Null? || r["published"].Str?)
    && r["cleaned_text"].Str? && r["cleaned_text"].s != ""
  }

  /** One pass of the loop body over a feed entry: `Raised` when it throws
      (which ends the feed), `Ok(None)` when the entry is skipped,
      `Ok(Some(record))` when a record is appended. */
  function ProcessEntry(entry: Record, theme: string, web: Web): (r: Result<Option<Record>>)
    ensures r.Ok? && r.value.Some? ==> IsArticle(r.value.value, theme)
  {
    match StrippedOr(Get(entry, "title"))
    case Raised(e) => Raised(e)
    case Ok(title) =>
      match StrippedOr(Get(entry, "link"))
      case Raised(e) => Raised(e)
      case Ok(link) =>
        if link == "" || title == "" then Ok(None)
        else
          var published := CoerceDate(entry, web.toIso);
          match ExtractText(link, web)
          case Raised(e) => Raised(e)
          case Ok(fulltext) =>
            if fulltext == "" then
              match Fallback(entry)
              case Raised(e) => Raised(e)
              case Ok(fallback) =>
                if |fallback| < MinFallback then Ok(None)
                else
                  ArticleRecordIsArticle(theme, title, link, published, fallback);
                  Ok(Some(ArticleRecord(theme, title, link, published, fallback)))
            else
              ArticleRecordIsArticle(theme, title, link, published, fulltext);
              Ok(Some(ArticleRecord(theme, title, link, published, fulltext)))
  }

  /** `(entry.get("summary") or entry.get("description") or "").strip()`. */
  function Fallback(entry: Record): Result<string>
  {
    StrippedOr(Or(Get(entry, "summary"), Get(entry, "description")))
  }

  predicate Emits(r: Result<Option<Record>>)
  {
    r.Ok? && r.value.Some?
  }

  /** An entry is emitted only with a non-empty stripped title and link,
      and one whose stripped title or link is empty is skipped. */
  lemma EntryGating(entry: Record, theme: string, web: Web)
    ensures Emits(ProcessEntry(entry, theme, web)) ==>
      && StrippedOr(Get(entry, "title")).Ok? && StrippedOr(Get(entry, "title")).value != ""
      && StrippedOr(Get(entry, "link")).Ok? && StrippedOr(Get(entry, "link")).value != ""
    ensures (&& Strippable(Get(entry, "title")) && Strippable(Get(entry, "link"))
             && (StrippedOr(Get(entry, "title")).value == "" || StrippedOr(Get(entry, "link")).value == ""))
      ==> ProcessEntry(entry, theme, web) == Ok(None)
  {
  }

  /** The emitted record carries the theme, the stripped link as `url`, the
      first `MaxTitle` characters of the stripped title and the coerced date. */
  lemma EntryFields(entry: Record, theme: string, web: Web)
    requires Emits(ProcessEntry(entry, theme, web))
    ensures
      var r := ProcessEntry(entry, theme, web).value.value;
      && r["theme"] == Str(theme)
      && r["url"] == Str(StrippedOr(Get(entry, "link")).value)
      && r["title"] == Str(Prefix(StrippedOr(Get(entry, "title")).value, MaxTitle))
      && r["published"] == (match CoerceDate(entry, web.toIso) case Some(d) => Str(d) case None => Null)
  {
    var title := StrippedOr(Get(entry, "title")).value;
    var link := StrippedOr(Get(entry, "link")).value;
    var published := CoerceDate(entry, web.toIso);
    var full := ExtractText(link, web);
    if full.value == "" {
      ArticleRecordFields(theme, title, link, published, Fallback(entry).value);
    } else {
      ArticleRecordFields(theme, title, link, published, full.value);
    }
  }

  /** An exception inside the extractor ends the entry. */
  lemma EntryExtractorRaises(entry: Record, theme: string, web: Web)
    requires StrippedOr(Get(entry, "title")).Ok? && StrippedOr(Get(entry, "title")).value != ""
    requires StrippedOr(Get(entry, "link")).Ok? && StrippedOr(Get(entry, "link")).value != ""
    requires ExtractText(StrippedOr(Get(entry, "link")).value, web).Raised?
    ensures ProcessEntry(entry, theme, web).Raised?
  {
  }

  /** Text selection, first choice: extracted full text becomes the
      record's `cleaned_text`. */
  lemma EntryFullText(entry: Record, theme: string, web: Web)
    requires StrippedOr(Get(entry, "title")).Ok? && StrippedOr(Get(entry, "title")).value != ""
    requires StrippedOr(Get(entry, "link")).Ok? && StrippedOr(Get(entry, "link")).value != ""
    requires ExtractText(StrippedOr(Get(entry, "link")).value, web).Ok?
    requires ExtractText(StrippedOr(Get(entry, "link")).value, web).value != ""
    ensures var r := ProcessEntry(entry, theme, web);
      Emits(r) && r.value.value["cleaned_text"] == Str(ExtractText(StrippedOr(Get(entry, "link")).value, web).value)
  {
    var title := StrippedOr(Get(entry, "title")).value;
    var link := StrippedOr(Get(entry, "link")).value;
    var full := ExtractText(link, web).value;
    var published := CoerceDate(entry, web.toIso);
    assert ProcessEntry(entry, theme, web) == Ok(Some(ArticleRecord(theme, title, link, published, full)));
    ArticleRecordFields(theme, title, link, published, full);
  }

  /** Text selection, second choice: without full text the stripped
      summary/description is used when it has at least `MinFallback`
      characters, the entry is skipped when it is shorter, and a
      summary/description that cannot be stripped ends the entry. */
  lemma EntryFallback(entry: Record, theme: string, web: Web)
    requires StrippedOr(Get(entry, "title")).Ok? && StrippedOr(Get(entry, "title")).value != ""
    requires StrippedOr(Get(entry, "link")).Ok? && StrippedOr(Get(entry, "link")).value != ""
    requires ExtractText(StrippedOr(Get(entry, "link")).value, web) == Ok("")
    ensures
      var r := ProcessEntry(entry, theme, web);
      && (Fallback(entry).Ok? && |Fallback(entry).value| >= MinFallback ==>
            Emits(r) && r.value.value["cleaned_text"] == Str(Fallback(entry).value))
      && (Fallback(entry).Ok? && |Fallback(entry).value| < MinFallback ==> r == Ok(None))
      && (Fallback(entry).Raised? ==> r.Raised?)
  {
    var title := StrippedOr(Get(entry, "title")).value;
    var link := StrippedOr(Get(entry, "link")).value;
    if Fallback(entry).Ok? {
      ArticleRecordFields(theme, title, link, CoerceDate(entry, web.toIso), Fallback(entry).value);
    }
  }

  /** The records one feed's entries yield, and whether an exception cut the
      feed short; entries after the one that raised are never looked at. */
  function FeedRun(entries: seq<Record>, theme: string, web: Web): (run: (seq<Record>, bool))
    ensures |run.0| <= |entries|
  {
    if entries == [] then ([], false)
    else
      var (items, aborted) := FeedRun(entries[..|entries| - 1], theme, web);
      if aborted then (items, true)
      else match ProcessEntry(entries[|entries| - 1], theme, web)
        case Raised(_) => (items, true)
        case Ok(None) => (items, false)
        case Ok(Some(record)) => (items + [record], false)
  }

  /** The feed as parsed, after the retry through a manual download when the
      parser flags the feed as malformed. */
  function ParseFeed(url: string, web: Web): Parsed
  {
    var fp := web.parse(url);
    if fp.Feed? && fp.bozo then
      match Download(url, web)
      case Some(raw) => web.parse(raw)
      case None => fp
    else fp
  }

  /** The records one feed contributes. */
  function FeedItems(url: string, theme: string, web: Web): seq<Record>
  {
    match ParseFeed(url, web)
    case ParseRaised => []
    case Feed(_, entries) => FeedRun(Prefix(entries, MaxEntries), theme, web).0
  }

  /** The records `f` gives for each of `xs`, concatenated in order. */
  function ConcatMap(xs: seq<string>, f: string -> seq<Record>): seq<Record>
  {
    if xs == [] then []
    else ConcatMap(xs[..|xs| - 1], f) + f(xs[|xs| - 1])
  }

  lemma {:induction false} ConcatMapAppend(a: seq<string>, b: seq<string>, f: string -> seq<Record>)
    ensures ConcatMap(a + b, f) == ConcatMap(a, f) + ConcatMap(b, f)
    decreases |b|
  {
    if b == [] {
      assert a + b == a;
    } else {
      assert (a + b)[..|a + b| - 1] == a + b[..|b| - 1];
      ConcatMapAppend(a, b[..|b| - 1], f);
    }
  }

  /** `collect_from_feeds` as a function: each feed's records, in feed order. */
  function Collected(urls: seq<string>, theme: string, web: Web): seq<Record>
  {
    ConcatMap(urls, url => FeedItems(url, theme, web))
  }

  /** Every record a feed yields is a well-formed article of the theme. */
  lemma {:induction false} FeedRunArticles(entries: seq<Record>, theme: string, web: Web)
    ensures forall i :: 0 <= i < |FeedRun(entries, theme, web).0| ==> IsArticle(FeedRun(entries, theme, web).0[i], theme)
  {
    if entries != [] {
      FeedRunArticles(entries[..|entries| - 1], theme, web);
    }
  }

  /** Once an entry has raised, the rest of the feed adds nothing. */
  lemma {:induction false} FeedRunStops(entries: seq<Record>, k: nat, theme: string, web: Web)
    requires k <= |entries| && FeedRun(entries[..k], theme, web).1
    ensures FeedRun(entries, theme, web) == FeedRun(entries[..k], theme, web)
    decreases |entries|
  {
    if k < |entries| {
      assert entries[..|entries| - 1][..k] == entries[..k];
      FeedRunStops(entries[..|entries| - 1], k, theme, web);
    } else {
      assert entries[..k] == entries;
    }
  }

  /** The inner loop of `collect_from_feeds` over one feed's entries:
      appends each accepted entry's record and stops at the first entry
      that raises. */
  method CollectEntries(entries: seq<Record>, theme: string, web: Web) returns (items: seq<Record>)
    ensures items == FeedRun(entries, theme, web).0
  {
    items := [];
    var j := 0;
    while j < |entries|
      invariant j <= |entries|
      invariant !FeedRun(entries[..j], theme, web).1
      invariant items == FeedRun(entries[..j], theme, web).0
    {
      assert entries[..j + 1][..j] == entries[..j];
      var outcome := ProcessEntry(entries[j], theme, web);
      if outcome.Raised? {
        FeedRunStops(entries, j + 1, theme, web);
        return;
      }
      if outcome.value.Some? {
        items := items + [outcome.value.value];
      }
      j := j + 1;
    }
    assert entries[..j] == entries;
  }

  /** `collect_from_feeds`: the outer loop over the feeds; an exception
      abandons the rest of that feed only. */
  method CollectFromFeeds(urls: seq<string>, theme: string, web: Web) returns (items: seq<Record>)
    ensures items == Collected(urls, theme, web)
  {
    items := [];
    for i := 0 to |urls|
      invariant items == Collected(urls[..i], theme, web)
    {
      var url := urls[i];
      var fp := web.parse(url);
      if fp.Feed? && fp.bozo {
        var raw := Download(url, web);
        if raw.Some? {
          fp := web.parse(raw.value);
        }
      }
      assert fp == ParseFeed(url, web);
      var feedItems := [];
      if fp.Feed? {
        feedItems := CollectEntries(Prefix(fp.entries, MaxEntries), theme, web);
      }
      assert feedItems == FeedItems(url, theme, web);
      items := items + feedItems;
      assert urls[..i + 1][..i] == urls[..i];
    }
    assert urls[..|urls|] == urls;
  }

  /** Every collected record is a well-formed article of the given theme. */
  lemma {:induction false} CollectedAreArticles(urls: seq<string>, theme: string, web: Web)
    ensures forall i :: 0 <= i < |Collected(urls, theme, web)| ==> IsArticle(Collected(urls, theme, web)[i], theme)
  {
    if urls != [] {
      CollectedAreArticles(urls[..|urls| - 1], theme, web);
      assert Collected(urls, theme, web) == Collected(urls[..|urls| - 1], theme, web) + FeedItems(urls[|urls| - 1], theme, web);
      match ParseFeed(urls[|urls| - 1], web)
      case ParseRaised =>
      case Feed(_, entries) => FeedRunArticles(Prefix(entries, MaxEntries), theme, web);
    }
  }

  /** No feed contributes more than `MaxEntries` records. */
  lemma {:induction false} CollectedBound(urls: seq<string>, theme: string, web: Web)
    ensures |Collected(urls, theme, web)| <= MaxEntries * |urls|
  {
    if urls != [] {
      CollectedBound(urls[..|urls| - 1], theme, web);
      assert Collected(urls, theme, web) == Collected(urls[..|urls| - 1], theme, web) + FeedItems(urls[|urls| - 1], theme, web);
    }
  }

  /** Feeds are independent: collecting two lists of feeds one after the
      other gives the same records as collecting them together. */
  lemma CollectedAppend(a: seq<string>, b: seq<string>, theme: string, web: Web)
    ensures Collected(a + b, theme, web) == Collected(a, theme, web) + Collected(b, theme, web)
  {
    ConcatMapAppend(a, b, url => FeedItems(url, theme, web));
  }

  /** A feed that raises at entry `k` keeps what its earlier entries gave. */
  lemma FeedStopsAtRaise(entries: seq<Record>, k: nat, theme: string, web: Web)
    requires k < |entries| && ProcessEntry(entries[k], theme, web).Raised?
    requires !FeedRun(entries[..k], theme, web).1
    ensures FeedRun(entries, theme, web).0 == FeedRun(entries[..k], theme, web).0
  {
    assert entries[..k + 1][..k] == entries[..k];
    FeedRunStops(entries, k + 1, theme, web);
  }
}
