/** The clean-up script: copies the stored articles into a separate file,
    leaving out those whose summary records a summariser or client error. */
module CleanArticles {
  import opened Text
  import opened Values

  const SummarizerErrorMark := "summarizer_error"
  const ClientErrorMark := "client error"

  /** `json.loads`, as an oracle over one line. */
  type Parse = string -> JsonDoc

  /** `str(obj.get("summary", "")).lower()`. */
  function SummaryShown(o: Record): string
  {
    Lower(Show(GetOr(o, "summary", Str(""))))
  }

  /** A record is dropped when its lower-cased summary mentions either
      error mark. */
  predicate Dropped(o: Record)
  {
    Contains(SummaryShown(o), SummarizerErrorMark) || Contains(SummaryShown(o), ClientErrorMark)
  }

  /** A record without a summary reads as "" and is kept. */
  lemma MissingSummaryKept(o: Record)
    requires "summary" !in o
    ensures !Dropped(o)
  {
    assert SummaryShown(o) == "";
  }

  /** An upper-case mark is found as well: the summary is lower-cased
      before the search. */
  lemma UpperCaseMarkDropped()
    ensures Dropped(map["summary" := Str("400 Client Error")])
  {
    var o := map["summary" := Str("400 Client Error")];
    LowerShowsMark();
    assert SummaryShown(o) == Lower("400 Client Error");
    assert OccursAt(SummaryShown(o), ClientErrorMark, 4);
  }

  /** "400 Client Error", lower-cased, holds the client error mark from
      index 4 on. */
  lemma LowerShowsMark()
    ensures |Lower("400 Client Error")| == 16
    ensures Lower("400 Client Error")[4..] == ClientErrorMark
  {
    var shown := Lower("400 Client Error");
    forall i | 4 <= i < 16
      ensures shown[i] == ClientErrorMark[i - 4]
    {
      assert shown[i] == LowerChar("400 Client Error"[i]);
    }
  }

  /** The objects on the non-blank lines, in order, skipping lines that do
      not hold one. */
  function Objects(lines: seq<string>, parse: Parse): (os: seq<Record>)
    ensures |os| <= NonBlankCount(lines)
  {
    if lines == [] then []
    else
      var prev := Objects(lines[..|lines| - 1], parse);
      var line := lines[|lines| - 1];
      if !IsBlank(line) && parse(line).Object? then prev + [parse(line).fields] else prev
  }

  /** What the script keeps, or the error that stops it: a non-blank line
      that is not JSON, or whose value has no `.get`, ends the script. */
  function Cleaned(lines: seq<string>, parse: Parse): Result<seq<Record>>
  {
    if lines == [] then Ok([])
    else
      match Cleaned(lines[..|lines| - 1], parse)
      case Raised(e) => Raised(e)
      case Ok(prev) =>
        var line := lines[|lines| - 1];
        if IsBlank(line) then Ok(prev)
        else
          match parse(line)
          case Invalid(e) => Raised(e)
          case NonObject(_) => Raised("AttributeError: object has no attribute 'get'")
          case Object(o) => if Dropped(o) then Ok(prev) else Ok(prev + [o])
  }

  /** The script stops exactly when some non-blank line holds no object. */
  lemma {:induction false} CleanedRaises(lines: seq<string>, parse: Parse)
    ensures Cleaned(lines, parse).Raised? <==>
      exists i :: 0 <= i < |lines| && !IsBlank(lines[i]) && !parse(lines[i]).Object?
  {
    if lines != [] {
      var front := lines[..|lines| - 1];
      CleanedRaises(front, parse);
      if exists i :: 0 <= i < |front| && !IsBlank(front[i]) && !parse(front[i]).Object? {
        var i :| 0 <= i < |front| && !IsBlank(front[i]) && !parse(front[i]).Object?;
        assert lines[i] == front[i];
      }
      if exists i :: 0 <= i < |lines| && !IsBlank(lines[i]) && !parse(lines[i]).Object? {
        var i :| 0 <= i < |lines| && !IsBlank(lines[i]) && !parse(lines[i]).Object?;
        if i < |front| {
          assert front[i] == lines[i];
        }
      }
    }
  }

  /** A script that runs to the end keeps exactly the parsed objects that
      are not dropped. */
  lemma {:induction false} CleanedIsKeep(lines: seq<string>, parse: Parse)
    requires Cleaned(lines, parse).Ok?
    ensures Cleaned(lines, parse).value == Keep(Objects(lines, parse), Dropped)
  {
    if lines != [] {
      var front := lines[..|lines| - 1];
      var line := lines[|lines| - 1];
      CleanedIsKeep(front, parse);
      if !IsBlank(line) && parse(line).Object? {
        var os := Objects(lines, parse);
        assert os[..|os| - 1] == Objects(front, parse);
      }
    }
  }

  /** The kept records are the parsed objects, unchanged and in order; an
      object is kept if and only if it is not dropped; and no more records
      are kept than there are non-blank lines. */
  lemma CleanedKeeps(lines: seq<string>, parse: Parse)
    requires Cleaned(lines, parse).Ok?
    ensures var kept := Cleaned(lines, parse).value;
      && kept == Keep(Objects(lines, parse), Dropped)
      && SubsequenceOf(kept, Objects(lines, parse))
      && (forall i :: 0 <= i < |kept| ==> !Dropped(kept[i]))
      && (forall j :: 0 <= j < |Objects(lines, parse)| ==>
            (Objects(lines, parse)[j] in kept <==> !Dropped(Objects(lines, parse)[j])))
      && |kept| <= NonBlankCount(lines)
  {
    CleanedIsKeep(lines, parse);
    KeepFacts(Objects(lines, parse), Dropped);
  }

  /** A record that is not dropped is kept as many times as the file holds
      it; a dropped one not at all. */
  lemma CleanedCounts(lines: seq<string>, parse: Parse)
    requires Cleaned(lines, parse).Ok?
    ensures forall o ::
      multiset(Cleaned(lines, parse).value)[o] == (if Dropped(o) then 0 else multiset(Objects(lines, parse))[o])
  {
    CleanedIsKeep(lines, parse);
    KeepFacts(Objects(lines, parse), Dropped);
  }

  /** The data directory: the stored articles, as the lines of their file
      (absent when the file does not exist), and the cleaned copy. */
  class DataFiles {
    var articles: Option<seq<string>>
    var cleaned: Option<seq<Record>>

    constructor (articles: Option<seq<string>>, cleaned: Option<seq<Record>>)
      ensures this.articles == articles && this.cleaned == cleaned
    {
      this.articles := articles;
      this.cleaned := cleaned;
    }

    /** The script: reads the articles, filters them, then replaces the
        cleaned copy with what it kept and reports how many. The articles
        file is only read; a failure leaves the cleaned copy as it was. */
    method Clean(parse: Parse) returns (kept: Result<nat>)
      modifies this
      ensures articles == old(articles)
      ensures old(articles).None? ==> kept.Raised? && cleaned == old(cleaned)
      ensures old(articles).Some? && Cleaned(old(articles).value, parse).Raised? ==>
        kept.Raised? && cleaned == old(cleaned)
      ensures old(articles).Some? && Cleaned(old(articles).value, parse).Ok? ==>
        && cleaned == Some(Cleaned(old(articles).value, parse).value)
        && kept == Ok(|Cleaned(old(articles).value, parse).value|)
    {
      if articles.None? {
        return Raised("FileNotFoundError");
      }
      var lines := articles.value;
      var out: seq<Record> := [];
      for i := 0 to |lines|
        invariant Cleaned(lines[..i], parse) == Ok(out)
      {
        var line := lines[i];
        assert lines[..i + 1][..i] == lines[..i];
        if IsBlank(line) {
          continue;
        }
        match parse(line) {
          case Invalid(e) =>
            CleanedStaysRaised(lines, i + 1, parse);
            return Raised(e);
          case NonObject(_) =>
            CleanedStaysRaised(lines, i + 1, parse);
            return Raised("AttributeError: object has no attribute 'get'");
          case Object(o) =>
            if !Dropped(o) {
              out := out + [o];
            }
        }
      }
      assert lines[..|lines|] == lines;
      cleaned := Some(out);
      return Ok(|out|);
    }
  }

  /** Once a prefix has stopped the script, the whole file does. */
  lemma {:induction false} CleanedStaysRaised(lines: seq<string>, k: nat, parse: Parse)
    requires k <= |lines| && Cleaned(lines[..k], parse).Raised?
    ensures Cleaned(lines, parse).Raised?
    decreases |lines| - k
  {
    if k < |lines| {
      assert lines[..k + 1][..k] == lines[..k];
      CleanedStaysRaised(lines, k + 1, parse);
    } else {
      assert lines[..k] == lines;
    }
  }
}
