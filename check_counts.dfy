/** The counting script: how many stored articles there are per theme. */
module CheckCounts {
  import opened Text
  import opened Values

  /** `json.loads`, as an oracle over one line. */
  type Parse = string -> JsonDoc

  /** The counter key of an object: its lower-cased theme, "unknown" when
      it has none. */
  function ThemeKey(o: Record): (key: string)
    ensures "theme" !in o ==> key == "unknown"
    ensures "theme" in o ==> key == Lower(Show(o["theme"]))
    ensures forall i :: 0 <= i < |key| ==> !('A' <= key[i] <= 'Z')
  {
    Lower(Show(GetOr(o, "theme", Str("unknown"))))
  }

  /** `counts[k] += 1` on a `Counter`. */
  function Bump(counts: map<string, nat>, k: string): (r: map<string, nat>)
    ensures r.Keys == counts.Keys + {k}
    ensures r[k] == (if k in counts then counts[k] else 0) + 1
    ensures forall j :: j in counts && j != k ==> r[j] == counts[j]
  {
    counts[k := (if k in counts then counts[k] else 0) + 1]
  }

  /** The counter and the row total after the given lines: blank lines,
      lines that are not JSON and values without `.get` are skipped. */
  function Tally(lines: seq<string>, parse: Parse): (map<string, nat>, nat)
  {
    if lines == [] then (map[], 0)
    else
      var (counts, n) := Tally(lines[..|lines| - 1], parse);
      var line := lines[|lines| - 1];
      if !IsBlank(line) && parse(line).Object? then (Bump(counts, ThemeKey(parse(line).fields)), n + 1)
      else (counts, n)
  }

  /** The sum of a counter's values. */
  ghost function Total(counts: map<string, nat>): nat
    decreases |counts|
  {
    if counts == map[] then 0
    else
      var k :| k in counts;
      counts[k] + Total(counts - {k})
  }

  /** Any key can be taken out first. */
  lemma {:induction false} TotalRemove(counts: map<string, nat>, k: string)
    requires k in counts
    ensures Total(counts) == counts[k] + Total(counts - {k})
    decreases |counts|
  {
    var j :| j in counts && Total(counts) == counts[j] + Total(counts - {j});
    if j != k {
      var rest := counts - {j};
      assert k in rest;
      TotalRemove(rest, k);
      TotalRemove(counts - {k}, j);
      assert rest - {k} == (counts - {k}) - {j};
    }
  }

  /** Bumping a key adds one to the total. */
  lemma TotalBump(counts: map<string, nat>, k: string)
    ensures Total(Bump(counts, k)) == Total(counts) + 1
  {
    var b := Bump(counts, k);
    TotalRemove(b, k);
    if k in counts {
      TotalRemove(counts, k);
      assert b - {k} == counts - {k};
    } else {
      assert b - {k} == counts;
    }
  }

  /** After the loop the row total is the sum of the per-theme counts, no
      larger than the number of non-blank lines, and every key is lower
      case. */
  lemma {:induction false} TallyTotals(lines: seq<string>, parse: Parse)
    ensures Tally(lines, parse).1 == Total(Tally(lines, parse).0)
    ensures Tally(lines, parse).1 <= NonBlankCount(lines)
    ensures forall k :: k in Tally(lines, parse).0 ==> forall i :: 0 <= i < |k| ==> !('A' <= k[i] <= 'Z')
  {
    if lines != [] {
      var front := lines[..|lines| - 1];
      TallyTotals(front, parse);
      var line := lines[|lines| - 1];
      if !IsBlank(line) && parse(line).Object? {
        TotalBump(Tally(front, parse).0, ThemeKey(parse(line).fields));
      }
    }
  }

  /** A blank line, or one that holds no object, changes nothing. */
  lemma SkippedLine(lines: seq<string>, line: string, parse: Parse)
    requires IsBlank(line) || !parse(line).Object?
    ensures Tally(lines + [line], parse) == Tally(lines, parse)
  {
    assert (lines + [line])[..|lines|] == lines;
  }

  /** An object line adds one to its theme's count and to the total, and to
      nothing else. */
  lemma CountedLine(lines: seq<string>, line: string, parse: Parse)
    requires !IsBlank(line) && parse(line).Object?
    ensures var (before, n) := Tally(lines, parse);
      var (after, m) := Tally(lines + [line], parse);
      var k := ThemeKey(parse(line).fields);
      && m == n + 1
      && after.Keys == before.Keys + {k}
      && after[k] == (if k in before then before[k] else 0) + 1
      && forall j :: j in before && j != k ==> after[j] == before[j]
  {
    assert (lines + [line])[..|lines|] == lines;
  }

  /** The script's counting loop. */
  method CountThemes(lines: seq<string>, parse: Parse) returns (counts: map<string, nat>, n: nat)
    ensures (counts, n) == Tally(lines, parse)
  {
    counts := map[];
    n := 0;
    for i := 0 to |lines|
      invariant (counts, n) == Tally(lines[..i], parse)
    {
      var line := lines[i];
      assert lines[..i + 1][..i] == lines[..i];
      if IsBlank(line) {
        continue;
      }
      match parse(line) {
        case Object(o) =>
          counts := Bump(counts, ThemeKey(o));
          n := n + 1;
        case Invalid(_) =>
        case NonObject(_) =>
      }
    }
    assert lines[..|lines|] == lines;
  }
}
