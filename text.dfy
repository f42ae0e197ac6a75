/** Python string primitives the pipeline relies on, stated over `seq<char>`
    (one `char` per Unicode code point, as Python's `str` counts them). */
module Text {

  /** The characters for which Python's `str.isspace()` holds. */
  predicate IsSpace(c: char)
  {
    || ('\t' <= c <= '\r')                   // tab, line feed, vertical tab, form feed, carriage return
    || ('\U{1C}' <= c <= '\U{1F}')            // file, group, record and unit separators
    || c == ' ' || c == '\U{85}' || c == '\U{A0}' || c == '\U{1680}'
    || ('\U{2000}' <= c <= '\U{200A}')        // the typographic spaces
    || c == '\U{2028}' || c == '\U{2029}' || c == '\U{202F}' || c == '\U{205F}' || c == '\U{3000}'
  }

  predicate IsBlank(s: string)
  {
    forall i :: 0 <= i < |s| ==> IsSpace(s[i])
  }

  /** The first index at or after `i` that does not hold whitespace, or
      `|s|` when there is none. */
  function LeftEdge(s: string, i: nat): (k: nat)
    requires i <= |s|
    ensures i <= k <= |s|
    decreases |s| - i
  {
    if i < |s| && IsSpace(s[i]) then LeftEdge(s, i + 1) else i
  }

  /** Everything `LeftEdge` skips is whitespace, and it stops at a
      character that is not. */
  lemma {:induction false} LeftEdgeFacts(s: string, i: nat)
    requires i <= |s|
    ensures forall k :: i <= k < LeftEdge(s, i) ==> IsSpace(s[k])
    ensures LeftEdge(s, i) < |s| ==> !IsSpace(s[LeftEdge(s, i)])
    decreases |s| - i
  {
    if i < |s| && IsSpace(s[i]) {
      LeftEdgeFacts(s, i + 1);
    }
  }

  /** One past the last index before `j`, and not before `lo`, that does
      not hold whitespace, or `lo` when there is none. */
  function RightEdge(s: string, lo: nat, j: nat): (k: nat)
    requires lo <= j <= |s|
    ensures lo <= k <= j
  {
    if j > lo && IsSpace(s[j - 1]) then RightEdge(s, lo, j - 1) else j
  }

  /** Everything `RightEdge` skips is whitespace, and it stops after a
      character that is not. */
  lemma {:induction false} RightEdgeFacts(s: string, lo: nat, j: nat)
    requires lo <= j <= |s|
    ensures forall k :: RightEdge(s, lo, j) <= k < j ==> IsSpace(s[k])
    ensures RightEdge(s, lo, j) > lo ==> !IsSpace(s[RightEdge(s, lo, j) - 1])
  {
    if j > lo && IsSpace(s[j - 1]) {
      RightEdgeFacts(s, lo, j - 1);
    }
  }

  /** `s.strip()`: `s` without its leading and trailing whitespace. */
  function Strip(s: string): (r: string)
    ensures |r| <= |s|
  {
    var lo := LeftEdge(s, 0);
    s[lo..RightEdge(s, lo, |s|)]
  }

  /** The strip of `s` is empty exactly when `s` is all whitespace. */
  lemma StripBlank(s: string)
    ensures Strip(s) == [] <==> IsBlank(s)
  {
    var lo := LeftEdge(s, 0);
    var hi := RightEdge(s, lo, |s|);
    LeftEdgeFacts(s, 0);
    RightEdgeFacts(s, lo, |s|);
    if Strip(s) == [] {
      assert hi == lo;
      assert forall k :: 0 <= k < |s| ==> IsSpace(s[k]);
    } else {
      assert lo < |s| && !IsSpace(s[lo]);
    }
  }

  /** A non-empty strip begins and ends with a non-whitespace character. */
  lemma StripEnds(s: string)
    ensures Strip(s) == [] || (!IsSpace(Strip(s)[0]) && !IsSpace(Strip(s)[|Strip(s)| - 1]))
  {
    var lo := LeftEdge(s, 0);
    var hi := RightEdge(s, lo, |s|);
    LeftEdgeFacts(s, 0);
    RightEdgeFacts(s, lo, |s|);
    if Strip(s) != [] {
      assert Strip(s)[0] == s[lo] && Strip(s)[|Strip(s)| - 1] == s[hi - 1];
    }
  }

  /** A string with no leading or trailing whitespace is its own strip. */
  lemma StripStripped(s: string)
    requires s == [] || (!IsSpace(s[0]) && !IsSpace(s[|s| - 1]))
    ensures Strip(s) == s
  {
    assert LeftEdge(s, 0) == 0;
    assert RightEdge(s, 0, |s|) == |s|;
    assert s[0..|s|] == s;
  }

  /** Stripping twice is stripping once. */
  lemma StripIdempotent(s: string)
    ensures Strip(Strip(s)) == Strip(s)
  {
    StripEnds(s);
    StripStripped(Strip(s));
  }

  /** Python's `c.lower()` for ASCII letters; every other character is kept. */
  function LowerChar(c: char): char
  {
    if 'A' <= c <= 'Z' then (c as int - 'A' as int + 'a' as int) as char else c
  }

  /** `s.lower()`, restricted to the ASCII letters. */
  function Lower(s: string): (r: string)
    ensures |r| == |s|
    ensures forall i :: 0 <= i < |s| ==> r[i] == LowerChar(s[i])
    ensures forall i :: 0 <= i < |r| ==> !('A' <= r[i] <= 'Z')
  {
    seq(|s|, i requires 0 <= i < |s| => LowerChar(s[i]))
  }

  /** `sub` occurs in `s` starting at index `i`. */
  predicate OccursAt(s: string, sub: string, i: int)
  {
    0 <= i <= |s| - |sub| && s[i..i + |sub|] == sub
  }

  /** `sub in s`: `sub` occurs somewhere in `s` as a contiguous run. */
  function Contains(s: string, sub: string): (r: bool)
    ensures r <==> exists i :: OccursAt(s, sub, i)
  {
    if |s| < |sub| then false
    else if s[..|sub|] == sub then
      assert OccursAt(s, sub, 0);
      true
    else
      var r := Contains(s[1..], sub);
      ContainsShift(s, sub);
      r
  }

  lemma ContainsShift(s: string, sub: string)
    requires |s| >= |sub| && s[..|sub|] != sub
    ensures (exists i :: OccursAt(s, sub, i)) <==> (exists i :: OccursAt(s[1..], sub, i))
  {
    if exists i :: OccursAt(s, sub, i) {
      var i :| OccursAt(s, sub, i);
      assert i >= 1;
      assert s[1..][i - 1..i - 1 + |sub|] == s[i..i + |sub|];
      assert OccursAt(s[1..], sub, i - 1);
    }
    if exists i :: OccursAt(s[1..], sub, i) {
      var i :| OccursAt(s[1..], sub, i);
      assert s[1..][i..i + |sub|] == s[i + 1..i + 1 + |sub|];
      assert OccursAt(s, sub, i + 1);
    }
  }

  /** `s[:n]` for any integer `n`, including Python's negative bounds
      (`n < 0` drops the last `-n` elements). */
  function Prefix<T>(s: seq<T>, n: int): (r: seq<T>)
    ensures |r| <= |s| && r == s[..|r|]
    ensures n >= 0 ==> |r| == if n < |s| then n else |s|
    ensures n < 0 ==> |r| == if |s| + n > 0 then |s| + n else 0
  {
    if n >= 0 then (if n < |s| then s[..n] else s)
    else if |s| + n > 0 then s[..|s| + n] else []
  }

  /** `sep.join(pieces)`. */
  function Join(pieces: seq<string>, sep: string): string
  {
    if pieces == [] then ""
    else if |pieces| == 1 then pieces[0]
    else pieces[0] + sep + Join(pieces[1..], sep)
  }

  /** `s.split(c)` for a one-character separator: the pieces between the
      occurrences of `c`; gluing them back with `c` gives `s` again. */
  function Split(s: string, c: char): (r: seq<string>)
    ensures |r| >= 1
    ensures forall i :: 0 <= i < |r| ==> c !in r[i]
    ensures Join(r, [c]) == s
  {
    if s == [] then [""]
    else
      var rest := Split(s[1..], c);
      if s[0] == c then
        assert s == [c] + s[1..];
        [""] + rest
      else
        var r := [[s[0]] + rest[0]] + rest[1..];
        assert r[1..] == rest[1..];
        assert s == [s[0]] + s[1..];
        r
  }

  /** `s.rfind(c, lo, hi)`: the last index in `[lo, hi)` holding `c`, or -1. */
  function RFind(s: string, c: char, lo: nat, hi: nat): (r: int)
    requires hi <= |s|
    ensures r == -1 || (lo <= r < hi && s[r] == c)
    ensures forall k :: lo <= k < hi && k > r ==> s[k] != c
    decreases hi
  {
    if hi <= lo then -1
    else if s[hi - 1] == c then hi - 1
    else RFind(s, c, lo, hi - 1)
  }
}
