/** The dynamically typed values the pipeline passes around: Python's
    `None`, strings, the time tuples a feed parser produces, and every other
    value seen only through its truthiness and its `str()` rendering; records
    are dictionaries from field names to such values. */
module Values {
  import opened Text

  datatype Option<+T> = None | Some(value: T)
  {
    function GetOr(default: T): T
    {
      match this
      case Some(v) => v
      case None => default
    }
  }

  /** The outcome of Python code that either returns a value or raises. */
  datatype Result<+T> = Ok(value: T) | Raised(error: string)

  datatype Value =
    | Null
    | Str(s: string)
    | Stamp(fields: seq<int>, shown: string)   // a parsed time tuple
    | Other(truthy: bool, shown: string)       // a number, list, dictionary, ...

  /** A JSON object / feed entry: `dict` keyed by field name. */
  type Record = map<string, Value>

  /** Python's `bool(v)`. */
  predicate Truthy(v: Value)
  {
    match v
    case Null => false
    case Str(s) => s != ""
    case Stamp(fields, _) => fields != []
    case Other(t, _) => t
  }

  /** Python's `str(v)`. */
  function Show(v: Value): string
  {
    match v
    case Null => "None"
    case Str(s) => s
    case Stamp(_, shown) => shown
    case Other(_, shown) => shown
  }

  /** `r.get(k)`. */
  function Get(r: Record, k: string): Value
  {
    if k in r then r[k] else Null
  }

  /** `r.get(k, d)`. */
  function GetOr(r: Record, k: string, d: Value): Value
  {
    if k in r then r[k] else d
  }

  /** `a or b`. */
  function Or(a: Value, b: Value): (r: Value)
    ensures Truthy(a) ==> r == a
    ensures !Truthy(a) ==> r == b
    ensures Truthy(r) <==> Truthy(a) || Truthy(b)
  {
    if Truthy(a) then a else b
  }

  const StripError := "AttributeError: object has no attribute 'strip'"

  /** `(v or "").strip()` does not raise: `v` is falsy or a string. */
  predicate Strippable(v: Value)
  {
    !Truthy(v) || v.Str?
  }

  /** `(v or "").strip()`: a falsy value reads as "", a string is stripped,
      and any other truthy value has no `strip` and raises. */
  function StrippedOr(v: Value): (r: Result<string>)
    ensures r.Ok? <==> Strippable(v)
    ensures r.Ok? && v.Str? ==> r.value == Strip(v.s)
    ensures r.Ok? && !Truthy(v) ==> r.value == ""
    ensures r.Raised? ==> r.error == StripError
  {
    if !Truthy(v) then Ok("")
    else if v.Str? then Ok(Strip(v.s))
    else Raised(StripError)
  }

  /** `a` is `b` with some elements left out, the rest unchanged and in
      their order. */
  predicate SubsequenceOf<T(==)>(a: seq<T>, b: seq<T>)
    decreases |b|
  {
    if a == [] then true
    else if b == [] then false
    else
      || (a[|a| - 1] == b[|b| - 1] && SubsequenceOf(a[..|a| - 1], b[..|b| - 1]))
      || SubsequenceOf(a, b[..|b| - 1])
  }

  lemma AppendAssoc<T>(a: seq<T>, b: seq<T>, c: seq<T>)
    ensures (a + b) + c == a + (b + c)
  {
  }

  /** A suffix is what comes before `k`, the element at `k`, and the rest. */
  lemma SplitAt<T>(s: seq<T>, lo: nat, k: nat)
    requires lo <= k < |s|
    ensures s[lo..] == s[lo..k] + [s[k]] + s[k + 1..]
  {
  }

  /** Moving the head of `s` onto the end of `a` keeps `a + s`. */
  lemma SnocShift<T>(a: seq<T>, x: T, rest: seq<T>, s: seq<T>, all: seq<T>)
    requires s == [x] + rest && a + s == all
    ensures (a + [x]) + rest == all
  {
    AppendAssoc(a, [x], rest);
  }

  /** Filtering one more element: when `kept` selects, in order, exactly
      the elements of `objs` that `drop` rejects, appending `o` to `objs`
      and to `kept` unless `drop` holds of it keeps that so. */
  lemma DropStep<T>(prev: seq<T>, objs: seq<T>, o: T, kept: seq<T>, drop: T -> bool)
    requires SubsequenceOf(prev, objs)
    requires forall i :: 0 <= i < |prev| ==> !drop(prev[i])
    requires forall j :: 0 <= j < |objs| ==> (objs[j] in prev <==> !drop(objs[j]))
    requires kept == if drop(o) then prev else prev + [o]
    ensures SubsequenceOf(kept, objs + [o])
    ensures forall i :: 0 <= i < |kept| ==> !drop(kept[i])
    ensures forall j :: 0 <= j < |objs + [o]| ==> ((objs + [o])[j] in kept <==> !drop((objs + [o])[j]))
  {
    var all := objs + [o];
    assert all[..|all| - 1] == objs;
    if !drop(o) {
      assert kept[..|kept| - 1] == prev;
      forall i | 0 <= i < |kept|
        ensures !drop(kept[i])
      {
        if i < |prev| {
          assert kept[i] == prev[i];
        }
      }
    }
    forall j | 0 <= j < |all|
      ensures all[j] in kept <==> !drop(all[j])
    {
      if j < |objs| {
        assert all[j] == objs[j];
      }
      if all[j] in kept {
        var i :| 0 <= i < |kept| && kept[i] == all[j];
      }
    }
  }

  /** The elements of `xs` that `drop` rejects, in their order. */
  function Keep<T>(xs: seq<T>, drop: T -> bool): (r: seq<T>)
    ensures |r| <= |xs|
  {
    if xs == [] then []
    else
      var prev := Keep(xs[..|xs| - 1], drop);
      if drop(xs[|xs| - 1]) then prev else prev + [xs[|xs| - 1]]
  }

  /** Filtering selects, in order, exactly the elements `drop` rejects,
      each as many times as the input holds it. */
  lemma {:induction false} KeepFacts<T>(xs: seq<T>, drop: T -> bool)
    ensures SubsequenceOf(Keep(xs, drop), xs)
    ensures forall i :: 0 <= i < |Keep(xs, drop)| ==> !drop(Keep(xs, drop)[i])
    ensures forall j :: 0 <= j < |xs| ==> (xs[j] in Keep(xs, drop) <==> !drop(xs[j]))
    ensures forall x :: multiset(Keep(xs, drop))[x] == if drop(x) then 0 else multiset(xs)[x]
  {
    if xs != [] {
      var front := xs[..|xs| - 1];
      var o := xs[|xs| - 1];
      assert xs == front + [o];
      KeepFacts(front, drop);
      DropStep(Keep(front, drop), front, o, Keep(xs, drop), drop);
      assert multiset(xs) == multiset(front) + multiset{o};
    }
  }

  /** Whatever a subsequence holds, the whole sequence holds. */
  lemma {:induction false} SubsequenceMembers<T>(a: seq<T>, b: seq<T>)
    requires SubsequenceOf(a, b)
    ensures forall x :: x in a ==> x in b
    decreases |b|
  {
    if a != [] {
      var b' := b[..|b| - 1];
      if a[|a| - 1] == b[|b| - 1] && SubsequenceOf(a[..|a| - 1], b') {
        SubsequenceMembers(a[..|a| - 1], b');
        forall x | x in a
          ensures x in b
        {
          if x != a[|a| - 1] {
            var i :| 0 <= i < |a| && a[i] == x;
            assert a[..|a| - 1][i] == x;
            assert x in a[..|a| - 1];
            var k :| 0 <= k < |b'| && b'[k] == x;
            assert b[k] == x;
          }
        }
      } else {
        SubsequenceMembers(a, b');
        forall x | x in a
          ensures x in b
        {
          var k :| 0 <= k < |b'| && b'[k] == x;
          assert b[k] == x;
        }
      }
    }
  }

  /** One line of a JSON-lines file as `json.loads` sees it. */
  datatype JsonDoc =
    | Invalid(error: string)   // not JSON: `json.loads` raises
    | Object(fields: Record)   // a JSON object: a dict
    | NonObject(shown: string) // a list, string, number, true/false or null: no `.get`

  /** The number of lines with something other than whitespace. */
  function NonBlankCount(lines: seq<string>): (n: nat)
    ensures n <= |lines|
  {
    if lines == [] then 0
    else NonBlankCount(lines[..|lines| - 1]) + (if IsBlank(lines[|lines| - 1]) then 0 else 1)
  }
}
