/** The alternative summarisation provider: a sentence-boundary text
    chunker, one summarisation request with retries on transient statuses,
    and a two-level map-reduce over the chunks. */
module HfAdapter {
  import opened Text
  import opened Values

  const MaxChunkChars := 2500
  const MaxChunks := 6
  const PartialTokens := 120
  const FinalTokens := 140
  const DefaultRetries := 3
  const BusyMessage := "(summary unavailable: HF endpoint busy)"

  // ---------------------------------------------------------------------
  // The chunker

  /** One window of the chunker's loop: it starts at `from` and is cut at
      `cut`; the chunk is `t[from..cut]`, stripped, and `t[cut]` is skipped. */
  datatype Piece = Piece(from: nat, cut: nat)

  /** `min(start + m, len(t))`. */
  function WindowEnd(t: string, m: nat, start: nat): nat
  {
    if start + m < |t| then start + m else |t|
  }

  /** Where the window at `start` is cut: its last '.', or its end when it
      holds no '.'. */
  function CutOf(t: string, m: nat, start: nat): (cut: nat)
    requires start <= |t|
    ensures start <= cut <= WindowEnd(t, m, start)
    ensures cut < WindowEnd(t, m, start) ==> t[cut] == '.'
  {
    var found := RFind(t, '.', start, WindowEnd(t, m, start));
    if found == -1 then WindowEnd(t, m, start) else found
  }

  /** The cut is at the window's last period, or at its end when the window
      holds none. */
  lemma CutOfLastPeriod(t: string, m: nat, start: nat)
    requires start <= |t|
    ensures forall k :: CutOf(t, m, start) < k < WindowEnd(t, m, start) ==> t[k] != '.'
    ensures CutOf(t, m, start) == WindowEnd(t, m, start) ==>
      forall k :: start <= k < WindowEnd(t, m, start) ==> t[k] != '.'
  {
  }

  /** Where the loop goes on after the window at `start`: one past the
      cut, so the character at the cut is never part of a chunk. */
  function NextStart(t: string, m: nat, start: nat): nat
    requires start <= |t|
  {
    CutOf(t, m, start) + 1
  }

  /** The windows `_chunk`'s loop goes through from `start` on. */
  function Pieces(t: string, m: nat, start: nat): seq<Piece>
    decreases |t| - start
  {
    if start >= |t| then []
    else [Piece(start, CutOf(t, m, start))] + Pieces(t, m, NextStart(t, m, start))
  }

  predicate ValidPieces(t: string, ps: seq<Piece>)
  {
    forall i :: 0 <= i < |ps| ==> ps[i].from <= ps[i].cut <= |t|
  }

  /** The chunks `_chunk`'s loop appends from `start` on: each window,
      stripped. */
  function ChunksFrom(t: string, m: nat, start: nat): seq<string>
    decreases |t| - start
  {
    if start >= |t| then []
    else [Strip(t[start..CutOf(t, m, start)])] + ChunksFrom(t, m, NextStart(t, m, start))
  }

  /** `_chunk(text, m)` as a function. */
  function Chunks(text: string, m: nat): seq<string>
  {
    var t := Strip(text);
    if |t| <= m then [t] else ChunksFrom(t, m, 0)
  }

  /** Each window lies inside the text. */
  lemma {:induction false} PiecesValid(t: string, m: nat, start: nat)
    ensures ValidPieces(t, Pieces(t, m, start))
    decreases |t| - start
  {
    if start < |t| {
      PiecesValid(t, m, NextStart(t, m, start));
    }
  }

  /** Each window starts inside the text, no earlier than `start`, and is
      cut where `CutOf` says. */
  lemma {:induction false} PiecesCuts(t: string, m: nat, start: nat)
    ensures forall i :: 0 <= i < |Pieces(t, m, start)| ==>
      var p := Pieces(t, m, start)[i];
      start <= p.from < |t| && p.cut == CutOf(t, m, p.from)
    decreases |t| - start
  {
    if start < |t| {
      PiecesCuts(t, m, NextStart(t, m, start));
    }
  }

  /** The windows tile the text: the first starts at `start`, each next one
      just after the previous cut, and the last cut reaches the end. */
  lemma {:induction false} PiecesTile(t: string, m: nat, start: nat)
    ensures Pieces(t, m, start) == [] <==> start >= |t|
    ensures var ps := Pieces(t, m, start);
      ps != [] ==> ps[0].from == start && ps[|ps| - 1].cut + 1 >= |t|
    ensures var ps := Pieces(t, m, start);
      forall i :: 0 <= i < |ps| - 1 ==> ps[i + 1].from == ps[i].cut + 1
    decreases |t| - start
  {
    if start < |t| {
      var next := NextStart(t, m, start);
      PiecesTile(t, m, next);
      var ps := Pieces(t, m, start);
      assert ps[1..] == Pieces(t, m, next);
      if next < |t| {
        assert ps[1].from == next;
      }
    }
  }

  /** `_chunk`: strips the text, returns it whole when it fits, and
      otherwise walks windows of `maxChars` characters, cutting each at its
      last period. */
  method Chunk(text: string, maxChars: int) returns (chunks: seq<string>)
    requires maxChars >= 0
    ensures chunks == Chunks(text, maxChars)
    ensures |Strip(text)| <= maxChars ==> chunks == [Strip(text)]
  {
    var t := Strip(text);
    if |t| <= maxChars {
      return [t];
    }
    chunks := Walk(t, maxChars);
  }

  /** `_chunk`'s loop over the windows of the stripped text. */
  method Walk(t: string, m: nat) returns (chunks: seq<string>)
    ensures chunks == ChunksFrom(t, m, 0)
  {
    chunks := [];
    var start := 0;
    while start < |t|
      invariant WalkFrom(t, m, start, chunks) == WalkFrom(t, m, 0, [])
      decreases |t| - start
    {
      var cut := CutOf(t, m, start);
      chunks := chunks + [Strip(t[start..cut])];
      start := NextStart(t, m, start);
    }
    WalkFromChunks(t, m, 0, []);
    assert [] + ChunksFrom(t, m, 0) == ChunksFrom(t, m, 0);
  }

  /** The loop's state after each window: the chunks so far, `acc`, and
      the next window's start; at the end, the chunks produced. */
  function WalkFrom(t: string, m: nat, start: nat, acc: seq<string>): seq<string>
    decreases |t| - start
  {
    if start >= |t| then acc
    else WalkFrom(t, m, NextStart(t, m, start), acc + [Strip(t[start..CutOf(t, m, start)])])
  }

  /** The loop appends to what it has produced exactly the chunks from its
      current position on. */
  lemma {:induction false} WalkFromChunks(t: string, m: nat, start: nat, acc: seq<string>)
    ensures WalkFrom(t, m, start, acc) == acc + ChunksFrom(t, m, start)
    decreases |t| - start
  {
    if start < |t| {
      var next := NextStart(t, m, start);
      var c := Strip(t[start..CutOf(t, m, start)]);
      WalkFromChunks(t, m, next, acc + [c]);
      SnocShift(acc, c, ChunksFrom(t, m, next), ChunksFrom(t, m, start), acc + ChunksFrom(t, m, start));
    } else {
      assert acc + [] == acc;
    }
  }

  /** One step of the window walk. */
  lemma PiecesStep(t: string, m: nat, start: nat, cut: nat, next: nat)
    requires start < |t| && cut == CutOf(t, m, start) && next == NextStart(t, m, start)
    ensures Pieces(t, m, start) == [Piece(start, cut)] + Pieces(t, m, next)
  {
  }

  /** The chunks are the windows, stripped: one chunk per window, in order. */
  lemma {:induction false} ChunksFromPieces(t: string, m: nat, start: nat)
    ensures ValidPieces(t, Pieces(t, m, start))
    ensures |ChunksFrom(t, m, start)| == |Pieces(t, m, start)|
    ensures forall i :: 0 <= i < |ChunksFrom(t, m, start)| ==>
      ChunksFrom(t, m, start)[i] == Strip(t[Pieces(t, m, start)[i].from..Pieces(t, m, start)[i].cut])
    decreases |t| - start
  {
    PiecesValid(t, m, start);
    if start < |t| {
      var next := NextStart(t, m, start);
      ChunksFromPieces(t, m, next);
      PiecesStep(t, m, start, CutOf(t, m, start), next);
      var cs := ChunksFrom(t, m, start);
      var ps := Pieces(t, m, start);
      forall i | 0 <= i < |cs|
        ensures cs[i] == Strip(t[ps[i].from..ps[i].cut])
      {
        if i > 0 {
          assert cs[i] == ChunksFrom(t, m, next)[i - 1];
          assert ps[i] == Pieces(t, m, next)[i - 1];
        }
      }
    }
  }

  /** No chunk from `start` on is longer than the window size. */
  lemma {:induction false} ChunksFromLengths(t: string, m: nat, start: nat)
    ensures forall i :: 0 <= i < |ChunksFrom(t, m, start)| ==> |ChunksFrom(t, m, start)[i]| <= m
    decreases |t| - start
  {
    if start < |t| {
      var next := NextStart(t, m, start);
      ChunksFromLengths(t, m, next);
      var cs := ChunksFrom(t, m, start);
      forall i | 0 <= i < |cs|
        ensures |cs[i]| <= m
      {
        if i > 0 {
          assert cs[i] == ChunksFrom(t, m, next)[i - 1];
        }
      }
    }
  }

  /** No chunk is longer than the window size. */
  lemma ChunkLengths(text: string, m: nat)
    ensures forall i :: 0 <= i < |Chunks(text, m)| ==> |Chunks(text, m)[i]| <= m
  {
    ChunksFromLengths(Strip(text), m, 0);
  }

  /** Each cut skips one character: a period when the window holds one, and
      otherwise the character just past the window, whatever it is. */
  lemma SkippedCharacters(t: string, m: nat, i: nat)
    requires i < |Pieces(t, m, 0)| && Pieces(t, m, 0)[i].cut < |t|
    ensures var p := Pieces(t, m, 0)[i];
      || t[p.cut] == '.'
      || (p.cut == p.from + m && forall k :: p.from <= k < p.cut ==> t[k] != '.')
  {
    PiecesCuts(t, m, 0);
    CutOfLastPeriod(t, m, Pieces(t, m, 0)[i].from);
  }

  /** The windows and the characters skipped at their cuts, laid end to end. */
  function Rebuilt(t: string, ps: seq<Piece>): string
    requires ValidPieces(t, ps)
  {
    if ps == [] then ""
    else
      var p := ps[0];
      t[p.from..p.cut] + (if p.cut < |t| then [t[p.cut]] else []) + Rebuilt(t, ps[1..])
  }

  /** The windows and the skipped characters give back the text: nothing is
      lost except the skipped character at each cut. */
  lemma {:induction false} PiecesRebuild(t: string, m: nat, start: nat)
    requires start <= |t|
    ensures ValidPieces(t, Pieces(t, m, start)) && Rebuilt(t, Pieces(t, m, start)) == t[start..]
    decreases |t| - start
  {
    PiecesValid(t, m, start);
    if start < |t| {
      var cut := CutOf(t, m, start);
      var next := NextStart(t, m, start);
      PiecesStep(t, m, start, cut, next);
      PiecesValid(t, m, next);
      if cut < |t| {
        PiecesRebuild(t, m, next);
      }
      RebuiltStep(t, start, cut, next, Pieces(t, m, next));
    }
  }

  /** One window and its skipped character laid before the rebuilt rest of
      the text give back the text from the window's start. */
  lemma RebuiltStep(t: string, start: nat, cut: nat, next: nat, rest: seq<Piece>)
    requires start <= cut <= |t| && next == cut + 1 && ValidPieces(t, rest)
    requires cut < |t| ==> Rebuilt(t, rest) == t[next..]
    requires cut == |t| ==> rest == []
    ensures ValidPieces(t, [Piece(start, cut)] + rest)
    ensures Rebuilt(t, [Piece(start, cut)] + rest) == t[start..]
  {
    RebuiltCons(t, Piece(start, cut), rest);
    if cut < |t| {
      SplitAt(t, start, cut);
    }
  }

  lemma RebuiltCons(t: string, p: Piece, rest: seq<Piece>)
    requires p.from <= p.cut <= |t| && ValidPieces(t, rest)
    ensures ValidPieces(t, [p] + rest)
    ensures Rebuilt(t, [p] + rest) == t[p.from..p.cut] + (if p.cut < |t| then [t[p.cut]] else []) + Rebuilt(t, rest)
  {
    assert ([p] + rest)[1..] == rest;
  }

  /** As written, a window without a period loses the character just past
      its end: "aaa" in windows of 2 gives the single chunk "aa". */
  lemma ChunkLosesCharacter()
    ensures Chunks("aaa", 2) == ["aa"]
  {
    var t := "aaa";
    StripStripped(t);
    assert RFind(t, '.', 0, 2) == -1;
    assert CutOf(t, 2, 0) == 2;
    var a := t[0..2];
    assert a == "aa" by {
      assert |a| == 2 && a[0] == 'a' && a[1] == 'a';
    }
    StripStripped(a);
    assert NextStart(t, 2, 0) == 3;
    assert ChunksFrom(t, 2, 0) == [Strip(a)] + ChunksFrom(t, 2, 3);
  }

  /** The evidently intended loop step: past the period when one was found,
      at the window end otherwise. */
  function NextStartFixed(t: string, m: nat, start: nat): nat
    requires start <= |t|
  {
    var cut := CutOf(t, m, start);
    if cut < WindowEnd(t, m, start) then cut + 1 else cut
  }

  /** The windows of the corrected loop. */
  function PiecesFixed(t: string, m: nat, start: nat): seq<Piece>
    requires m > 0
    decreases |t| - start
  {
    if start >= |t| then []
    else [Piece(start, CutOf(t, m, start))] + PiecesFixed(t, m, NextStartFixed(t, m, start))
  }

  /** The chunks of the corrected loop from `start` on. */
  function ChunksFixedFrom(t: string, m: nat, start: nat): seq<string>
    requires m > 0
    decreases |t| - start
  {
    if start >= |t| then []
    else [Strip(t[start..CutOf(t, m, start)])] + ChunksFixedFrom(t, m, NextStartFixed(t, m, start))
  }

  /** `_chunk` with the corrected step. */
  function ChunksFixed(text: string, m: nat): seq<string>
    requires m > 0
  {
    var t := Strip(text);
    if |t| <= m then [t] else ChunksFixedFrom(t, m, 0)
  }

  /** The corrected chunks are the corrected windows, stripped. */
  lemma {:induction false} ChunksFixedFromPieces(t: string, m: nat, start: nat)
    requires m > 0
    ensures ValidPieces(t, PiecesFixed(t, m, start))
    ensures |ChunksFixedFrom(t, m, start)| == |PiecesFixed(t, m, start)|
    ensures forall i :: 0 <= i < |ChunksFixedFrom(t, m, start)| ==>
      ChunksFixedFrom(t, m, start)[i] == Strip(t[PiecesFixed(t, m, start)[i].from..PiecesFixed(t, m, start)[i].cut])
    decreases |t| - start
  {
    PiecesFixedValid(t, m, start);
    if start < |t| {
      var next := NextStartFixed(t, m, start);
      ChunksFixedFromPieces(t, m, next);
      PiecesFixedStep(t, m, start, CutOf(t, m, start), next);
      var cs := ChunksFixedFrom(t, m, start);
      var ps := PiecesFixed(t, m, start);
      forall i | 0 <= i < |cs|
        ensures cs[i] == Strip(t[ps[i].from..ps[i].cut])
      {
        if i > 0 {
          assert cs[i] == ChunksFixedFrom(t, m, next)[i - 1];
          assert ps[i] == PiecesFixed(t, m, next)[i - 1];
        }
      }
    }
  }

  lemma {:induction false} ChunksFixedFromLengths(t: string, m: nat, start: nat)
    requires m > 0
    ensures forall i :: 0 <= i < |ChunksFixedFrom(t, m, start)| ==> |ChunksFixedFrom(t, m, start)[i]| <= m
    decreases |t| - start
  {
    if start < |t| {
      var next := NextStartFixed(t, m, start);
      ChunksFixedFromLengths(t, m, next);
      var cs := ChunksFixedFrom(t, m, start);
      forall i | 0 <= i < |cs|
        ensures |cs[i]| <= m
      {
        if i > 0 {
          assert cs[i] == ChunksFixedFrom(t, m, next)[i - 1];
        }
      }
    }
  }

  lemma {:induction false} PiecesFixedValid(t: string, m: nat, start: nat)
    requires m > 0
    ensures ValidPieces(t, PiecesFixed(t, m, start))
    decreases |t| - start
  {
    if start < |t| {
      PiecesFixedValid(t, m, NextStartFixed(t, m, start));
    }
  }

  lemma {:induction false} PiecesFixedCuts(t: string, m: nat, start: nat)
    requires m > 0
    ensures forall i :: 0 <= i < |PiecesFixed(t, m, start)| ==>
      var p := PiecesFixed(t, m, start)[i];
      start <= p.from < |t| && p.cut == CutOf(t, m, p.from)
    decreases |t| - start
  {
    if start < |t| {
      PiecesFixedCuts(t, m, NextStartFixed(t, m, start));
    }
  }

  /** No corrected chunk is longer than the window size either. */
  lemma ChunkFixedLengths(text: string, m: nat)
    requires m > 0
    ensures forall i :: 0 <= i < |ChunksFixed(text, m)| ==> |ChunksFixed(text, m)[i]| <= m
  {
    ChunksFixedFromLengths(Strip(text), m, 0);
  }

  /** The corrected windows, laid end to end with a "." wherever a window
      was cut at a period. */
  function RebuiltFixed(t: string, m: nat, ps: seq<Piece>): string
    requires ValidPieces(t, ps)
  {
    if ps == [] then ""
    else
      var p := ps[0];
      t[p.from..p.cut] + (if p.cut < WindowEnd(t, m, p.from) then "." else "") + RebuiltFixed(t, m, ps[1..])
  }

  /** With the corrected step the only characters in no window are the
      periods the windows were cut at. */
  lemma {:induction false} PiecesFixedRebuild(t: string, m: nat, start: nat)
    requires m > 0 && start <= |t|
    ensures ValidPieces(t, PiecesFixed(t, m, start)) && RebuiltFixed(t, m, PiecesFixed(t, m, start)) == t[start..]
    decreases |t| - start
  {
    PiecesFixedValid(t, m, start);
    if start < |t| {
      var cut := CutOf(t, m, start);
      var next := NextStartFixed(t, m, start);
      var rest := PiecesFixed(t, m, next);
      PiecesFixedStep(t, m, start, cut, next);
      PiecesFixedValid(t, m, next);
      RebuiltFixedCons(t, m, Piece(start, cut), rest);
      PiecesFixedRebuild(t, m, next);
      FixedStepCovers(t, m, start);
    }
  }

  /** A corrected step covers `t[start..next]`: the window, then the period
      it was cut at, if any. */
  lemma FixedStepCovers(t: string, m: nat, start: nat)
    requires start < |t|
    ensures var cut := CutOf(t, m, start);
      t[start..cut] + (if cut < WindowEnd(t, m, start) then "." else "") + t[NextStartFixed(t, m, start)..] == t[start..]
  {
    var cut := CutOf(t, m, start);
    if cut < WindowEnd(t, m, start) {
      assert t[start..] == t[start..cut] + [t[cut]] + t[cut + 1..];
    } else {
      assert t[start..] == t[start..cut] + t[cut..];
    }
  }

  lemma PiecesFixedStep(t: string, m: nat, start: nat, cut: nat, next: nat)
    requires m > 0 && start < |t| && cut == CutOf(t, m, start) && next == NextStartFixed(t, m, start)
    ensures PiecesFixed(t, m, start) == [Piece(start, cut)] + PiecesFixed(t, m, next)
  {
  }

  lemma RebuiltFixedCons(t: string, m: nat, p: Piece, rest: seq<Piece>)
    requires p.from <= p.cut <= |t| && ValidPieces(t, rest)
    ensures ValidPieces(t, [p] + rest)
    ensures RebuiltFixed(t, m, [p] + rest) ==
      t[p.from..p.cut] + (if p.cut < WindowEnd(t, m, p.from) then "." else "") + RebuiltFixed(t, m, rest)
  {
    assert ([p] + rest)[1..] == rest;
  }

  /** The corrected chunker keeps the character the written one loses. */
  lemma ChunkFixedKeepsCharacter()
    ensures ChunksFixed("aaa", 2) == ["aa", "a"]
  {
    var t := "aaa";
    StripStripped(t);
    assert RFind(t, '.', 0, 2) == -1;
    assert CutOf(t, 2, 0) == 2 && NextStartFixed(t, 2, 0) == 2;
    assert RFind(t, '.', 2, 3) == -1;
    assert CutOf(t, 2, 2) == 3 && NextStartFixed(t, 2, 2) == 3;
    var a := t[0..2];
    var b := t[2..3];
    assert a == "aa" by {
      assert |a| == 2 && a[0] == 'a' && a[1] == 'a';
    }
    assert b == "a" by {
      assert |b| == 1 && b[0] == 'a';
    }
    StripStripped(a);
    StripStripped(b);
    assert ChunksFixedFrom(t, 2, 2) == [Strip(b)] + ChunksFixedFrom(t, 2, 3);
    assert ChunksFixedFrom(t, 2, 0) == [Strip(a)] + ChunksFixedFrom(t, 2, 2);
  }

  // ---------------------------------------------------------------------
  // One summarisation request with retries

  /** The decoded body of a reply. */
  datatype HfData =
    | Unparseable                       // the body is not JSON
    | SummaryList(summaryText: Value)   // a non-empty list whose first object has "summary_text"
    | JsonString(s: string)             // a JSON string
    | NotSearchable                     // a non-empty list whose first element `in` or `[...]` cannot search by "summary_text"
    | OtherShape(shown: string)         // anything else, with its str() rendering

  datatype HfReply = PostRaised(error: string) | HfResponse(status: int, data: HfData)

  /** The endpoint: the reply to attempt `n` of a request with the given
      input text and `max_new_tokens`. */
  type Post = (string, int, nat) -> HfReply

  /** 503 and 524 mean the model is still loading: wait and try again. */
  predicate Transient(reply: HfReply)
  {
    reply.HfResponse? && (reply.status == 503 || reply.status == 524)
  }

  /** What a non-transient reply makes of the request: an error status or an
      undecodable body raises; a summary list or a string gives its stripped
      text; any other shape is returned as its rendering. */
  function Answer(reply: HfReply): (r: Result<string>)
    ensures reply.PostRaised? ==> r.Raised?
    ensures reply.HfResponse? && 400 <= reply.status < 600 ==> r.Raised?
    ensures reply.HfResponse? && !(400 <= reply.status < 600) ==>
      match reply.data
      case Unparseable => r.Raised?
      case NotSearchable => r.Raised?
      case SummaryList(v) => if v.Str? then r == Ok(Strip(v.s)) else r.Raised?
      case JsonString(s) => r == Ok(Strip(s))
      case OtherShape(shown) => r == Ok(shown)
    ensures r.Ok? ==> reply.HfResponse? && !(400 <= reply.status < 600)
  {
    match reply
    case PostRaised(e) => Raised(e)
    case HfResponse(status, data) =>
      if 400 <= status < 600 then Raised("HTTPError")
      else match data
        case Unparseable => Raised("JSONDecodeError")
        case NotSearchable => Raised("TypeError")
        case SummaryList(v) => if v.Str? then Ok(Strip(v.s)) else Raised("AttributeError")
        case JsonString(s) => Ok(Strip(s))
        case OtherShape(shown) => Ok(shown)
  }

  /** The outcome of attempts `k`, `k + 1`, ... of one request. */
  function OnceFrom(txt: string, tokens: int, retries: int, post: Post, k: nat): Result<string>
    decreases retries - k
  {
    if k >= retries then Ok(BusyMessage)
    else if Transient(post(txt, tokens, k)) then OnceFrom(txt, tokens, retries, post, k + 1)
    else Answer(post(txt, tokens, k))
  }

  /** `_hf_summarize_once` as a function. */
  function OnceOutcome(txt: string, tokens: int, retries: int, post: Post): Result<string>
  {
    OnceFrom(txt, tokens, retries, post, 0)
  }

  function Pow2(n: nat): nat
  {
    if n == 0 then 1 else 2 * Pow2(n - 1)
  }

  /** The outcome is the answer to the first non-transient reply among the
      first `retries` attempts. */
  lemma {:induction false} OnceFirstAnswer(txt: string, tokens: int, retries: int, post: Post, j: nat, k: nat)
    requires j <= k < retries && !Transient(post(txt, tokens, k))
    requires forall i :: j <= i < k ==> Transient(post(txt, tokens, i))
    ensures OnceFrom(txt, tokens, retries, post, j) == Answer(post(txt, tokens, k))
    decreases k - j
  {
    if j < k {
      OnceFirstAnswer(txt, tokens, retries, post, j + 1, k);
    }
  }

  /** When every one of the `retries` replies is transient the outcome is
      the busy message. */
  lemma {:induction false} OnceAllBusy(txt: string, tokens: int, retries: int, post: Post, j: nat)
    requires forall i :: j <= i < retries ==> Transient(post(txt, tokens, i))
    ensures OnceFrom(txt, tokens, retries, post, j) == Ok(BusyMessage)
    decreases retries - j
  {
    if j < retries {
      OnceAllBusy(txt, tokens, retries, post, j + 1);
    }
  }

  /** `_hf_summarize_once`: at most `retries` requests; each transient reply
      is followed by a sleep of 2, 4, 8, ... seconds and another attempt. */
  method SummarizeOnce(txt: string, maxNewTokens: int, retries: int, post: Post)
    returns (r: Result<string>, requests: nat, sleeps: seq<nat>)
    ensures r == OnceOutcome(txt, maxNewTokens, retries, post)
    ensures requests <= (if retries > 0 then retries else 0)
    ensures requests == |sleeps| || requests == |sleeps| + 1
    ensures forall i :: 0 <= i < |sleeps| ==> sleeps[i] == Pow2(i + 1) && Transient(post(txt, maxNewTokens, i))
    ensures requests == |sleeps| ==> r == Ok(BusyMessage) && requests == (if retries > 0 then retries else 0)
    ensures requests == |sleeps| + 1 ==>
      !Transient(post(txt, maxNewTokens, |sleeps|)) && r == Answer(post(txt, maxNewTokens, |sleeps|))
  {
    var backoff := 2;
    sleeps := [];
    requests := 0;
    var attempt := 0;
    while attempt < retries
      invariant requests == attempt == |sleeps|
      invariant attempt <= (if retries > 0 then retries else 0)
      invariant backoff == Pow2(attempt + 1)
      invariant forall i :: 0 <= i < attempt ==> sleeps[i] == Pow2(i + 1) && Transient(post(txt, maxNewTokens, i))
      invariant OnceFrom(txt, maxNewTokens, retries, post, attempt) == OnceOutcome(txt, maxNewTokens, retries, post)
      decreases retries - attempt
    {
      var reply := post(txt, maxNewTokens, attempt);
      requests := requests + 1;
      if Transient(reply) {
        sleeps := sleeps + [backoff];
        backoff := backoff * 2;
        attempt := attempt + 1;
        continue;
      }
      r := Answer(reply);
      return;
    }
    r := Ok(BusyMessage);
  }

  // ---------------------------------------------------------------------
  // Map-reduce over the chunks

  /** One call of `_hf_summarize_once`. */
  datatype OnceCall = OnceCall(input: string, maxNewTokens: int)

  /** The calls made and what `summarize_long_text` returns or raises. */
  datatype LongRun = LongRun(calls: seq<OnceCall>, result: Result<string>)

  /** The partial summaries of `chunks`, in order, up to and including the
      first that raises (the comprehension stops there). */
  function Partials(chunks: seq<string>, post: Post): (rs: seq<Result<string>>)
    ensures |rs| <= |chunks|
    ensures forall i :: 0 <= i < |rs| ==> rs[i] == OnceOutcome(chunks[i], PartialTokens, DefaultRetries, post)
    ensures forall i :: 0 <= i < |rs| - 1 ==> rs[i].Ok?
    ensures |rs| < |chunks| ==> rs != [] && rs[|rs| - 1].Raised?
  {
    if chunks == [] then []
    else
      var first := OnceOutcome(chunks[0], PartialTokens, DefaultRetries, post);
      if first.Raised? then [first] else [first] + Partials(chunks[1..], post)
  }

  /** The texts of successful outcomes (a raised one reads as ""). */
  function Outputs(rs: seq<Result<string>>): (r: seq<string>)
    ensures |r| == |rs|
  {
    seq(|rs|, i requires 0 <= i < |rs| => if rs[i].Ok? then rs[i].value else "")
  }

  /** `summarize_long_text`: summarise the first `MaxChunks` chunks of
      `_chunk` with `PartialTokens`, then the newline-joined partials with
      `FinalTokens`; a partial that raises ends the run with its exception. */
  function SummarizeLongText(text: string, post: Post): (run: LongRun)
    ensures |run.calls| <= |Prefix(Chunks(text, MaxChunkChars), MaxChunks)| + 1 <= MaxChunks + 1
    ensures forall i :: 0 <= i < |run.calls| - 1 ==>
      run.calls[i] == OnceCall(Chunks(text, MaxChunkChars)[i], PartialTokens)
    ensures run.calls != [] && run.calls[0].maxNewTokens == PartialTokens
    ensures var rs := Partials(Prefix(Chunks(text, MaxChunkChars), MaxChunks), post);
      rs != [] && rs[|rs| - 1].Raised? ==>
        |run.calls| == |rs| && run.result == rs[|rs| - 1]
    ensures var chunks := Prefix(Chunks(text, MaxChunkChars), MaxChunks);
      var rs := Partials(chunks, post);
      !(rs != [] && rs[|rs| - 1].Raised?) ==>
        var last := run.calls[|run.calls| - 1];
        && |rs| == |chunks|
        && |run.calls| == |chunks| + 1
        && last.maxNewTokens == FinalTokens
        && last.input == Join(Outputs(rs), "\n")
        && run.result == OnceOutcome(last.input, FinalTokens, DefaultRetries, post)
  {
    var chunks := Prefix(Chunks(text, MaxChunkChars), MaxChunks);
    var rs := Partials(chunks, post);
    var calls := seq(|rs|, i requires 0 <= i < |rs| => OnceCall(chunks[i], PartialTokens));
    if rs != [] && rs[|rs| - 1].Raised? then LongRun(calls, rs[|rs| - 1])
    else
      var combined := Join(Outputs(rs), "\n");
      LongRun(calls + [OnceCall(combined, FinalTokens)], OnceOutcome(combined, FinalTokens, DefaultRetries, post))
  }

  /** Every partial summary made, including one that raises and ends the
      run, is a call on the next chunk with `PartialTokens`. */
  lemma SummarizeLongTextPartials(text: string, post: Post)
    ensures var chunks := Prefix(Chunks(text, MaxChunkChars), MaxChunks);
      var rs := Partials(chunks, post);
      var run := SummarizeLongText(text, post);
      && |rs| <= |run.calls|
      && forall i :: 0 <= i < |rs| ==> run.calls[i] == OnceCall(chunks[i], PartialTokens)
  {
  }
}
