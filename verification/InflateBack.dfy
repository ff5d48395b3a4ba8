/**
 * The slow path of zlib's inflateBack: output goes to a window used as a ring; when it is full it is
 * passed to the caller's out() and filled from the start again.  Literals, stored blocks and matches
 * are written to the window; a match reads what the window still holds of the output.
 */
module InflateBack {
  import opened Lz77

  // What a step can end in: done, an invalid distance, or a callback that failed.
  datatype Result = Ok | TooFar | BufError

  function Min(a: nat, b: nat): nat { if a < b then a else b }

  function Flatten(chunks: seq<seq<nat>>): seq<nat> { if chunks == [] then [] else chunks[0] + Flatten(chunks[1..]) }

  // in() never delivers an empty chunk: that is how it says that there is no more.
  ghost predicate ChunksOk(chunks: seq<seq<nat>>) { forall i {:trigger chunks[i]} :: 0 <= i < |chunks| ==> chunks[i] != [] }

  // The output: what out() was given, then the filled part of the window.
  ghost function Stream(emitted: seq<nat>, window: seq<nat>, put: nat): (s: seq<nat>)
    requires put <= |window|
    ensures |s| == |emitted| + put
  {
    emitted + window[..put]
  }

  // Behind put the window still has the bytes of its last turn.
  ghost predicate RingOk(emitted: seq<nat>, window: seq<nat>, put: nat) {
    && put <= |window|
    && (emitted == [] || |emitted| >= |window|)
    && forall i {:trigger window[i]} :: put <= i < |window| && emitted != [] ==> window[i] == emitted[|emitted| - |window| + i]
  }

  // Writing one byte at put.
  lemma PutOne(emitted: seq<nat>, window: seq<nat>, put: nat, b: nat)
    requires RingOk(emitted, window, put) && put < |window|
    ensures RingOk(emitted, window[put := b], put + 1)
    ensures Stream(emitted, window[put := b], put + 1) == Stream(emitted, window, put) + [b]
  {
    assert window[put := b][..put + 1] == window[..put] + [b];
  }

  // Passing the full window on.
  lemma WrapRing(emitted: seq<nat>, window: seq<nat>, put: nat)
    requires put == |window|
    ensures RingOk(emitted + window, window, 0)
    ensures Stream(emitted + window, window, 0) == Stream(emitted, window, put)
  {
    assert window[..put] == window;
  }

  // Where the byte `offset` before the end of the output is in the window.
  lemma SourceByte(emitted: seq<nat>, window: seq<nat>, put: nat, offset: nat, from: nat)
    requires RingOk(emitted, window, put) && put < |window|
    requires 1 <= offset <= |window| && (emitted == [] ==> offset <= put)
    requires from == if offset <= put then put - offset else put + |window| - offset
    ensures from < |window| && offset <= |emitted| + put
    ensures window[from] == Stream(emitted, window, put)[|emitted| + put - offset]
  {
  }

  lemma CopyNext(hist: seq<nat>, dist: nat, n: nat)
    requires 1 <= dist <= |hist|
    ensures var h := Copy(hist, dist, n); Copy(hist, dist, n + 1) == h + [h[|h| - dist]]
  {
  }

  // n bytes of input have become output.
  ghost predicate Delivered(out: seq<nat>, pending: seq<nat>, out0: seq<nat>, in0: seq<nat>, n: nat) {
    n <= |in0| && out == out0 + in0[..n] && pending == in0[n..]
  }

  lemma NoneDelivered(out0: seq<nat>, in0: seq<nat>)
    ensures Delivered(out0, in0, out0, in0, 0)
  {
  }

  lemma TakeOne(next: seq<nat>, rest: seq<nat>, in0: seq<nat>, n: nat, out0: seq<nat>)
    requires next != [] && n <= |in0| && next + rest == in0[n..]
    ensures n < |in0| && next[1..] + rest == in0[n + 1..]
    ensures out0 + in0[..n + 1] == (out0 + in0[..n]) + [next[0]]
  {
    assert in0[n..][0] == (next + rest)[0] == next[0];
    assert next[1..] + rest == (next + rest)[1..];
    assert in0[n..][1..] == in0[n + 1..];
    assert in0[..n + 1] == in0[..n] + [in0[n]];
    assert out0 + (in0[..n] + [in0[n]]) == (out0 + in0[..n]) + [in0[n]];
  }

  // ---- a whole run -----------------------------------------------------------------------------

  // What the decoder asks for: a literal or match, or a stored block.
  datatype Command = Symbol(t: Token<nat>) | Stored(len: nat)

  predicate CommandOk(c: Command) { c.Symbol? && c.t.Match? ==> c.t.dist >= 1 && c.t.len >= 1 }

  // The output after a command, and the input that is left.
  datatype State = State(hist: seq<nat>, input: seq<nat>)

  predicate Possible(s: State, c: Command, wsize: nat) {
    match c
    case Stored(len) => len <= |s.input|
    case Symbol(t) => t.Match? ==> 1 <= t.dist <= Min(|s.hist|, wsize)
  }

  // A match whose distance exceeds what has been produced, or the window.
  predicate Refused(hist: seq<nat>, c: Command, wsize: nat) { c.Symbol? && c.t.Match? && c.t.dist > Min(|hist|, wsize) }

  function Expand(s: State, c: Command, wsize: nat): State
    requires Possible(s, c, wsize)
  {
    match c
    case Stored(len) => State(s.hist + s.input[..len], s.input[len..])
    case Symbol(t) => State(Apply(s.hist, t), s.input)
  }

  datatype Progress = At(s: State) | Impossible

  // The commands in order, as LZ77 has them.
  function ExpandAll(s: State, cmds: seq<Command>, wsize: nat): Progress {
    if cmds == [] then At(s)
    else match ExpandAll(s, cmds[..|cmds| - 1], wsize)
      case Impossible => Impossible
      case At(s') =>
        if Possible(s', cmds[|cmds| - 1], wsize) then At(Expand(s', cmds[|cmds| - 1], wsize)) else Impossible
  }

  class Back {
    const window: array<nat>
    var left: nat
    var whave: nat
    var next: seq<nat>             // the rest of the current input chunk
    var chunks: seq<seq<nat>>      // what in() will deliver; then it delivers nothing
    const outOk: nat -> bool       // whether the n-th call of out() succeeds
    var calls: nat
    ghost var emitted: seq<nat>    // everything passed to out()

    constructor (wsize: nat, outOk: nat -> bool, chunks: seq<seq<nat>>)
      requires wsize >= 1 && ChunksOk(chunks)
      ensures Valid() && fresh(window) && window.Length == wsize && Output() == [] && Pending() == Flatten(chunks)
      ensures this.outOk == outOk && calls == 0
    {
      window := new nat[wsize];
      left := wsize;
      whave := 0;
      next := [];
      this.chunks := chunks;
      this.outOk := outOk;
      calls := 0;
      emitted := [];
    }

    ghost predicate Valid()
      reads this, window
    {
      && window.Length >= 1 && left <= window.Length
      && whave == (if emitted == [] then 0 else window.Length)
      && RingOk(emitted, window[..], window.Length - left)
      && ChunksOk(chunks)
    }

    ghost function Output(): (s: seq<nat>)
      requires Valid()
      reads this, window
    {
      Stream(emitted, window[..], window.Length - left)
    }

    ghost function Pending(): seq<nat>
      reads this`next, this`chunks
    {
      next + Flatten(chunks)
    }

    // ROOM: on return there is room for a byte, or out() has failed.
    method Room() returns (ok: bool)
      requires Valid()
      modifies this`left, this`whave, this`calls, this`emitted
      ensures Valid() && Output() == old(Output()) && (ok ==> left > 0)
      ensures if old(left) == 0 then calls == old(calls) + 1 && ok == outOk(old(calls)) && left == window.Length
              else ok && calls == old(calls) && left == old(left) && whave == old(whave)
    {
      ok := true;
      if left == 0 {
        WrapRing(emitted, window[..], window.Length);
        left := window.Length;
        whave := left;
        emitted := emitted + window[..];
        ok := outOk(calls);
        calls := calls + 1;
      }
    }

    // *put++ = b; left--
    method Store(b: nat)
      requires Valid() && left > 0
      modifies this`left, window
      ensures Valid() && Output() == old(Output()) + [b] && left == old(left) - 1
    {
      var put := window.Length - left;
      PutOne(emitted, window[..], put, b);
      ghost var before := window[..];
      window[put] := b;
      assert window[..] == before[put := b];
      left := left - 1;
    }

    // A literal.
    method EmitLiteral(b: nat) returns (r: Result)
      requires Valid()
      modifies this`left, this`whave, this`calls, this`emitted, window
      ensures Valid() && r != TooFar
      ensures Output() == if r == Ok then Apply(old(Output()), Literal(b)) else old(Output())
    {
      var ok := Room();
      if !ok {
        return BufError;
      }
      Store(b);
      r := Ok;
    }

    // PULL: have some input, or in() has delivered nothing.
    method PullChunk() returns (ok: bool)
      requires Valid()
      modifies this`next, this`chunks
      ensures Valid() && Output() == old(Output()) && Pending() == old(Pending())
      ensures ok <==> next != []
      ensures ok <==> old(Pending()) != []
    {
      ok := true;
      if next == [] {
        if chunks == [] {
          return false;
        }
        next, chunks := chunks[0], chunks[1..];
      }
    }

    // zmemcpy(put, next, copy)
    method CopyInput(copy0: nat, ghost out0: seq<nat>, ghost in0: seq<nat>, ghost n0: nat)
      requires Valid() && copy0 <= |next| && copy0 <= left
      requires Delivered(Output(), Pending(), out0, in0, n0)
      modifies this`left, this`next, window
      ensures Valid() && Delivered(Output(), Pending(), out0, in0, n0 + copy0)
    {
      hide RingOk, Stream, ChunksOk, Flatten;
      var copy: nat := copy0;
      ghost var n := n0;
      while copy != 0
        invariant Valid() && copy <= copy0 && n == n0 + (copy0 - copy) && copy <= |next| && copy <= left
        invariant Delivered(Output(), Pending(), out0, in0, n)
      {
        TakeOne(next, Flatten(chunks), in0, n, out0);
        Store(next[0]);
        next := next[1..];
        copy, n := copy - 1, n + 1;
      }
    }

    // A stored block of `length` bytes.
    method CopyStored(length0: nat) returns (r: Result, ghost n: nat)
      requires Valid()
      modifies this`left, this`whave, this`calls, this`emitted, this`next, this`chunks, window
      ensures Valid() && r != TooFar && n <= length0 && (r == Ok <==> n == length0)
      ensures Delivered(Output(), Pending(), old(Output()), old(Pending()), n)
    {
      hide Valid, Output, Pending, Delivered;
      var length: nat := length0;
      n := 0;
      ghost var out0, in0 := Output(), Pending();
      NoneDelivered(out0, in0);
      while length != 0
        invariant Valid() && length <= length0 && n == length0 - length
        invariant Delivered(Output(), Pending(), out0, in0, n)
      {
        var copy: nat := length;
        var ok := PullChunk();
        if !ok {
          return BufError, n;
        }
        ok := Room();
        if !ok {
          return BufError, n;
        }
        copy := Min(Min(copy, |next|), left);
        CopyInput(copy, out0, in0, n);
        n := n + copy;
        length := length - copy;
      }
      r := Ok;
    }

    // A match: it is refused exactly when its distance exceeds what has been produced, or the window.
    method CopyMatch(offset: nat, length0: nat) returns (r: Result, ghost n: nat)
      requires Valid() && offset >= 1 && length0 >= 1
      modifies this`left, this`whave, this`calls, this`emitted, window
      ensures Valid()
      ensures r == TooFar <==> offset > Min(|old(Output())|, window.Length)
      ensures r == TooFar ==> Output() == old(Output())
      ensures r != TooFar ==>
        offset <= |old(Output())| && n <= length0 && (r == Ok <==> n == length0)
        && Output() == Copy(old(Output()), offset, n)
    {
      n := 0;
      if offset > window.Length - (if whave < window.Length then left else 0) {
        return TooFar, 0;
      }
      ghost var out0 := Output();
      var length: nat := length0;
      while true
        invariant Valid() && 0 < length <= length0 && n == length0 - length && n < length0
        invariant 1 <= offset <= Min(|out0|, window.Length) && Output() == Copy(out0, offset, n)
        decreases length
      {
        var ok := Room();
        if !ok {
          return BufError, n;
        }
        var copy: nat := window.Length - offset;
        var put := window.Length - left;
        var from;
        if copy < left {
          from := put + copy;
          copy := left - copy;
        } else {
          from := put - offset;
          copy := left;
        }
        assert from == if offset <= put then put - offset else put + window.Length - offset;
        copy := Min(copy, length);
        assert copy > 0;
        length := length - copy;
        n := CopyRun(from, copy, offset, out0, n);
        if length == 0 {
          break;
        }
      }
      r := Ok;
    }

    // do { *put++ = *from++; } while (--copy)
    method CopyRun(from0: nat, copy0: nat, offset: nat, ghost out0: seq<nat>, ghost n0: nat) returns (ghost n: nat)
      requires Valid() && 0 < copy0 <= left && from0 + copy0 <= window.Length
      requires 1 <= offset <= Min(|out0|, window.Length) && Output() == Copy(out0, offset, n0)
      requires var put := window.Length - left;
        from0 == (if offset <= put then put - offset else put + window.Length - offset)
        && (offset > put ==> put + copy0 <= offset)
      modifies this`left, window
      ensures Valid() && n == n0 + copy0 && Output() == Copy(out0, offset, n) && left == old(left) - copy0
    {
      hide RingOk, Stream, ChunksOk, Copy;
      n := n0;
      var from: nat, copy: nat := from0, copy0;
      ghost var first := window.Length - left;
      while copy != 0
        invariant Valid() && copy <= copy0 && n == n0 + (copy0 - copy) && left == old(left) - (copy0 - copy)
        invariant from == from0 + (copy0 - copy) && Output() == Copy(out0, offset, n)
      {
        SourceByte(emitted, window[..], window.Length - left, offset, from);
        CopyNext(out0, offset, n);
        Store(window[from]);
        from, copy, n := from + 1, copy - 1, n + 1;
      }
    }

    method Step(c: Command) returns (r: Result)
      requires Valid() && CommandOk(c)
      modifies this`left, this`whave, this`calls, this`emitted, this`next, this`chunks, window
      ensures Valid()
      ensures var s := State(old(Output()), old(Pending()));
        && (r == Ok ==> Possible(s, c, window.Length) && State(Output(), Pending()) == Expand(s, c, window.Length))
        && (r == TooFar <==> Refused(s.hist, c, window.Length))
        && (r == TooFar ==> Output() == s.hist)
        && (r == BufError ==> s.hist <= Output())
    {
      hide Valid, Output, Pending, Copy;
      match c
      case Stored(len) =>
        ghost var n;
        r, n := CopyStored(len);
      case Symbol(t) =>
        match t {
          case Literal(b) => r := EmitLiteral(b);
          case Match(dist, len) =>
            ghost var n;
            r, n := CopyMatch(dist, len);
        }
    }

    // Over any number of turns of the window, the output is the expansion of the commands so far.
    method Run(cmds: seq<Command>) returns (r: Result, n: nat)
      requires Valid() && forall c :: c in cmds ==> CommandOk(c)
      modifies this`left, this`whave, this`calls, this`emitted, this`next, this`chunks, window
      ensures Valid() && n <= |cmds| && (r == Ok <==> n == |cmds|)
      ensures match ExpandAll(State(old(Output()), old(Pending())), cmds[..n], window.Length)
        case Impossible => false
        case At(s) =>
          && (r == Ok ==> s == State(Output(), Pending()))
          && (r == TooFar ==> s.hist == Output() && Refused(s.hist, cmds[n], window.Length))
          && (r == BufError ==> s.hist <= Output())
    {
      hide Valid, Output, Pending, Possible, Expand;
      ghost var s0 := State(Output(), Pending());
      n := 0;
      r := Ok;
      while n < |cmds|
        invariant Valid() && n <= |cmds| && r == Ok
        invariant ExpandAll(s0, cmds[..n], window.Length) == At(State(Output(), Pending()))
      {
        assert cmds[n] in cmds;
        r := Step(cmds[n]);
        if r != Ok {
          return;
        }
        assert cmds[..n + 1][..n] == cmds[..n];
        n := n + 1;
      }
    }
  }
}
