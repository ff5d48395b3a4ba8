/** LZ77 as in section 3.2.3 of RFC 1951: literals, and copies of earlier output. */
module Lz77 {
  import opened Wrappers

  datatype Token<B> = Literal(b: B) | Match(dist: nat, len: nat)

  // Append len bytes, each equal to the byte dist before it.
  function Copy<B>(hist: seq<B>, dist: nat, len: nat): (r: seq<B>)
    requires 1 <= dist <= |hist|
    ensures |r| == |hist| + len && r[..|hist|] == hist
  {
    if len == 0 then hist
    else
      var h := Copy(hist, dist, len - 1);
      h + [h[|h| - dist]]
  }

  predicate Fits<B>(hist: seq<B>, t: Token<B>) { t.Match? ==> 1 <= t.dist <= |hist| }

  function Apply<B>(hist: seq<B>, t: Token<B>): (r: seq<B>)
    requires Fits(hist, t)
    ensures |r| >= |hist|
  {
    match t
    case Literal(b) => hist + [b]
    case Match(dist, len) => Copy(hist, dist, len)
  }

  // What a sequence of tokens stands for, if every distance is in range.
  function Output<B>(tokens: seq<Token<B>>): Option<seq<B>> {
    if tokens == [] then Some([])
    else match Output(tokens[..|tokens| - 1])
      case None => None
      case Some(hist) =>
        if Fits(hist, tokens[|tokens| - 1]) then Some(Apply(hist, tokens[|tokens| - 1])) else None
  }

  lemma OutputSnoc<B>(tokens: seq<Token<B>>, t: Token<B>, hist: seq<B>)
    requires Output(tokens) == Some(hist) && Fits(hist, t)
    ensures Output(tokens + [t]) == Some(Apply(hist, t))
  {
    assert (tokens + [t])[..|tokens|] == tokens;
  }

  // Every copied byte is the byte dist before it, also where the copy overlaps itself.
  lemma {:induction false} CopyAt<B>(hist: seq<B>, dist: nat, len: nat, i: nat)
    requires 1 <= dist <= |hist| && |hist| <= i < |hist| + len
    ensures Copy(hist, dist, len)[i] == Copy(hist, dist, len)[i - dist]
  {
    if i < |hist| + len - 1 {
      CopyAt(hist, dist, len - 1, i);
    }
  }

  // data repeats itself at distance dist over [pos, end).
  ghost predicate Repeats<B>(data: seq<B>, pos: nat, end: nat, dist: nat) {
    1 <= dist <= pos <= end <= |data| && forall i :: pos <= i < end ==> data[i] == data[i - dist]
  }

  // Where the data repeats itself at distance dist, a copy continues the data.
  lemma {:induction false} CopyContinues<B>(data: seq<B>, pos: nat, len: nat, dist: nat)
    requires Repeats(data, pos, pos + len, dist)
    ensures Copy(data[..pos], dist, len) == data[..pos + len]
  {
    if len > 0 {
      CopyContinues(data, pos, len - 1, dist);
      assert data[..pos + len] == data[..pos + len - 1] + [data[pos + len - 1]];
    }
  }
}
