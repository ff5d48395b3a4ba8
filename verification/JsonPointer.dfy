/**
 * JSON values and JSON Pointers (RFC 6901): escaping, splitting a pointer string into reference
 * tokens, array indices, and looking up and replacing the value a pointer designates.
 * Exceptions are modelled by their documented numbers.
 */
module JsonPointer {
  datatype Result<T> = Ok(value: T) | Err(id: nat)

  datatype Float = NaN | Value(r: real)

  datatype Json =
    | Null
    | Boolean(b: bool)
    | Integer(i: int)
    | Unsigned(u: nat)
    | Number(f: Float)
    | Str(s: string)
    | Binary(bytes: seq<nat>)
    | Discarded
    | Arr(a: seq<Json>)
    | Obj(m: map<string, Json>)

  // ---- strings ---------------------------------------------------------------------------------

  // replace_substring: every occurrence, scanning on after the replacement.
  function ReplaceAll(s: string, f: string, t: string): string
    requires |f| > 0
  {
    if |s| < |f| then s
    else if s[..|f|] == f then t + ReplaceAll(s[|f|..], f, t)
    else [s[0]] + ReplaceAll(s[1..], f, t)
  }

  function Escape(s: string): string { ReplaceAll(ReplaceAll(s, "~", "~0"), "/", "~1") }

  function Unescape(s: string): string { ReplaceAll(ReplaceAll(s, "~1", "/"), "~0", "~") }

  // ~ must be followed by 0 or 1
  predicate WellEscaped(s: string) {
    forall i :: 0 <= i < |s| && s[i] == '~' ==> i + 1 < |s| && (s[i + 1] == '0' || s[i + 1] == '1')
  }

  lemma {:induction false} ReplaceConcat(a: string, b: string, f: char, t: string)
    ensures ReplaceAll(a + b, [f], t) == ReplaceAll(a, [f], t) + ReplaceAll(b, [f], t)
  {
    if a == [] {
      assert a + b == b;
    } else {
      ReplaceConcat(a[1..], b, f, t);
      assert (a + b)[1..] == a[1..] + b && (a + b)[..1] == a[..1] == [a[0]];
    }
  }

  // Escaping works character by character.
  function EscapeChar(c: char): string { if c == '~' then "~0" else if c == '/' then "~1" else [c] }

  lemma EscapeCons(s: string)
    requires s != []
    ensures Escape(s) == EscapeChar(s[0]) + Escape(s[1..])
  {
    var head := if s[0] == '~' then "~0" else [s[0]];
    assert s[..1] == [s[0]];
    assert ReplaceAll(s, "~", "~0") == head + ReplaceAll(s[1..], "~", "~0");
    ReplaceConcat(head, ReplaceAll(s[1..], "~", "~0"), '/', "~1");
    EscapeHead(head, s[0]);
  }

  lemma EscapeHead(head: string, c: char)
    requires head == if c == '~' then "~0" else [c]
    ensures ReplaceAll(head, "/", "~1") == EscapeChar(c)
  {
    assert head[..1] == [head[0]];
    if c == '~' {
      assert head[1..] == "0" && "0"[..1] == "0" && "0"[1..] == "";
    } else {
      assert head[1..] == "";
    }
  }

  lemma {:induction false} EscapedOk(s: string)
    ensures WellEscaped(Escape(s)) && '/' !in Escape(s)
  {
    if s == [] {
    } else {
      EscapeCons(s);
      EscapedOk(s[1..]);
      var h, r := EscapeChar(s[0]), Escape(s[1..]);
      forall i | 0 <= i < |h + r| && (h + r)[i] == '~'
        ensures i + 1 < |h + r| && ((h + r)[i + 1] == '0' || (h + r)[i + 1] == '1')
      {
        if i >= |h| {
          assert (h + r)[i] == r[i - |h|];
        }
      }
    }
  }

  lemma {:induction false} UnescapeEscape(s: string)
    ensures Unescape(Escape(s)) == s
  {
    SlashesBack(s);
    TildesBack(s);
  }

  lemma {:induction false} SlashesBack(s: string)
    ensures ReplaceAll(Escape(s), "~1", "/") == ReplaceAll(s, "~", "~0")
  {
    if s != [] {
      EscapeCons(s);
      SlashesBack(s[1..]);
      var e, r := Escape(s), Escape(s[1..]);
      assert s[..1] == [s[0]];
      if s[0] == '~' {
        assert e == "~0" + r && e[..2] == "~0" && e[1..] == "0" + r;
        PlainHead("0" + r, "~1", "/");
        assert ("0" + r)[1..] == r;
      } else if s[0] == '/' {
        assert e == "~1" + r && e[..2] == "~1" && e[2..] == r;
      } else {
        assert e == [s[0]] + r && e[1..] == r;
        PlainHead(e, "~1", "/");
      }
    }
  }

  // A character that cannot start a match is copied.
  lemma PlainHead(s: string, f: string, t: string)
    requires s != [] && |f| > 0 && s[0] != f[0]
    ensures ReplaceAll(s, f, t) == [s[0]] + ReplaceAll(s[1..], f, t)
  {
    if |s| >= |f| {
      assert s[..|f|][0] == s[0];
    } else {
      assert s == [s[0]] + s[1..];
    }
  }

  lemma {:induction false} TildesBack(s: string)
    ensures ReplaceAll(ReplaceAll(s, "~", "~0"), "~0", "~") == s
  {
    if s != [] {
      TildesBack(s[1..]);
      var r := ReplaceAll(s[1..], "~", "~0");
      assert s[..1] == [s[0]];
      if s[0] == '~' {
        var e := "~0" + r;
        assert e[..2] == "~0" && e[2..] == r;
      } else {
        var e := [s[0]] + r;
        assert e[1..] == r;
        PlainHead(e, "~0", "~");
      }
    }
  }

  // ---- splitting -------------------------------------------------------------------------------

  function Find(s: string, c: char): (k: nat)
    ensures k <= |s| && (k < |s| ==> s[k] == c) && forall i :: 0 <= i < k ==> s[i] != c
  {
    if s == [] then 0 else if s[0] == c then 0 else 1 + Find(s[1..], c)
  }

  // The text between slashes.
  function Segments(s: string): seq<string> {
    var k := Find(s, '/');
    if k == |s| then [s] else [s[..k]] + Segments(s[k + 1..])
  }

  function Decode(segments: seq<string>): Result<seq<string>> {
    if segments == [] then Ok([])
    else if !WellEscaped(segments[0]) then Err(108)
    else match Decode(segments[1..])
      case Err(id) => Err(id)
      case Ok(rest) => Ok([Unescape(segments[0])] + rest)
  }

  // json_pointer(path)
  function Parse(path: string): Result<seq<string>> {
    if path == "" then Ok([])
    else if path[0] != '/' then Err(107)
    else Decode(Segments(path[1..]))
  }

  lemma FindSkips(s: string, e: string, c: char)
    requires c !in s
    ensures Find(s, c) == |s|
    ensures Find(s + [c] + e, c) == |s|
  {
    var w := s + [c] + e;
    assert w[|s|] == c;
    forall i | 0 <= i < |s| ensures s[i] != c && w[i] == s[i] {
      assert s[i] in s;
    }
  }

  lemma {:induction false} SegmentsSnoc(s: string, e: string)
    requires '/' !in e
    ensures Segments(s + "/" + e) == Segments(s) + [e]
    decreases |s|
  {
    hide Find;
    var k := Find(s, '/');
    if k == |s| {
      LastSegment(s, e);
    } else {
      var w := s + "/" + e;
      FindSame(s, "/" + e, '/');
      assert s + ("/" + e) == w;
      assert w[..k] == s[..k];
      assert w[k + 1..] == s[k + 1..] + "/" + e;
      SegmentsSnoc(s[k + 1..], e);
      assert [s[..k]] + (Segments(s[k + 1..]) + [e]) == ([s[..k]] + Segments(s[k + 1..])) + [e];
    }
  }

  lemma LastSegment(s: string, e: string)
    requires Find(s, '/') == |s| && '/' !in e
    ensures Segments(s + "/" + e) == [s] + [e] && Segments(s) == [s]
  {
    hide Find;
    var w := s + "/" + e;
    assert '/' !in s;
    FindSkips(s, e, '/');
    FindSkips(e, "", '/');
    assert w[..|s|] == s && w[|s| + 1..] == e;
  }

  lemma FindSame(s: string, e: string, c: char)
    requires Find(s, c) < |s|
    ensures Find(s + e, c) == Find(s, c)
  {
    var k, k' := Find(s, c), Find(s + e, c);
    assert (s + e)[k] == c;
    if k' < k {
      assert (s + e)[k'] == s[k'];
    }
  }

  lemma {:induction false} DecodeSnoc(segments: seq<string>, e: string)
    requires Decode(segments).Ok? && WellEscaped(e)
    ensures Decode(segments + [e]) == Ok(Decode(segments).value + [Unescape(e)])
  {
    hide Unescape, WellEscaped;
    if segments == [] {
      assert segments + [e] == [e] && [e][1..] == [];
      assert [Unescape(e)] + [] == [] + [Unescape(e)];
    } else {
      assert (segments + [e])[1..] == segments[1..] + [e];
      DecodeSnoc(segments[1..], e);
      var t, rest := Unescape(segments[0]), Decode(segments[1..]).value;
      assert [t] + (rest + [Unescape(e)]) == ([t] + rest) + [Unescape(e)];
    }
  }

  // Appending "/" and an escaped token to a pointer string appends the token.
  lemma ParseAppend(path: string, e: string)
    requires Parse(path).Ok? && WellEscaped(e) && '/' !in e
    ensures Parse(path + "/" + e) == Ok(Parse(path).value + [Unescape(e)])
  {
    var w := path + "/" + e;
    if path == "" {
      assert w[1..] == e;
      FindSkips(e, "", '/');
      DecodeSnoc([], e);
      assert [] + [e] == [e];
    } else {
      assert w[1..] == path[1..] + "/" + e;
      SegmentsSnoc(path[1..], e);
      DecodeSnoc(Segments(path[1..]), e);
    }
  }

  lemma ParseKey(path: string, key: string)
    requires Parse(path).Ok?
    ensures Parse(path + "/" + Escape(key)) == Ok(Parse(path).value + [key])
  {
    EscapedOk(key);
    UnescapeEscape(key);
    ParseAppend(path, Escape(key));
  }

  // ---- array indices ---------------------------------------------------------------------------

  // The largest size_type; no container reaches it.
  const SIZE_MAX: nat := 0xFFFF_FFFF_FFFF_FFFF

  predicate IsDigit(c: char) { '0' <= c <= '9' }

  function Decimal(s: string): nat
    requires forall c :: c in s ==> IsDigit(c)
  {
    if s == [] then 0
    else
      assert IsDigit(s[|s| - 1]);
      Decimal(s[..|s| - 1]) * 10 + (s[|s| - 1] as int - '0' as int)
  }

  // array_index: no leading zero, nothing but digits, within size_type.
  function ArrayIndex(s: string): Result<nat> {
    if |s| > 1 && s[0] == '0' then Err(106)
    else if |s| > 1 && !('1' <= s[0] <= '9') then Err(109)
    else if s == "" || !(forall c :: c in s ==> IsDigit(c)) then Err(404)
    else if Decimal(s) > SIZE_MAX then Err(404)
    else if Decimal(s) == SIZE_MAX then Err(410)
    else Ok(Decimal(s))
  }

  function ToString(i: nat): string {
    if i < 10 then [('0' as int + i) as char] else ToString(i / 10) + [('0' as int + i % 10) as char]
  }

  lemma {:induction false} ToStringDigits(i: nat)
    ensures ToString(i) != "" && forall c :: c in ToString(i) ==> IsDigit(c)
    ensures Decimal(ToString(i)) == i
    ensures i > 0 ==> ToString(i)[0] != '0'
    ensures |ToString(i)| > 1 ==> i > 0
  {
    var s := ToString(i);
    if i < 10 {
      assert s[..0] == "";
    } else {
      ToStringDigits(i / 10);
      assert s[..|s| - 1] == ToString(i / 10);
    }
  }

  // An index printed in decimal is read back, and needs no escaping.
  lemma IndexRoundTrip(i: nat)
    requires i < SIZE_MAX
    ensures ArrayIndex(ToString(i)) == Ok(i)
    ensures ToString(i) != "-" && Escape(ToString(i)) == ToString(i)
  {
    ToStringDigits(i);
    var s := ToString(i);
    assert s[0] in s;
    EscapePlain(s);
  }

  lemma {:induction false} EscapePlain(s: string)
    requires '~' !in s && '/' !in s
    ensures Escape(s) == s
  {
    if s != [] {
      EscapeCons(s);
      EscapePlain(s[1..]);
      assert s == [s[0]] + s[1..];
    }
  }

  // ---- looking up and replacing ----------------------------------------------------------------

  // One reference token: the checked access of get_checked.
  function Child(j: Json, token: string): Result<Json> {
    match j
    case Obj(m) => if token in m then Ok(m[token]) else Err(403)
    case Arr(a) =>
      if token == "-" then Err(402)
      else (match ArrayIndex(token)
            case Err(id) => Err(id)
            case Ok(i) => if i < |a| then Ok(a[i]) else Err(401))
    case _ => Err(404)
  }

  function SetChild(j: Json, token: string, v: Json): Json
    requires Child(j, token).Ok?
  {
    match j
    case Obj(m) => Obj(m[token := v])
    case Arr(a) => Arr(a[ArrayIndex(token).value := v])
  }

  // at(ptr)
  function At(j: Json, tokens: seq<string>): Result<Json> {
    if tokens == [] then Ok(j)
    else match Child(j, tokens[0])
      case Err(id) => Err(id)
      case Ok(c) => At(c, tokens[1..])
  }

  // The document after assigning v to the reference at(ptr).
  function Put(j: Json, tokens: seq<string>, v: Json): Json
    requires At(j, tokens).Ok?
  {
    if tokens == [] then v
    else SetChild(j, tokens[0], Put(Child(j, tokens[0]).value, tokens[1..], v))
  }

  lemma SetChildOk(j: Json, token: string, v: Json, w: Json)
    requires Child(j, token).Ok?
    ensures Child(SetChild(j, token, v), token) == Ok(v)
    ensures SetChild(SetChild(j, token, v), token, w) == SetChild(j, token, w)
    ensures v == Child(j, token).value ==> SetChild(j, token, v) == j
  {
  }

  lemma {:induction false} PutOk(j: Json, tokens: seq<string>, v: Json, w: Json)
    requires At(j, tokens).Ok?
    ensures At(Put(j, tokens, v), tokens) == Ok(v)
    ensures Put(Put(j, tokens, v), tokens, w) == Put(j, tokens, w)
  {
    if tokens != [] {
      var c := Child(j, tokens[0]).value;
      PutOk(c, tokens[1..], v, w);
      SetChildOk(j, tokens[0], Put(c, tokens[1..], v), Put(c, tokens[1..], w));
    }
  }

  lemma {:induction false} PutSame(j: Json, tokens: seq<string>)
    requires At(j, tokens).Ok?
    ensures Put(j, tokens, At(j, tokens).value) == j
  {
    if tokens != [] {
      PutSame(Child(j, tokens[0]).value, tokens[1..]);
      SetChildOk(j, tokens[0], Child(j, tokens[0]).value, Null);
    }
  }

  lemma {:induction false} AtAppend(j: Json, a: seq<string>, b: seq<string>)
    requires At(j, a).Ok?
    ensures At(j, a + b) == At(At(j, a).value, b)
    ensures At(j, a + b).Ok? ==> forall v :: Put(j, a + b, v) == Put(j, a, Put(At(j, a).value, b, v))
  {
    if a == [] {
      assert a + b == b;
    } else {
      assert (a + b)[1..] == a[1..] + b;
      AtAppend(Child(j, a[0]).value, a[1..], b);
    }
  }

  lemma AtOne(j: Json, token: string)
    ensures At(j, [token]) == Child(j, token)
    ensures Child(j, token).Ok? ==> forall v :: Put(j, [token], v) == SetChild(j, token, v)
  {
    assert [token][1..] == [];
  }

  lemma AtPrefix(j: Json, tokens: seq<string>)
    requires At(j, tokens).Ok? && tokens != []
    ensures At(j, tokens[..1]).Ok?
  {
    assert tokens[..1] == [tokens[0]];
    AtOne(j, tokens[0]);
  }

  // Inside a replaced value: what is found there, and what replacing it again means.
  lemma Below(doc: Json, pre: seq<string>, x: Json, token: string, v: Json)
    requires At(doc, pre).Ok? && Child(x, token).Ok?
    ensures At(Put(doc, pre, x), pre + [token]) == Child(x, token)
    ensures Put(Put(doc, pre, x), pre + [token], v) == Put(doc, pre, SetChild(x, token, v))
  {
    PutOk(doc, pre, x, SetChild(x, token, v));
    AtAppend(Put(doc, pre, x), pre, [token]);
    AtOne(x, token);
  }
}
