/**
 * What the operations of a JSON Patch do to a document, in terms of what pointers find before and after
 * (section 4 of RFC 6902), what JSON Pointer strings mean, and what a merge patch does to each member.
 */
module JsonLaws {
  import opened JsonPointer
  import opened JsonPatch

  // ---- array indices ---------------------------------------------------------------------------

  lemma DigitBack(c: char)
    requires IsDigit(c)
    ensures Decimal([c]) == c as int - '0' as int && ToString(Decimal([c])) == [c]
  {
    assert [c][..0] == "";
  }

  lemma DigitsSnoc(t: string, c: char)
    requires (forall d :: d in t ==> IsDigit(d)) && IsDigit(c)
    ensures (forall d :: d in t + [c] ==> IsDigit(d)) && Decimal(t + [c]) == Decimal(t) * 10 + (c as int - '0' as int)
    ensures Decimal(t) > 0 ==> ToString(Decimal(t + [c])) == ToString(Decimal(t)) + [c]
  {
    assert (t + [c])[..|t|] == t;
  }

  // Digits without a leading zero are the decimal notation of their number.
  lemma {:induction false} CanonicalDigits(s: string)
    requires s != "" && (forall c :: c in s ==> IsDigit(c)) && (|s| > 1 ==> s[0] != '0')
    ensures ToString(Decimal(s)) == s
    ensures s[0] != '0' ==> Decimal(s) > 0
  {
    var n := |s| - 1;
    assert s[n] in s && s[0] in s;
    hide Decimal, ToString;
    DigitBack(s[0]);
    if n == 0 {
      assert s == [s[0]];
    } else {
      var t := s[..n];
      assert forall c :: c in t ==> c in s;
      CanonicalDigits(t);
      assert s == t + [s[n]];
      DigitsSnoc(t, s[n]);
    }
  }

  // A token is an index exactly if it is the number in decimal notation, and small enough.
  lemma IndexIff(s: string, i: nat)
    ensures ArrayIndex(s) == Ok(i) <==> i < SIZE_MAX && s == ToString(i)
  {
    if ArrayIndex(s) == Ok(i) {
      assert |s| > 1 ==> s[0] in s;
      CanonicalDigits(s);
    }
    if i < SIZE_MAX {
      IndexRoundTrip(i);
    }
  }

  // ---- pointer strings -------------------------------------------------------------------------

  // A slash and the escaped token, for each token.
  function Text(tokens: seq<string>): string {
    if tokens == [] then "" else Text(tokens[..|tokens| - 1]) + "/" + Escape(tokens[|tokens| - 1])
  }

  lemma {:induction false} ParseText(tokens: seq<string>)
    ensures Parse(Text(tokens)) == Ok(tokens)
  {
    hide Parse, Escape;
    if tokens == [] {
      ParseEmpty();
    } else {
      var n := |tokens| - 1;
      ParseText(tokens[..n]);
      ParseKey(Text(tokens[..n]), tokens[n]);
      assert tokens[..n] + [tokens[n]] == tokens;
    }
  }

  lemma UnescapeCons(s: string)
    requires s != "" && WellEscaped(s)
    ensures s[0] == '~' ==> |s| >= 2 && WellEscaped(s[2..]) && Unescape(s) == [if s[1] == '0' then '~' else '/'] + Unescape(s[2..])
    ensures s[0] != '~' ==> WellEscaped(s[1..]) && Unescape(s) == [s[0]] + Unescape(s[1..])
  {
    if s[0] == '~' {
      var r := ReplaceAll(s[2..], "~1", "/");
      if s[1] == '0' {
        assert s[..2] == "~0" && s[1..][0] == '0' && s[1..][1..] == s[2..];
        PlainHead(s[1..], "~1", "/");
        assert ReplaceAll(s, "~1", "/") == "~" + ("0" + r) == "~0" + r;
        assert ("~0" + r)[..2] == "~0" && ("~0" + r)[2..] == r;
      } else {
        assert s[..2] == "~1";
        assert ("/" + r)[1..] == r;
        PlainHead("/" + r, "~0", "~");
      }
    } else {
      PlainHead(s, "~1", "/");
      var r := ReplaceAll(s[1..], "~1", "/");
      assert ([s[0]] + r)[1..] == r;
      PlainHead([s[0]] + r, "~0", "~");
    }
  }

  // Escaping undoes unescaping.
  lemma {:induction false} EscapeUnescape(s: string)
    requires WellEscaped(s) && '/' !in s
    ensures Escape(Unescape(s)) == s
    decreases |s|
  {
    hide Escape, Unescape;
    if s == "" {
      assert Escape(Unescape("")) == "" by { NothingEscaped(); }
    } else {
      UnescapeCons(s);
      var n := if s[0] == '~' then 2 else 1;
      assert s == s[..n] + s[n..];
      EscapeUnescape(s[n..]);
      EscapeCons(Unescape(s));
      assert Unescape(s)[1..] == Unescape(s[n..]);
      assert s[0] in s;
    }
  }

  lemma NothingEscaped()
    ensures Unescape("") == "" && Escape("") == ""
  {
  }

  lemma WellEscapedSplit(s: string, k: nat)
    requires k < |s| && s[k] == '/'
    ensures WellEscaped(s) <==> WellEscaped(s[..k]) && WellEscaped(s[k + 1..])
  {
    if WellEscaped(s) {
      forall i | 0 <= i < k && s[..k][i] == '~' ensures i + 1 < k && (s[..k][i + 1] == '0' || s[..k][i + 1] == '1') {
        assert s[i] == '~';
      }
      var tail := s[k + 1..];
      forall i | 0 <= i < |tail| && tail[i] == '~' ensures i + 1 < |tail| && (tail[i + 1] == '0' || tail[i + 1] == '1') {
        assert s[k + 1 + i] == '~';
      }
    }
    if WellEscaped(s[..k]) && WellEscaped(s[k + 1..]) {
      forall i | 0 <= i < |s| && s[i] == '~' ensures i + 1 < |s| && (s[i + 1] == '0' || s[i + 1] == '1') {
        if i < k {
          assert s[..k][i] == '~';
        } else {
          assert s[k + 1..][i - k - 1] == '~';
        }
      }
    }
  }

  lemma {:induction false} DecodeIff(s: string)
    ensures Decode(Segments(s)).Ok? <==> WellEscaped(s)
    ensures Decode(Segments(s)).Ok? ==> Text(Decode(Segments(s)).value) == "/" + s
    decreases |s|
  {
    hide Unescape, Escape, Find, WellEscaped;
    var k := Find(s, '/');
    if k == |s| {
      assert Segments(s) == [s] && [s][1..] == [];
      if WellEscaped(s) {
        NoSlash(s, k);
        EscapeUnescape(s);
        assert s[..k] == s;
        TextCons(Unescape(s), []);
        assert Decode(Segments(s)).value == [Unescape(s)] + [];
      }
    } else {
      WellEscapedSplit(s, k);
      DecodeIff(s[k + 1..]);
      assert Segments(s)[1..] == Segments(s[k + 1..]);
      if WellEscaped(s) {
        NoSlash(s, k);
        EscapeUnescape(s[..k]);
        TextCons(Unescape(s[..k]), Decode(Segments(s[k + 1..])).value);
        assert s == s[..k] + "/" + s[k + 1..];
      }
    }
  }

  lemma NoSlash(s: string, k: nat)
    requires k == Find(s, '/')
    ensures '/' !in s[..k]
  {
  }

  lemma {:induction false} TextCons(t: string, ts: seq<string>)
    ensures Text([t] + ts) == "/" + Escape(t) + Text(ts)
  {
    hide Escape;
    if ts == [] {
      assert [t] + ts == [t] && [t][..0] == [];
    } else {
      var n := |ts| - 1;
      TextCons(t, ts[..n]);
      assert ([t] + ts)[..n + 1] == [t] + ts[..n];
    }
  }

  // A string is a pointer exactly if it is empty or starts with a slash and every tilde in it is followed by
  // 0 or 1; and then the tokens, escaped, spell the string.
  lemma ParseIff(path: string)
    ensures Parse(path).Ok? <==> path == "" || (path[0] == '/' && WellEscaped(path))
    ensures Parse(path).Ok? ==> Text(Parse(path).value) == path
    ensures Parse(path) == Err(107) <==> path != "" && path[0] != '/'
  {
    if path != "" && path[0] == '/' {
      WellEscapedSplit(path, 0);
      DecodeIff(path[1..]);
      DecodeErr(Segments(path[1..]));
      assert path == "/" + path[1..];
      assert path[..0] == "";
    }
  }

  lemma {:induction false} DecodeErr(segments: seq<string>)
    ensures Decode(segments).Err? ==> Decode(segments) == Err(108)
  {
    if segments != [] {
      DecodeErr(segments[1..]);
    }
  }

  // ---- replacing a value leaves the others alone -----------------------------------------------

  lemma ChildOther(j: Json, t: string, u: string, v: Json)
    requires Child(j, t).Ok? && u != t
    ensures Child(SetChild(j, t, v), u) == Child(j, u)
  {
    if j.Arr? && ArrayIndex(u).Ok? && ArrayIndex(u) == ArrayIndex(t) {
      IndexIff(u, ArrayIndex(u).value);
      IndexIff(t, ArrayIndex(u).value);
    }
  }

  lemma {:induction false} PutFrame(j: Json, pre: seq<string>, x: Json, q: seq<string>)
    requires At(j, pre).Ok? && !(pre <= q) && !(q <= pre)
    ensures At(Put(j, pre, x), q) == At(j, q)
  {
    var c := Child(j, pre[0]).value;
    var y := Put(c, pre[1..], x);
    hide Child, SetChild, Put;
    if q[0] == pre[0] {
      assert pre == [pre[0]] + pre[1..] && q == [q[0]] + q[1..];
      PutFrame(c, pre[1..], x, q[1..]);
      SetChildOk(j, pre[0], y, y);
      PutCons(j, pre, x);
    } else {
      ChildOther(j, pre[0], q[0], y);
      PutCons(j, pre, x);
    }
  }

  lemma PutCons(j: Json, pre: seq<string>, x: Json)
    requires At(j, pre).Ok? && pre != []
    ensures Child(j, pre[0]).Ok? && At(Child(j, pre[0]).value, pre[1..]).Ok?
    ensures Put(j, pre, x) == SetChild(j, pre[0], Put(Child(j, pre[0]).value, pre[1..], x))
  {
  }

  // What is found below a replaced value.
  lemma PutInside(j: Json, pre: seq<string>, x: Json, q: seq<string>)
    requires At(j, pre).Ok? && pre <= q
    ensures At(Put(j, pre, x), q) == At(x, q[|pre|..])
    ensures At(j, q) == At(At(j, pre).value, q[|pre|..])
  {
    assert q == pre + q[|pre|..];
    PutOk(j, pre, x, x);
    AtAppend(Put(j, pre, x), pre, q[|pre|..]);
    AtAppend(j, pre, q[|pre|..]);
  }

  // ---- adding ----------------------------------------------------------------------------------

  function Above(ptr: seq<string>): seq<string>
    requires ptr != []
  {
    ptr[..|ptr| - 1]
  }

  function Last(ptr: seq<string>): string
    requires ptr != []
  {
    ptr[|ptr| - 1]
  }

  // v has been put into array a before what was at index i.
  predicate Inserted(a: seq<Json>, i: nat, v: Json, b: seq<Json>) {
    i <= |a| && |b| == |a| + 1 && b[i] == v && b[..i] == a[..i] && b[i + 1..] == a[i..]
  }

  // The parent of the target after an addition: the named member, or the element at the index or the end.
  predicate Gains(parent: Json, last: string, v: Json, now: Json) {
    match parent
    case Null => now == Obj(map[last := v])
    case Obj(m) => now.Obj? && last in now.m && now.m[last] == v && now.m.Keys == m.Keys + {last}
                   && forall k :: k in m && k != last ==> now.m[k] == m[k]
    case Arr(a) => now.Arr? && Inserted(a, if last == "-" then |a| else if ArrayIndex(last).Ok? then ArrayIndex(last).value else 0, v, now.a)
                   && (last == "-" || ArrayIndex(last).Ok?)
    case _ => false
  }

  // p is not moved when something is added or removed at q: they part before the end of both, and p is not
  // behind q in an array.
  predicate Apart(doc: Json, p: seq<string>, q: seq<string>) {
    q != [] && !(p <= q) && !(q <= p) && (Above(q) <= p ==> At(doc, Above(q)).Ok? && At(doc, Above(q)).value.Obj?)
  }

  lemma AddToGains(parent: Json, last: string, v: Json)
    requires AddTo(parent, last, v).Done?
    ensures Gains(parent, last, v, AddTo(parent, last, v).j)
  {
  }

  // An addition that succeeds puts v at its place, and every pointer apart from that finds what it found.
  lemma Adds(doc: Json, ptr: seq<string>, v: Json, now: Json)
    requires OpAdd(doc, ptr, v) == Done(now)
    ensures ptr == [] ==> now == v
    ensures ptr != [] ==> At(doc, Above(ptr)).Ok? && At(now, Above(ptr)).Ok?
                          && Gains(At(doc, Above(ptr)).value, Last(ptr), v, At(now, Above(ptr)).value)
    ensures forall p {:trigger At(now, p)} :: Apart(doc, p, ptr) ==> At(now, p) == At(doc, p)
  {
    if ptr != [] {
      var pre, last := Above(ptr), Last(ptr);
      var parent := At(doc, pre).value;
      var x := AddTo(parent, last, v).j;
      AddToGains(parent, last, v);
      hide AddTo, Gains;
      PutOk(doc, pre, x, x);
      forall p {:trigger At(now, p)} | Apart(doc, p, ptr) ensures At(now, p) == At(doc, p) {
        AddApart(doc, ptr, v, p);
      }
    }
  }

  lemma AddApart(doc: Json, ptr: seq<string>, v: Json, p: seq<string>)
    requires OpAdd(doc, ptr, v).Done? && Apart(doc, p, ptr)
    ensures At(OpAdd(doc, ptr, v).j, p) == At(doc, p)
  {
    var pre, last := Above(ptr), Last(ptr);
    var parent := At(doc, pre).value;
    var x := AddTo(parent, last, v).j;
    assert ptr == pre + [last];
    if pre <= p {
      PutInside(doc, pre, x, p);
      OtherMember(parent, x, last, p[|pre|..], pre, p);
    } else {
      PutFrame(doc, pre, x, p);
    }
  }

  // Two objects that differ in one member only.
  lemma OtherMember(a: Json, b: Json, last: string, q: seq<string>, pre: seq<string>, p: seq<string>)
    requires a.Obj? && b.Obj? && p == pre + q && !(pre + [last] <= p) && !(p <= pre + [last])
    requires forall k :: k != last ==> (k in a.m <==> k in b.m) && (k in a.m ==> a.m[k] == b.m[k])
    ensures At(a, q) == At(b, q)
  {
    assert q != [] ==> (q[0] == last <==> pre + [last] <= p);
    assert q == [] ==> p == pre;
  }

  // ---- removing --------------------------------------------------------------------------------

  // The parent after a removal.
  predicate Loses(parent: Json, last: string, now: Json) {
    match parent
    case Obj(m) => last in m && now.Obj? && now.m.Keys == m.Keys - {last} && forall k :: k in now.m ==> now.m[k] == m[k]
    case Arr(a) =>
      && ArrayIndex(last).Ok? && ArrayIndex(last).value < |a| && now.Arr? && |now.a| == |a| - 1
      && var i := ArrayIndex(last).value; now.a[..i] == a[..i] && now.a[i..] == a[i + 1..]
    case _ => now == parent
  }

  lemma Removes(doc: Json, ptr: seq<string>, now: Json)
    requires OpRemove(doc, ptr) == Done(now)
    ensures ptr != [] && At(doc, Above(ptr)).Ok? && At(now, Above(ptr)).Ok?
    ensures Loses(At(doc, Above(ptr)).value, Last(ptr), At(now, Above(ptr)).value)
    ensures forall p {:trigger At(now, p)} :: Apart(doc, p, ptr) ==> At(now, p) == At(doc, p)
  {
    var pre, last := Above(ptr), Last(ptr);
    var parent := At(doc, pre).value;
    var x := RemoveFrom(parent, last).j;
    PutOk(doc, pre, x, x);
    forall p {:trigger At(now, p)} | Apart(doc, p, ptr) ensures At(now, p) == At(doc, p) {
      RemoveApart(doc, ptr, p);
    }
  }

  lemma RemoveApart(doc: Json, ptr: seq<string>, p: seq<string>)
    requires OpRemove(doc, ptr).Done? && Apart(doc, p, ptr)
    ensures At(OpRemove(doc, ptr).j, p) == At(doc, p)
  {
    var pre, last := Above(ptr), Last(ptr);
    var parent := At(doc, pre).value;
    var x := RemoveFrom(parent, last).j;
    assert ptr == pre + [last];
    if pre <= p {
      PutInside(doc, pre, x, p);
      OtherMember(parent, x, last, p[|pre|..], pre, p);
    } else {
      PutFrame(doc, pre, x, p);
    }
  }

  // ---- equality --------------------------------------------------------------------------------

  lemma {:induction false} EqSymmetric(a: Json, b: Json)
    requires Eq(a, b)
    ensures Eq(b, a)
    decreases a
  {
    match (a, b)
    case (Arr(x), Arr(y)) =>
      forall i | 0 <= i < |x| ensures Eq(y[i], x[i]) {
        EqSymmetric(x[i], y[i]);
      }
    case (Obj(x), Obj(y)) =>
      forall k | k in x ensures Eq(y[k], x[k]) {
        EqSymmetric(x[k], y[k]);
      }
    case _ =>
  }

  // ---- the operations of a patch ---------------------------------------------------------------

  predicate Has(val: Json, member: string, s: string) { val.Obj? && member in val.m && val.m[member] == Str(s) }

  predicate IsOp(val: Json, op: string, ptr: seq<string>) {
    Has(val, "op", op) && PointerMember(val, "path") == Ok(ptr)
  }

  lemma OpIs(doc: Json, val: Json, op: string, ptr: seq<string>)
    requires IsOp(val, op, ptr)
    ensures ApplyOp(doc, val) == Perform(doc, val, op, ptr)
  {
    hide Perform;
  }

  // add
  lemma AddLaw(doc: Json, val: Json, t: seq<string>, now: Json)
    requires IsOp(val, "add", t) && ApplyOp(doc, val) == Done(now)
    ensures "value" in val.m
    ensures t == [] ==> now == val.m["value"]
    ensures t != [] ==> At(doc, Above(t)).Ok? && At(now, Above(t)).Ok?
                        && Gains(At(doc, Above(t)).value, Last(t), val.m["value"], At(now, Above(t)).value)
    ensures forall p {:trigger At(now, p)} :: Apart(doc, p, t) ==> At(now, p) == At(doc, p)
  {
    OpIs(doc, val, "add", t);
    hide OpAdd, Gains, ApplyOp, Apart;
    Adds(doc, t, val.m["value"], now);
  }

  // A parent can take a member or an element.
  predicate Takes(parent: Json, last: string) {
    match parent
    case Null => true
    case Obj(_) => true
    case Arr(a) => last == "-" || exists i: nat {:trigger ToString(i)} :: i < SIZE_MAX && i <= |a| && last == ToString(i)
    case _ => false
  }

  lemma AddToDone(parent: Json, last: string, v: Json)
    ensures AddTo(parent, last, v).Done? <==> Takes(parent, last)
  {
    if parent.Arr? && last != "-" {
      hide ToString, ArrayIndex;
      if ArrayIndex(last).Ok? {
        IndexIff(last, ArrayIndex(last).value);
      }
      forall i: nat {:trigger ToString(i)} | i < SIZE_MAX && last == ToString(i) ensures ArrayIndex(last) == Ok(i) {
        IndexIff(last, i);
      }
    }
  }

  // It succeeds exactly if the parent is there and can take a member or an element.
  lemma AddSucceeds(doc: Json, t: seq<string>, v: Json)
    ensures OpAdd(doc, t, v).Done? <==> t == [] || (At(doc, Above(t)).Ok? && Takes(At(doc, Above(t)).value, Last(t)))
  {
    if t != [] && At(doc, Above(t)).Ok? {
      AddToDone(At(doc, Above(t)).value, Last(t), v);
      if |t| > 1 {
        AtPrefix(doc, Above(t));
        assert Above(t)[..1] == t[..1];
      }
      hide Takes, AddTo;
    }
  }

  // remove
  lemma RemoveLaw(doc: Json, val: Json, f: seq<string>, now: Json)
    requires IsOp(val, "remove", f) && ApplyOp(doc, val) == Done(now)
    ensures f != [] && At(doc, Above(f)).Ok? && At(now, Above(f)).Ok?
    ensures Loses(At(doc, Above(f)).value, Last(f), At(now, Above(f)).value)
    ensures forall p {:trigger At(now, p)} :: Apart(doc, p, f) ==> At(now, p) == At(doc, p)
  {
    OpIs(doc, val, "remove", f);
    hide OpRemove, Loses, ApplyOp, Apart;
    Removes(doc, f, now);
  }

  // A removal of what is not there is an error, unless the parent is there and is neither an object nor an array.
  lemma RemoveSilent(doc: Json, f: seq<string>)
    ensures OpRemove(doc, f).Done? && At(doc, f).Err? <==>
            f != [] && At(doc, Above(f)).Ok? && !At(doc, Above(f)).value.Obj? && !At(doc, Above(f)).value.Arr?
    ensures At(doc, f).Ok? && f != [] ==> OpRemove(doc, f).Done?
  {
    hide *;
    RemoveDone(doc, f);
    if f != [] {
      if At(doc, Above(f)).Ok? {
        FoundBelow(doc, f);
        RemoveFromDone(At(doc, Above(f)).value, Last(f));
      } else {
        assert f == Above(f) + [Last(f)] by { Rejoin(f); }
        ErrBelow(doc, Above(f), [Last(f)]);
      }
    }
  }

  lemma Rejoin(f: seq<string>)
    requires f != []
    ensures f == Above(f) + [Last(f)]
  {
  }

  lemma FoundBelow(doc: Json, f: seq<string>)
    requires f != [] && At(doc, Above(f)).Ok?
    ensures At(doc, f) == Child(At(doc, Above(f)).value, Last(f))
  {
    hide At, Child;
    Rejoin(f);
    AtAppend(doc, Above(f), [Last(f)]);
    AtOne(At(doc, Above(f)).value, Last(f));
  }

  lemma RemoveDone(doc: Json, f: seq<string>)
    ensures OpRemove(doc, f).Done? <==>
            f != [] && At(doc, Above(f)).Ok? && RemoveFrom(At(doc, Above(f)).value, Last(f)).Done?
  {
    hide At, RemoveFrom, Put;
  }

  lemma RemoveFromDone(parent: Json, last: string)
    ensures RemoveFrom(parent, last).Done? <==> Child(parent, last).Ok? || !(parent.Obj? || parent.Arr?)
    ensures Child(parent, last).Ok? ==> parent.Obj? || parent.Arr?
  {
    if parent.Arr? && last == "-" {
      assert ArrayIndex("-").Err? by { assert '-' in "-"; }
    }
  }

  lemma {:induction false} ErrBelow(j: Json, a: seq<string>, b: seq<string>)
    requires At(j, a).Err?
    ensures At(j, a + b) == At(j, a)
  {
    assert (a + b)[0] == a[0] && (a + b)[1..] == a[1..] + b;
    if Child(j, a[0]).Ok? {
      ErrBelow(Child(j, a[0]).value, a[1..], b);
    }
  }

  // replace
  lemma ReplaceLaw(doc: Json, val: Json, t: seq<string>)
    requires IsOp(val, "replace", t) && "value" in val.m
    ensures ApplyOp(doc, val).Done? <==> At(doc, t).Ok?
    ensures ApplyOp(doc, val).Done? ==>
      && At(ApplyOp(doc, val).j, t) == Ok(val.m["value"])
      && forall p {:trigger At(doc, p)} :: !(p <= t) && !(t <= p) ==> At(ApplyOp(doc, val).j, p) == At(doc, p)
  {
    OpIs(doc, val, "replace", t);
    hide ApplyOp;
    if At(doc, t).Ok? {
      PutOk(doc, t, val.m["value"], Null);
      forall p {:trigger At(doc, p)} | !(p <= t) && !(t <= p) ensures At(ApplyOp(doc, val).j, p) == At(doc, p) {
        PutFrame(doc, t, val.m["value"], p);
      }
    }
  }

  // test: it succeeds exactly if a value is found and equal, and never changes the document.
  lemma TestLaw(doc: Json, val: Json, t: seq<string>)
    requires IsOp(val, "test", t) && "value" in val.m
    ensures ApplyOp(doc, val).Done? <==> At(doc, t).Ok? && Eq(At(doc, t).value, val.m["value"])
    ensures ApplyOp(doc, val).j == doc
    ensures At(doc, t).Ok? && !Eq(At(doc, t).value, val.m["value"]) ==> ApplyOp(doc, val) == Thrown(doc, 501)
  {
    OpIs(doc, val, "test", t);
  }

  // copy: the value goes to the target, and what is apart from the target, such as the source, stays.
  lemma CopyLaw(doc: Json, val: Json, f: seq<string>, t: seq<string>, now: Json)
    requires IsOp(val, "copy", t) && PointerMember(val, "from") == Ok(f) && ApplyOp(doc, val) == Done(now)
    ensures At(doc, f).Ok?
    ensures t == [] ==> now == At(doc, f).value
    ensures t != [] ==> At(doc, Above(t)).Ok? && At(now, Above(t)).Ok?
                        && Gains(At(doc, Above(t)).value, Last(t), At(doc, f).value, At(now, Above(t)).value)
    ensures Apart(doc, f, t) ==> At(now, f) == At(doc, f)
    ensures forall p {:trigger At(now, p)} :: Apart(doc, p, t) ==> At(now, p) == At(doc, p)
  {
    OpIs(doc, val, "copy", t);
    hide OpAdd, Gains, ApplyOp, Apart;
    Adds(doc, t, At(doc, f).value, now);
    assert At(now, f) == At(now, f);
  }

  // Above a replaced value objects stay objects.
  lemma {:induction false} PutAbove(j: Json, pre: seq<string>, x: Json, p: seq<string>)
    requires At(j, pre).Ok? && p < pre
    ensures At(j, p).Ok? && At(Put(j, pre, x), p).Ok?
    ensures At(j, p).value.Obj? <==> At(Put(j, pre, x), p).value.Obj?
    ensures At(j, p).value.Obj? || At(j, p).value.Arr?
  {
    PutCons(j, pre, x);
    var c := Child(j, pre[0]).value;
    if p != [] {
      assert p[0] == pre[0] && p[1..] < pre[1..];
      PutAbove(c, pre[1..], x, p[1..]);
      SetChildOk(j, pre[0], Put(c, pre[1..], x), Null);
    }
  }

  // move of a value to a target apart from it: the target has the value, the source has lost it, and what is
  // apart from both stays.
  lemma MoveLaw(doc: Json, val: Json, f: seq<string>, t: seq<string>, now: Json)
    requires IsOp(val, "move", t) && PointerMember(val, "from") == Ok(f) && ApplyOp(doc, val) == Done(now)
    requires Apart(doc, f, t) && Apart(doc, t, f)
    ensures At(doc, f).Ok? && At(doc, Above(f)).Ok? && At(doc, Above(t)).Ok? && At(now, Above(t)).Ok?
    ensures At(doc, Above(t)).value.Obj? ==> At(now, t) == At(doc, f)
    ensures !At(doc, Above(t)).value.Obj? ==> Gains(At(doc, Above(t)).value, Last(t), At(doc, f).value, At(now, Above(t)).value)
    ensures At(doc, Above(f)).value.Obj? ==> At(now, f).Err?
    ensures At(doc, Above(f)).value.Arr? ==> At(now, Above(f)).Ok? && Loses(At(doc, Above(f)).value, Last(f), At(now, Above(f)).value)
    ensures forall p {:trigger At(now, p)} :: Apart(doc, p, f) && Apart(doc, p, t) ==> At(now, p) == At(doc, p)
  {
    OpIs(doc, val, "move", t);
    hide ApplyOp;
    var mid := OpRemove(doc, f).j;
    var v := At(doc, f).value;
    hide OpAdd;
    Removes(doc, f, mid);
    Adds(mid, t, v, now);
    MoveTarget(doc, f, t, mid, v, now);
    MoveSource(doc, f, t, mid, now);
    forall p {:trigger At(now, p)} | Apart(doc, p, f) && Apart(doc, p, t) ensures At(now, p) == At(doc, p) {
      StillApart(doc, f, t, mid, p);
      assert At(mid, p) == At(doc, p);
    }
  }

  // The parent of the target is the same kind of value without the source.
  lemma TargetParent(doc: Json, f: seq<string>, t: seq<string>, mid: Json)
    requires OpRemove(doc, f) == Done(mid) && At(doc, f).Ok? && Apart(doc, f, t) && Apart(doc, t, f) && At(mid, Above(t)).Ok?
    ensures At(doc, Above(t)).Ok? && (At(mid, Above(t)).value.Obj? <==> At(doc, Above(t)).value.Obj?)
    ensures !At(doc, Above(t)).value.Obj? ==> At(mid, Above(t)) == At(doc, Above(t))
  {
    var pre := Above(f);
    var x := RemoveFrom(At(doc, pre).value, Last(f)).j;
    var a := Above(t);
    if a <= f {
      assert a != f;
      assert a <= pre;
      if a == pre {
        PutOk(doc, pre, x, x);
      } else {
        PutAbove(doc, pre, x, a);
      }
    } else {
      assert !(f <= a);
      assert Above(f) <= a ==> Above(f) <= t;
      RemoveApart(doc, f, a);
    }
  }

  lemma StillApart(doc: Json, f: seq<string>, t: seq<string>, mid: Json, p: seq<string>)
    requires OpRemove(doc, f) == Done(mid) && At(doc, f).Ok? && Apart(doc, f, t) && Apart(doc, t, f) && At(mid, Above(t)).Ok?
    requires Apart(doc, p, t)
    ensures Apart(mid, p, t)
  {
    hide OpRemove, At;
    TargetParent(doc, f, t, mid);
  }

  lemma MoveTarget(doc: Json, f: seq<string>, t: seq<string>, mid: Json, v: Json, now: Json)
    requires OpRemove(doc, f) == Done(mid) && At(doc, f).Ok? && Apart(doc, f, t) && Apart(doc, t, f) && At(mid, Above(t)).Ok?
    requires At(now, Above(t)).Ok? && Gains(At(mid, Above(t)).value, Last(t), v, At(now, Above(t)).value)
    ensures At(doc, Above(t)).Ok?
    ensures At(doc, Above(t)).value.Obj? ==> At(now, t) == Ok(v)
    ensures !At(doc, Above(t)).value.Obj? ==> Gains(At(doc, Above(t)).value, Last(t), v, At(now, Above(t)).value)
  {
    hide OpRemove;
    TargetParent(doc, f, t, mid);
    if At(doc, Above(t)).value.Obj? {
      assert t == Above(t) + [Last(t)];
      AtAppend(now, Above(t), [Last(t)]);
      AtOne(At(now, Above(t)).value, Last(t));
    }
  }

  lemma MoveSource(doc: Json, f: seq<string>, t: seq<string>, mid: Json, now: Json)
    requires OpRemove(doc, f) == Done(mid) && At(doc, f).Ok? && Apart(doc, f, t) && Apart(doc, t, f) && At(mid, Above(t)).Ok?
    requires forall p {:trigger At(now, p)} :: Apart(mid, p, t) ==> At(now, p) == At(mid, p)
    ensures At(doc, Above(f)).Ok?
    ensures At(doc, Above(f)).value.Obj? ==> At(now, f).Err?
    ensures At(doc, Above(f)).value.Arr? ==> At(now, Above(f)).Ok? && Loses(At(doc, Above(f)).value, Last(f), At(now, Above(f)).value)
  {
    hide OpRemove, At, Apart;
    Removes(doc, f, mid);
    StillApart(doc, f, t, mid, f);
    assert At(now, f) == At(mid, f);
    FoundBelow(mid, f);
    if At(doc, Above(f)).value.Arr? {
      ParentApart(doc, f, t);
      StillApart(doc, f, t, mid, Above(f));
      assert At(now, Above(f)) == At(mid, Above(f));
    }
  }

  lemma ParentApart(doc: Json, f: seq<string>, t: seq<string>)
    requires Apart(doc, f, t) && Apart(doc, t, f) && At(doc, Above(f)).Ok? && At(doc, Above(f)).value.Arr?
    ensures Apart(doc, Above(f), t)
  {
    assert Above(t) <= Above(f) ==> Above(t) <= f;
    assert t <= Above(f) ==> t <= f;
  }

  // An operation that fails leaves the document as it was, except that a move may have removed the source.
  lemma FailureLaw(doc: Json, val: Json)
    requires !ApplyOp(doc, val).Done?
    ensures ApplyOp(doc, val).j == doc
            || (Has(val, "op", "move") && PointerMember(val, "from").Ok? && At(doc, PointerMember(val, "from").value).Ok?
                && OpRemove(doc, PointerMember(val, "from").value) == Done(ApplyOp(doc, val).j))
  {
    hide OpRemove, At, Parse;
    assert forall d: Json, ptr: seq<string>, v: Json :: !OpAdd(d, ptr, v).Done? ==> OpAdd(d, ptr, v).j == d;
    assert forall d: Json, ptr: seq<string> :: !OpRemove(d, ptr).Done? ==> OpRemove(d, ptr).j == d by {
      forall d: Json, ptr: seq<string> ensures !OpRemove(d, ptr).Done? ==> OpRemove(d, ptr).j == d {
        RemoveFails(d, ptr);
      }
    }
  }

  lemma RemoveFails(doc: Json, ptr: seq<string>)
    ensures !OpRemove(doc, ptr).Done? ==> OpRemove(doc, ptr).j == doc
  {
  }

  // ---- merge patch -----------------------------------------------------------------------------

  // A patch that is no object takes the place of the target; of an object, null removes a member, any other
  // value is merged into it, and members the patch does not name stay.
  lemma MergeLaw(t: Json, p: Json)
    ensures !p.Obj? ==> Merge(t, p) == p
    ensures p.Obj? ==> Merge(t, p).Obj?
    ensures p.Obj? ==> forall k {:trigger Child(Merge(t, p), k)} ::
      Child(Merge(t, p), k) ==
        if k in p.m then (if p.m[k].Null? then Err(403) else Ok(Merge(if Child(t, k).Ok? && t.Obj? then Child(t, k).value else Null, p.m[k])))
        else if t.Obj? then Child(t, k) else Err(403)
  {
  }

  predicate NoNulls(p: Json) {
    match p
    case Obj(m) => forall k :: k in m ==> !m[k].Null? && NoNulls(m[k])
    case _ => true
  }

  // Without nulls in it, a merge patch of no object is the result.
  lemma {:induction false} MergeFresh(t: Json, p: Json)
    requires !t.Obj? && NoNulls(p)
    ensures Merge(t, p) == p
    decreases p
  {
    if p.Obj? {
      forall k | k in p.m ensures Merge(Null, p.m[k]) == p.m[k] {
        MergeFresh(Null, p.m[k]);
      }
    }
  }

  // No null comes out of a merge but from the target.
  lemma {:induction false} MergeNoNulls(t: Json, p: Json)
    requires NoNulls(t)
    ensures NoNulls(Merge(t, p)) && (p.Obj? ==> !Merge(t, p).Null?)
    decreases p
  {
    if p.Obj? {
      forall k | k in p.m && !p.m[k].Null? ensures NoNulls(Merge(if t.Obj? && k in t.m then t.m[k] else Null, p.m[k])) {
        MergeNoNulls(if t.Obj? && k in t.m then t.m[k] else Null, p.m[k]);
      }
    }
  }
}
