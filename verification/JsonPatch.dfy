/**
 * JSON Patch (RFC 6902) as in basic_json: patch_inplace applies a patch document to a value and
 * diff computes one; merge_patch is RFC 7396.  A thrown exception leaves the operations already
 * applied in place.  Objects are finite maps; loops over an object's members visit the keys in an
 * order left open, which covers the sorted order of the code.
 */
module JsonPatch {
  import opened JsonPointer

  // ---- equality --------------------------------------------------------------------------------

  datatype Type =
    | TNull | TBoolean | TInteger | TUnsigned | TFloat | TString | TBinary | TDiscarded | TArray | TObject

  function TypeOf(j: Json): Type {
    match j
    case Null => TNull
    case Boolean(_) => TBoolean
    case Integer(_) => TInteger
    case Unsigned(_) => TUnsigned
    case Number(_) => TFloat
    case Str(_) => TString
    case Binary(_) => TBinary
    case Discarded => TDiscarded
    case Arr(_) => TArray
    case Obj(_) => TObject
  }

  // static_cast<number_integer_t> of a 64-bit unsigned value
  function ToSigned(u: nat): int { if u > 0x7FFF_FFFF_FFFF_FFFF then u - 0x1_0000_0000_0000_0000 else u }

  predicate FloatIs(f: Float, i: int) { f == Value(i as real) }

  // operator==
  predicate Eq(a: Json, b: Json) {
    match (a, b)
    case (Null, Null) => true
    case (Boolean(x), Boolean(y)) => x == y
    case (Integer(x), Integer(y)) => x == y
    case (Unsigned(x), Unsigned(y)) => x == y
    case (Number(x), Number(y)) => x == y && x != NaN
    case (Integer(x), Number(y)) => FloatIs(y, x)
    case (Number(x), Integer(y)) => FloatIs(x, y)
    case (Unsigned(x), Number(y)) => FloatIs(y, x)
    case (Number(x), Unsigned(y)) => FloatIs(x, y)
    case (Unsigned(x), Integer(y)) => ToSigned(x) == y
    case (Integer(x), Unsigned(y)) => x == ToSigned(y)
    case (Str(x), Str(y)) => x == y
    case (Binary(x), Binary(y)) => x == y
    case (Arr(x), Arr(y)) => |x| == |y| && forall i :: 0 <= i < |x| ==> Eq(x[i], y[i])
    case (Obj(x), Obj(y)) => x.Keys == y.Keys && forall k :: k in x && k in y ==> Eq(x[k], y[k])
    case _ => false
  }

  // No NaN and no discarded value anywhere.
  predicate Clean(j: Json) {
    match j
    case Number(f) => f != NaN
    case Discarded => false
    case Arr(a) => forall i :: 0 <= i < |a| ==> Clean(a[i])
    case Obj(m) => forall k :: k in m ==> Clean(m[k])
    case _ => true
  }

  lemma {:induction false} EqClean(a: Json, b: Json)
    requires Eq(a, b)
    ensures Clean(b)
    decreases b
  {
    match b
    case Arr(y) =>
      forall i | 0 <= i < |y| ensures Clean(y[i]) {
        EqClean(a.a[i], y[i]);
      }
    case Obj(y) =>
      forall k | k in y ensures Clean(y[k]) {
        assert k in a.m.Keys;
        EqClean(a.m[k], y[k]);
      }
    case _ =>
  }

  // Nothing is equal to a value that is not clean.
  lemma NotEq(a: Json, b: Json)
    requires !Clean(b)
    ensures !Eq(a, b)
  {
    if Eq(a, b) {
      EqClean(a, b);
    }
  }

  lemma {:induction false} EqRefl(a: Json)
    requires Clean(a)
    ensures Eq(a, a)
  {
    match a
    case Arr(x) =>
      forall i | 0 <= i < |x| ensures Eq(x[i], x[i]) {
        EqRefl(x[i]);
      }
    case Obj(x) =>
      forall k | k in x ensures Eq(x[k], x[k]) {
        EqRefl(x[k]);
      }
    case _ =>
  }

  // ---- applying a patch ------------------------------------------------------------------------

  // Done; or stopped by an exception, or by a failing JSON_ASSERT, with the value as it is then.
  datatype Outcome = Done(j: Json) | Thrown(j: Json, id: nat) | Aborted(j: Json)

  // operation_add on the parent value
  function AddTo(parent: Json, last: string, v: Json): Outcome {
    match parent
    case Null => Done(Obj(map[last := v]))
    case Obj(m) => Done(Obj(m[last := v]))
    case Arr(a) =>
      if last == "-" then Done(Arr(a + [v]))
      else (match ArrayIndex(last)
            case Err(id) => Thrown(parent, id)
            case Ok(i) => if i > |a| then Thrown(parent, 401) else Done(Arr(a[..i] + [v] + a[i..])))
    case _ => Aborted(parent)
  }

  // operation_remove on the parent value
  function RemoveFrom(parent: Json, last: string): Outcome {
    match parent
    case Obj(m) => if last in m then Done(Obj(m - {last})) else Thrown(parent, 403)
    case Arr(a) =>
      (match ArrayIndex(last)
       case Err(id) => Thrown(parent, id)
       case Ok(i) => if i >= |a| then Thrown(parent, 401) else Done(Arr(a[..i] + a[i + 1..])))
    case _ => Done(parent)
  }

  function InParent(doc: Json, pre: seq<string>, out: Outcome): Outcome
    requires At(doc, pre).Ok?
  {
    match out
    case Done(j) => Done(Put(doc, pre, j))
    case Thrown(_, id) => Thrown(doc, id)
    case Aborted(_) => Aborted(doc)
  }

  function OpAdd(doc: Json, ptr: seq<string>, v: Json): Outcome {
    if ptr == [] then Done(v)
    else if |ptr| > 1 && At(doc, ptr[..1]).Err? then Thrown(doc, At(doc, ptr[..1]).id)
    else
      var pre := ptr[..|ptr| - 1];
      match At(doc, pre)
      case Err(id) => Thrown(doc, id)
      case Ok(parent) => InParent(doc, pre, AddTo(parent, ptr[|ptr| - 1], v))
  }

  function OpRemove(doc: Json, ptr: seq<string>): Outcome {
    if ptr == [] then Thrown(doc, 405)
    else
      var pre := ptr[..|ptr| - 1];
      match At(doc, pre)
      case Err(id) => Thrown(doc, id)
      case Ok(parent) => InParent(doc, pre, RemoveFrom(parent, ptr[|ptr| - 1]))
  }

  function OpReplace(doc: Json, ptr: seq<string>, v: Json): Outcome {
    match At(doc, ptr)
    case Err(id) => Thrown(doc, id)
    case Ok(_) => Done(Put(doc, ptr, v))
  }

  // A removal followed by an addition: an exception in the second half keeps the removal.
  function OpMove(doc: Json, from: seq<string>, ptr: seq<string>): Outcome {
    match At(doc, from)
    case Err(id) => Thrown(doc, id)
    case Ok(v) =>
      match OpRemove(doc, from)
      case Done(doc') => OpAdd(doc', ptr, v)
      case stopped => stopped
  }

  function OpCopy(doc: Json, from: seq<string>, ptr: seq<string>): Outcome {
    match At(doc, from)
    case Err(id) => Thrown(doc, id)
    case Ok(v) => OpAdd(doc, ptr, v)
  }

  // Only out_of_range exceptions (numbers 4xx) of the look-up are caught.
  function OpTest(doc: Json, ptr: seq<string>, v: Json): Outcome {
    match At(doc, ptr)
    case Err(id) => Thrown(doc, if 400 <= id < 500 then 501 else id)
    case Ok(j) => if Eq(j, v) then Done(doc) else Thrown(doc, 501)
  }

  // get_value with string_type
  function StringMember(val: Json, member: string): Result<string>
    requires val.Obj?
  {
    if member !in val.m then Err(105)
    else match val.m[member]
      case Str(s) => Ok(s)
      case _ => Err(105)
  }

  function PointerMember(val: Json, member: string): Result<seq<string>>
    requires val.Obj?
  {
    match StringMember(val, member)
    case Err(id) => Err(id)
    case Ok(s) => Parse(s)
  }

  function ApplyOp(doc: Json, val: Json): Outcome {
    if !val.Obj? then Thrown(doc, 104)
    else match StringMember(val, "op")
      case Err(id) => Thrown(doc, id)
      case Ok(op) =>
        match PointerMember(val, "path")
        case Err(id) => Thrown(doc, id)
        case Ok(ptr) => Perform(doc, val, op, ptr)
  }

  function Perform(doc: Json, val: Json, op: string, ptr: seq<string>): Outcome
    requires val.Obj?
  {
    if op == "remove" then OpRemove(doc, ptr)
    else if op == "move" || op == "copy" then
      (match PointerMember(val, "from")
       case Err(id) => Thrown(doc, id)
       case Ok(from) => if op == "move" then OpMove(doc, from, ptr) else OpCopy(doc, from, ptr))
    else if op != "add" && op != "replace" && op != "test" then Thrown(doc, 105)
    else if "value" !in val.m then Thrown(doc, 105)
    else if op == "add" then OpAdd(doc, ptr, val.m["value"])
    else if op == "replace" then OpReplace(doc, ptr, val.m["value"])
    else OpTest(doc, ptr, val.m["value"])
  }

  // The operations in order, up to the first that fails.
  function ApplyAll(doc: Json, ops: seq<Json>): Outcome
    decreases |ops|
  {
    if ops == [] then Done(doc)
    else match ApplyOp(doc, ops[0])
      case Done(doc') => ApplyAll(doc', ops[1..])
      case stopped => stopped
  }

  function Patch(doc: Json, patch: Json): Outcome {
    if patch.Arr? then ApplyAll(doc, patch.a) else Thrown(doc, 104)
  }

  class Document {
    var root: Json

    constructor (j: Json)
      ensures root == j
    {
      root := j;
    }

    // patch_inplace: how it ends, and the value it leaves behind either way.
    method PatchInplace(patch: Json) returns (stopped: Outcome)
      modifies this
      ensures stopped == Patch(old(root), patch) && root == stopped.j
    {
      if !patch.Arr? {
        return Thrown(root, 104);
      }
      var i := 0;
      while i < |patch.a|
        invariant 0 <= i <= |patch.a|
        invariant ApplyAll(old(root), patch.a) == ApplyAll(root, patch.a[i..])
      {
        assert patch.a[i..][0] == patch.a[i] && patch.a[i..][1..] == patch.a[i + 1..];
        var out := ApplyOp(root, patch.a[i]);
        root := out.j;
        if !out.Done? {
          return out;
        }
        i := i + 1;
      }
      return Done(root);
    }
  }

  lemma {:induction false} ApplyConcat(doc: Json, a: seq<Json>, b: seq<Json>)
    requires ApplyAll(doc, a).Done?
    ensures ApplyAll(doc, a + b) == ApplyAll(ApplyAll(doc, a).j, b)
    decreases |a|
  {
    hide ApplyOp;
    if a == [] {
      assert a + b == b;
    } else {
      assert (a + b)[1..] == a[1..] + b;
      ApplyConcat(ApplyOp(doc, a[0]).j, a[1..], b);
    }
  }

  lemma ApplyNone(doc: Json)
    ensures ApplyAll(doc, []) == Done(doc)
  {
  }

  lemma ApplySingle(doc: Json, op: Json)
    ensures ApplyAll(doc, [op]) == ApplyOp(doc, op)
  {
    assert [op][1..] == [];
  }

  // ---- the operations diff emits ---------------------------------------------------------------

  function MakeReplace(path: string, v: Json): Json {
    Obj(map["op" := Str("replace"), "path" := Str(path), "value" := v])
  }

  function MakeAdd(path: string, v: Json): Json {
    Obj(map["op" := Str("add"), "path" := Str(path), "value" := v])
  }

  function MakeRemove(path: string): Json { Obj(map["op" := Str("remove"), "path" := Str(path)]) }

  lemma ReplaceMeans(doc: Json, path: string, v: Json)
    requires Parse(path).Ok?
    ensures ApplyOp(doc, MakeReplace(path, v)) == OpReplace(doc, Parse(path).value, v)
  {
  }

  lemma AddMeans(doc: Json, path: string, v: Json)
    requires Parse(path).Ok?
    ensures ApplyOp(doc, MakeAdd(path, v)) == OpAdd(doc, Parse(path).value, v)
  {
  }

  lemma RemoveMeans(doc: Json, path: string)
    requires Parse(path).Ok?
    ensures ApplyOp(doc, MakeRemove(path)) == OpRemove(doc, Parse(path).value)
  {
  }

  // Adding or removing below a value that has been put at `pre`.
  lemma AddBelow(doc: Json, pre: seq<string>, x: Json, last: string, v: Json)
    requires At(doc, pre).Ok? && AddTo(x, last, v).Done?
    ensures OpAdd(Put(doc, pre, x), pre + [last], v) == Done(Put(doc, pre, AddTo(x, last, v).j))
  {
    var x' := AddTo(x, last, v).j;
    hide AddTo;
    var ptr, d := pre + [last], Put(doc, pre, x);
    assert ptr[..|ptr| - 1] == pre && ptr[|ptr| - 1] == last;
    PutOk(doc, pre, x, x');
    if pre != [] {
      AtPrefix(d, pre);
      assert ptr[..1] == pre[..1];
    }
  }

  lemma RemoveBelow(doc: Json, pre: seq<string>, x: Json, last: string)
    requires At(doc, pre).Ok? && RemoveFrom(x, last).Done?
    ensures OpRemove(Put(doc, pre, x), pre + [last]) == Done(Put(doc, pre, RemoveFrom(x, last).j))
  {
    var x' := RemoveFrom(x, last).j;
    hide RemoveFrom;
    var ptr := pre + [last];
    assert ptr[..|ptr| - 1] == pre && ptr[|ptr| - 1] == last;
    PutOk(doc, pre, x, x');
  }

  // ---- diff ------------------------------------------------------------------------------------

  // Every array has fewer elements than the largest size_type.
  predicate Fits(j: Json) {
    match j
    case Arr(a) => |a| < SIZE_MAX && forall i :: 0 <= i < |a| ==> Fits(a[i])
    case Obj(m) => forall k :: k in m ==> Fits(m[k])
    case _ => true
  }

  // Where a diff is to be applied: `doc` has `source` at the pointer `path`.
  ghost predicate Placed(doc: Json, pre: seq<string>, path: string, source: Json) {
    Parse(path) == Ok(pre) && At(doc, pre) == Ok(source)
  }

  // diff(source, target, path).  Applied to any document that has `source` at `path`, the patch
  // raises no error and puts there a value `result` that depends on source and target only.
  method DiffAt(source: Json, target: Json, path: string, ghost doc: Json, ghost pre: seq<string>)
      returns (patch: seq<Json>, ghost result: Json)
    requires Placed(doc, pre, path, source) && Fits(source)
    ensures ApplyAll(doc, patch) == Done(Put(doc, pre, result))
    ensures Eq(result, target) <==> Clean(target)
    ensures patch == [] <==> Eq(source, target)
    decreases source, 1
  {
    hide ApplyAll, Put, Parse, Eq, Clean, Fits;
    if Eq(source, target) {
      EqClean(source, target);
      PutSame(doc, pre);
      ApplyNone(doc);
      return [], source;
    }
    if TypeOf(source) != TypeOf(target) || !(source.Arr? || source.Obj?) {
      patch, result := [MakeReplace(path, target)], target;
      ApplySingle(doc, patch[0]);
      ReplaceMeans(doc, path, target);
      if Clean(target) {
        EqRefl(target);
      } else {
        NotEq(target, target);
      }
    } else if source.Arr? {
      patch, result := DiffArrays(source, target, path, doc, pre);
    } else {
      patch, result := DiffObjects(source, target, path, doc, pre);
    }
  }

  // What the elements compared so far have become.
  ghost predicate ElementsOk(cur: seq<Json>, source: seq<Json>, target: seq<Json>, i: nat) {
    && i <= |source| == |cur| && i <= |target| && cur[i..] == source[i..]
    && forall k :: 0 <= k < i && Clean(target[k]) ==> Eq(cur[k], target[k])
  }

  method DiffArrays(source: Json, target: Json, path: string, ghost doc: Json, ghost pre: seq<string>)
      returns (patch: seq<Json>, ghost result: Json)
    requires Placed(doc, pre, path, source) && Fits(source) && source.Arr? && target.Arr?
    ensures ApplyAll(doc, patch) == Done(Put(doc, pre, result))
    ensures Eq(result, target) <==> Clean(target)
    ensures patch == [] ==> Eq(source, target)
    decreases source, 0
  {
    hide ApplyAll, Put, At, Parse, Clean, Eq;
    patch := [];
    ghost var cur := source.a;
    StartElements(source.a, doc, pre);
    var i := 0;
    while i < |source.a| && i < |target.a|
      invariant ElementsOk(cur, source.a, target.a, i)
      invariant ApplyAll(doc, patch) == Done(Put(doc, pre, Arr(cur)))
      invariant patch == [] ==> forall k :: 0 <= k < i ==> Eq(source.a[k], target.a[k])
    {
      ElementPlaced(doc, pre, path, cur, i);
      var temp, r := DiffAt(source.a[i], target.a[i], path + "/" + ToString(i),
                            Put(doc, pre, Arr(cur)), pre + [ToString(i)]);
      ElementDone(doc, pre, cur, i, r);
      ApplyConcat(doc, patch, temp);
      patch := patch + temp;
      cur := cur[i := r];
      i := i + 1;
    }
    ghost var first, n := patch, i;
    var removals := RemoveRest(source.a, i, path, doc, pre, cur);
    ApplyConcat(doc, first, removals);
    var additions := AddRest(target.a, i, path, doc, pre, cur[..i]);
    ApplyConcat(doc, first + removals, additions);
    patch := patch + removals + additions;
    result := Arr(cur[..n] + target.a[n..]);
    if Clean(target) {
      ArraysEqual(cur, source.a, target.a, n);
    } else {
      NotEq(result, target);
    }
    if patch == [] {
      NothingToCompare(source, target);
    }
  }

  lemma NothingToCompare(source: Json, target: Json)
    requires source.Arr? && target.Arr? && |source.a| == |target.a|
    requires forall k :: 0 <= k < |source.a| ==> Eq(source.a[k], target.a[k])
    ensures Eq(source, target)
  {
  }

  lemma StartElements(source: seq<Json>, doc: Json, pre: seq<string>)
    requires At(doc, pre) == Ok(Arr(source))
    ensures ApplyAll(doc, []) == Done(Put(doc, pre, Arr(source)))
  {
    PutSame(doc, pre);
  }

  // The second pass: an extra element of source is removed at its own index, the last one first.
  method RemoveRest(source: seq<Json>, start: nat, path: string, ghost doc: Json, ghost pre: seq<string>, ghost cur: seq<Json>)
      returns (removals: seq<Json>)
    requires Parse(path) == Ok(pre) && At(doc, pre).Ok? && start <= |source| == |cur| < SIZE_MAX
    ensures ApplyAll(Put(doc, pre, Arr(cur)), removals) == Done(Put(doc, pre, Arr(cur[..start])))
    ensures removals == [] ==> start == |source|
  {
    hide ApplyOp, Parse, At, Put;
    removals := [];
    var i := start;
    while i < |source|
      invariant start <= i <= |source| && (removals == [] ==> i == start)
      invariant ApplyAll(Put(doc, pre, Arr(cur[..i])), removals) == Done(Put(doc, pre, Arr(cur[..start])))
    {
      var op := MakeRemove(path + "/" + ToString(i));
      LastRemoved(doc, pre, path, cur[..i + 1]);
      assert cur[..i + 1][..i] == cur[..i];
      assert ([op] + removals)[1..] == removals;
      removals := [op] + removals;
      i := i + 1;
    }
    assert cur[..|source|] == cur;
  }

  method AddRest(target: seq<Json>, start: nat, path: string, ghost doc: Json, ghost pre: seq<string>, ghost cur: seq<Json>)
      returns (additions: seq<Json>)
    requires Parse(path) == Ok(pre) && At(doc, pre).Ok? && start <= |target|
    ensures ApplyAll(Put(doc, pre, Arr(cur)), additions) == Done(Put(doc, pre, Arr(cur + target[start..])))
    ensures additions == [] ==> start == |target|
  {
    hide ApplyOp, Parse, At, Put;
    additions := [];
    var i := start;
    assert cur + target[start..i] == cur;
    while i < |target|
      invariant start <= i <= |target|
      invariant ApplyAll(Put(doc, pre, Arr(cur)), additions) == Done(Put(doc, pre, Arr(cur + target[start..i])))
      invariant additions == [] ==> i == start
    {
      var op := MakeAdd(path + "/-", target[i]);
      ghost var now := cur + target[start..i];
      ElementAdded(doc, pre, path, now, target[i]);
      ApplyConcat(Put(doc, pre, Arr(cur)), additions, [op]);
      ApplySingle(Put(doc, pre, Arr(now)), op);
      assert now + [target[i]] == cur + target[start..i + 1];
      additions := additions + [op];
      i := i + 1;
    }
    assert target[start..|target|] == target[start..];
  }

  lemma ElementPlaced(doc: Json, pre: seq<string>, path: string, cur: seq<Json>, i: nat)
    requires Parse(path) == Ok(pre) && At(doc, pre).Ok? && i < |cur| < SIZE_MAX
    ensures Placed(Put(doc, pre, Arr(cur)), pre + [ToString(i)], path + "/" + ToString(i), cur[i])
  {
    IndexRoundTrip(i);
    ParseKey(path, ToString(i));
    Below(doc, pre, Arr(cur), ToString(i), Null);
  }

  lemma ElementDone(doc: Json, pre: seq<string>, cur: seq<Json>, i: nat, r: Json)
    requires At(doc, pre).Ok? && i < |cur| < SIZE_MAX
    ensures At(Put(doc, pre, Arr(cur)), pre + [ToString(i)]).Ok?
    ensures Put(Put(doc, pre, Arr(cur)), pre + [ToString(i)], r) == Put(doc, pre, Arr(cur[i := r]))
  {
    IndexRoundTrip(i);
    Below(doc, pre, Arr(cur), ToString(i), r);
  }

  lemma LastRemoved(doc: Json, pre: seq<string>, path: string, cur: seq<Json>)
    requires Parse(path) == Ok(pre) && At(doc, pre).Ok? && 0 < |cur| < SIZE_MAX
    ensures ApplyOp(Put(doc, pre, Arr(cur)), MakeRemove(path + "/" + ToString(|cur| - 1)))
            == Done(Put(doc, pre, Arr(cur[..|cur| - 1])))
  {
    hide ApplyOp, Parse, Put, At, Escape, ArrayIndex;
    var i := |cur| - 1;
    IndexRoundTrip(i);
    ParseKey(path, ToString(i));
    RemoveMeans(Put(doc, pre, Arr(cur)), path + "/" + ToString(i));
    assert cur[..i] + cur[i + 1..] == cur[..i];
    RemoveBelow(doc, pre, Arr(cur), ToString(i));
  }

  lemma ElementAdded(doc: Json, pre: seq<string>, path: string, cur: seq<Json>, v: Json)
    requires Parse(path) == Ok(pre) && At(doc, pre).Ok?
    ensures ApplyOp(Put(doc, pre, Arr(cur)), MakeAdd(path + "/-", v)) == Done(Put(doc, pre, Arr(cur + [v])))
  {
    hide ApplyOp, Parse, Put, At, Escape, ArrayIndex;
    EscapePlain("-");
    ParseKey(path, "-");
    assert path + "/" + "-" == path + "/-";
    AddMeans(Put(doc, pre, Arr(cur)), path + "/-", v);
    AddBelow(doc, pre, Arr(cur), "-", v);
  }

  lemma ArraysEqual(cur: seq<Json>, source: seq<Json>, target: seq<Json>, n: nat)
    requires ElementsOk(cur, source, target, n) && (n == |source| || n == |target|) && Clean(Arr(target))
    ensures Eq(Arr(cur[..n] + target[n..]), Arr(target))
  {
    var r := cur[..n] + target[n..];
    forall k | 0 <= k < |target| ensures Eq(r[k], target[k]) {
      if k >= n {
        EqRefl(target[k]);
      }
    }
  }

  // What the members visited so far have become: common keys compared, other keys removed.
  ghost predicate MembersOk(cur: map<string, Json>, source: map<string, Json>, target: map<string, Json>, todo: set<string>) {
    && todo <= source.Keys && cur.Keys == todo + source.Keys * target.Keys
    && (forall k :: k in todo && k in cur ==> cur[k] == source[k])
    && (forall k :: k in cur && k in target && k !in todo && Clean(target[k]) ==> Eq(cur[k], target[k]))
  }

  lemma MemberCompared(cur: map<string, Json>, source: map<string, Json>, target: map<string, Json>, todo: set<string>,
                       key: string, r: Json)
    requires MembersOk(cur, source, target, todo) && key in todo && key in target && (Clean(target[key]) ==> Eq(r, target[key]))
    ensures MembersOk(cur[key := r], source, target, todo - {key})
  {
  }

  lemma MemberDropped(cur: map<string, Json>, source: map<string, Json>, target: map<string, Json>, todo: set<string>, key: string)
    requires MembersOk(cur, source, target, todo) && key in todo && key !in target
    ensures MembersOk(cur - {key}, source, target, todo - {key})
  {
  }

  lemma MembersFacts(cur: map<string, Json>, source: map<string, Json>, target: map<string, Json>, todo: set<string>, key: string)
    requires MembersOk(cur, source, target, todo) && key in todo
    ensures key in source && key in cur && cur[key] == source[key]
  {
  }

  method DiffObjects(source: Json, target: Json, path: string, ghost doc: Json, ghost pre: seq<string>)
      returns (patch: seq<Json>, ghost result: Json)
    requires Placed(doc, pre, path, source) && Fits(source) && source.Obj? && target.Obj?
    ensures ApplyAll(doc, patch) == Done(Put(doc, pre, result))
    ensures Eq(result, target) <==> Clean(target)
    ensures patch == [] ==> Eq(source, target)
    decreases source, 0
  {
    hide ApplyAll, MembersOk, Escape, Put, At, Parse, Clean, Eq, Fits, Added;
    patch := [];
    ghost var cur := source.m;
    StartMembers(source.m, target.m, doc, pre);
    var todo := source.m.Keys;
    while todo != {}
      invariant MembersOk(cur, source.m, target.m, todo)
      invariant ApplyAll(doc, patch) == Done(Put(doc, pre, Obj(cur)))
      invariant todo <= source.m.Keys && (patch == [] ==> SameMembers(source.m, target.m, todo))
      decreases |todo|
    {
      var key :| key in todo;
      var pathKey := path + "/" + Escape(key);
      MembersFacts(cur, source.m, target.m, todo, key);
      MemberPlaced(doc, pre, path, cur, key);
      var temp;
      if key in target.m {
        ghost var r;
        FitsBelow(source, key);
        temp, r := DiffAt(source.m[key], target.m[key], pathKey, Put(doc, pre, Obj(cur)), pre + [key]);
        MemberDone(doc, pre, cur, key, r);
        MemberCompared(cur, source.m, target.m, todo, key, r);
        cur := cur[key := r];
      } else {
        temp := [MakeRemove(pathKey)];
        MemberRemoved(doc, pre, path, cur, key);
        MemberDropped(cur, source.m, target.m, todo, key);
        cur := cur - {key};
      }
      ApplyConcat(doc, patch, temp);
      patch := patch + temp;
      todo := todo - {key};
    }
    ghost var first := patch;
    MembersKeys(cur, source.m, target.m);
    var additions, r := AddMembers(source.m, target.m, path, doc, pre, cur);
    ApplyConcat(doc, first, additions);
    patch := patch + additions;
    result := Obj(r);
    if Clean(target) {
      ObjectsEqual(cur, r, source.m, target.m);
    } else {
      NotEq(result, target);
    }
    if patch == [] {
      NothingToDo(source, target);
    }
  }

  // The members of source already visited have equals in target.
  ghost predicate SameMembers(source: map<string, Json>, target: map<string, Json>, todo: set<string>) {
    forall k :: k in source && k !in todo ==> k in target && Eq(source[k], target[k])
  }

  lemma NothingToDo(source: Json, target: Json)
    requires source.Obj? && target.Obj? && SameMembers(source.m, target.m, {}) && target.m.Keys <= source.m.Keys
    ensures Eq(source, target)
  {
  }

  lemma FitsBelow(source: Json, key: string)
    requires source.Obj? && key in source.m && Fits(source)
    ensures Fits(source.m[key])
  {
  }

  lemma StartMembers(source: map<string, Json>, target: map<string, Json>, doc: Json, pre: seq<string>)
    requires At(doc, pre) == Ok(Obj(source))
    ensures MembersOk(source, source, target, source.Keys)
    ensures ApplyAll(doc, []) == Done(Put(doc, pre, Obj(source)))
  {
    PutSame(doc, pre);
  }

  lemma MembersKeys(cur: map<string, Json>, source: map<string, Json>, target: map<string, Json>)
    requires MembersOk(cur, source, target, {})
    ensures cur.Keys == source.Keys * target.Keys
  {
  }

  // The members added so far, the keys in todo not yet visited.
  ghost predicate Added(result: map<string, Json>, cur: map<string, Json>, target: map<string, Json>, todo: set<string>) {
    && todo <= target.Keys && cur.Keys <= target.Keys && result.Keys == cur.Keys + (target.Keys - todo)
    && forall k :: k in target && k in result ==> result[k] == if k in cur then cur[k] else target[k]
  }

  // The second pass: the members source does not have.
  method AddMembers(source: map<string, Json>, target: map<string, Json>, path: string,
                    ghost doc: Json, ghost pre: seq<string>, ghost cur: map<string, Json>)
      returns (additions: seq<Json>, ghost result: map<string, Json>)
    requires Parse(path) == Ok(pre) && At(doc, pre).Ok? && cur.Keys == source.Keys * target.Keys
    ensures ApplyAll(Put(doc, pre, Obj(cur)), additions) == Done(Put(doc, pre, Obj(result)))
    ensures Added(result, cur, target, {})
    ensures additions == [] ==> target.Keys <= source.Keys
  {
    hide Parse, At, Put, ApplyOp, Escape;
    additions, result := [], cur;
    var todo := target.Keys;
    while todo != {}
      invariant Added(result, cur, target, todo)
      invariant ApplyAll(Put(doc, pre, Obj(cur)), additions) == Done(Put(doc, pre, Obj(result)))
      invariant additions == [] ==> target.Keys - todo <= source.Keys
      decreases |todo|
    {
      var key :| key in todo;
      if key !in source {
        var op := MakeAdd(path + "/" + Escape(key), target[key]);
        MemberAdded(doc, pre, path, result, key, target[key]);
        ApplyConcat(Put(doc, pre, Obj(cur)), additions, [op]);
        ApplySingle(Put(doc, pre, Obj(result)), op);
        additions := additions + [op];
        result := result[key := target[key]];
      }
      todo := todo - {key};
    }
  }

  lemma MemberPlaced(doc: Json, pre: seq<string>, path: string, cur: map<string, Json>, key: string)
    requires Parse(path) == Ok(pre) && At(doc, pre).Ok? && key in cur
    ensures Placed(Put(doc, pre, Obj(cur)), pre + [key], path + "/" + Escape(key), cur[key])
  {
    ParseKey(path, key);
    Below(doc, pre, Obj(cur), key, Null);
  }

  lemma MemberDone(doc: Json, pre: seq<string>, cur: map<string, Json>, key: string, r: Json)
    requires At(doc, pre).Ok? && key in cur
    ensures At(Put(doc, pre, Obj(cur)), pre + [key]).Ok?
    ensures Put(Put(doc, pre, Obj(cur)), pre + [key], r) == Put(doc, pre, Obj(cur[key := r]))
  {
    Below(doc, pre, Obj(cur), key, r);
  }

  lemma MemberRemoved(doc: Json, pre: seq<string>, path: string, cur: map<string, Json>, key: string)
    requires Parse(path) == Ok(pre) && At(doc, pre).Ok? && key in cur
    ensures ApplyAll(Put(doc, pre, Obj(cur)), [MakeRemove(path + "/" + Escape(key))])
            == Done(Put(doc, pre, Obj(cur - {key})))
  {
    hide ApplyOp, Parse, Put, At, Escape, ArrayIndex;
    var d, op := Put(doc, pre, Obj(cur)), MakeRemove(path + "/" + Escape(key));
    ParseKey(path, key);
    ApplySingle(d, op);
    RemoveMeans(d, path + "/" + Escape(key));
    RemoveBelow(doc, pre, Obj(cur), key);
  }

  lemma MemberAdded(doc: Json, pre: seq<string>, path: string, cur: map<string, Json>, key: string, v: Json)
    requires Parse(path) == Ok(pre) && At(doc, pre).Ok?
    ensures ApplyOp(Put(doc, pre, Obj(cur)), MakeAdd(path + "/" + Escape(key), v))
            == Done(Put(doc, pre, Obj(cur[key := v])))
  {
    hide ApplyOp, Parse, Put, At, Escape, ArrayIndex;
    ParseKey(path, key);
    AddMeans(Put(doc, pre, Obj(cur)), path + "/" + Escape(key), v);
    AddBelow(doc, pre, Obj(cur), key, v);
  }

  lemma ObjectsEqual(cur: map<string, Json>, r: map<string, Json>, source: map<string, Json>, target: map<string, Json>)
    requires MembersOk(cur, source, target, {}) && Clean(Obj(target)) && Added(r, cur, target, {})
    ensures Eq(Obj(r), Obj(target))
  {
    forall k | k in r && k in target ensures Eq(r[k], target[k]) {
      if k !in cur {
        EqRefl(target[k]);
      }
    }
  }

  // The round trip: the patch computed by diff applies to source without error, and gives a value
  // equal to target exactly when target has no NaN and no discarded value (then nothing equals it).
  method Diff(source: Json, target: Json) returns (patch: Json, ghost result: Json)
    requires Fits(source)
    ensures Patch(source, patch) == Done(result)
    ensures Eq(result, target) <==> Clean(target)
    ensures patch == Arr([]) <==> Eq(source, target)
  {
    hide Eq, Clean, Fits, ApplyAll;
    var ops;
    ops, result := DiffAt(source, target, "", source, []);
    patch := Arr(ops);
  }

  // In place: patching a document with diff's result turns it into the target.
  method Turn(d: Document, target: Json) returns (stopped: Outcome)
    requires Fits(d.root)
    modifies d
    ensures stopped.Done? && (Eq(d.root, target) <==> Clean(target))
  {
    var patch, r := Diff(d.root, target);
    stopped := d.PatchInplace(patch);
  }

  // ---- the comment on operation_add is wrong ---------------------------------------------------

  // An existing parent can be a number: the assertion in operation_add then fails.
  lemma AddBelowNumber(v: Json)
    ensures ApplyOp(Obj(map["a" := Integer(1)]), MakeAdd("/a/b", v)) == Aborted(Obj(map["a" := Integer(1)]))
  {
    var doc, ptr := Obj(map["a" := Integer(1)]), ["a", "b"];
    ParseAB();
    hide Parse;
    AddMeans(doc, "/a/b", v);
    hide ApplyOp;
    assert ptr[..1] == ["a"];
    AtOne(doc, "a");
    AddAborts(doc, ptr, v);
  }

  lemma ParseAB()
    ensures Parse("/a/b") == Ok(["a", "b"])
  {
    EscapePlain("a");
    EscapePlain("b");
    hide Escape, Parse;
    assert Parse("") == Ok([]) by { ParseEmpty(); }
    ParseKey("", "a");
    assert "" + "/" + "a" == "/a" && [] + ["a"] == ["a"];
    ParseKey("/a", "b");
    assert "/a" + "/" + "b" == "/a/b" && ["a"] + ["b"] == ["a", "b"];
  }

  lemma ParseEmpty()
    ensures Parse("") == Ok([])
  {
  }

  // It fails exactly when the parent exists and is neither null, an object nor an array.
  lemma AddAborts(doc: Json, ptr: seq<string>, v: Json)
    ensures OpAdd(doc, ptr, v).Aborted? <==>
      ptr != [] && At(doc, ptr[..|ptr| - 1]).Ok? &&
      var parent := At(doc, ptr[..|ptr| - 1]).value; !(parent.Null? || parent.Obj? || parent.Arr?)
  {
    if |ptr| > 1 && At(doc, ptr[..|ptr| - 1]).Ok? {
      AtPrefix(doc, ptr[..|ptr| - 1]);
      assert ptr[..|ptr| - 1][..1] == ptr[..1];
    }
  }

  // ---- merge patch -----------------------------------------------------------------------------

  // RFC 7396, section 2.
  function Merge(t: Json, p: Json): Json
    decreases p
  {
    if !p.Obj? then p
    else
      var base: map<string, Json> := if t.Obj? then t.m else map[];
      Obj(map k | k in base.Keys + p.m.Keys && (k in p.m ==> !p.m[k].Null?) ::
            if k in p.m then Merge(if k in base then base[k] else Null, p.m[k]) else base[k])
  }

  // The members after all patch members but those in todo have been merged.
  function Merged(base: map<string, Json>, p: Json, todo: set<string>): map<string, Json>
    requires p.Obj?
    decreases p, 0
  {
    map k | k in base.Keys + (p.m.Keys - todo) && (k in p.m && k !in todo ==> !p.m[k].Null?) ::
      if k in p.m && k !in todo then Merge(if k in base then base[k] else Null, p.m[k]) else base[k]
  }

  lemma MergeStep(base: map<string, Json>, p: Json, todo: set<string>, key: string)
    requires p.Obj? && todo <= p.m.Keys && key in todo
    ensures var cur, cur' := Merged(base, p, todo), Merged(base, p, todo - {key});
      && (key in cur <==> key in base) && (key in base ==> cur[key] == base[key])
      && cur' == if p.m[key].Null? then cur - {key}
                 else cur[key := Merge(if key in base then base[key] else Null, p.m[key])]
  {
    hide Merge;
  }

  lemma MergeIs(t: Json, p: Json)
    requires p.Obj?
    ensures var base := if t.Obj? then t.m else map[];
      Merge(t, p) == Obj(Merged(base, p, {})) && Merged(base, p, p.m.Keys) == base
  {
  }

  method MergePatch(t: Json, p: Json) returns (r: Json)
    ensures r == Merge(t, p)
    decreases p
  {
    if !p.Obj? {
      return p;
    }
    hide Merge, Merged;
    MergeIs(t, p);
    var base: map<string, Json> := if t.Obj? then t.m else map[];
    var cur, todo := base, p.m.Keys;
    while todo != {}
      invariant todo <= p.m.Keys
      invariant cur == Merged(base, p, todo)
      decreases |todo|
    {
      var key :| key in todo;
      MergeStep(base, p, todo, key);
      if p.m[key].Null? {
        cur := cur - {key};
      } else {
        var v := MergePatch(if key in cur then cur[key] else Null, p.m[key]);
        cur := cur[key := v];
      }
      todo := todo - {key};
    }
    r := Obj(cur);
  }

  // Applying the same merge patch twice changes nothing more.
  lemma {:induction false} MergeIdempotent(t: Json, p: Json)
    ensures Merge(Merge(t, p), p) == Merge(t, p)
    decreases p
  {
    if p.Obj? {
      var r := Merge(t, p);
      forall k | k in r.m && k in p.m ensures Merge(r.m[k], p.m[k]) == r.m[k] {
        MergeIdempotent(if t.Obj? && k in t.m then t.m[k] else Null, p.m[k]);
      }
      assert Merge(r, p).m.Keys == r.m.Keys;
    }
  }
}
