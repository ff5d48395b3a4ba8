/**
 * zlib's Adler-32: sums that are reduced only every 5552 bytes, against the definition of section 8.2 of
 * RFC 1950, which reduces at every byte; and combining the sums of two pieces of data.
 */
module Adler32 {
  import opened Wrappers

  const BASE: nat := 65521
  const NMAX: nat := 5552
  const TWO32: nat := 0x1_0000_0000

  type Byte = b: nat | b < 256

  // ---- the definition --------------------------------------------------------------------------

  datatype Sums = Sums(s1: nat, s2: nat)

  // adler | (sum2 << 16)
  function Join(s: Sums): nat { s.s1 + 0x1_0000 * s.s2 }

  function Split(v: nat): Sums { Sums(v % 0x1_0000, (v / 0x1_0000) % 0x1_0000) }

  predicate Reduced(s: Sums) { s.s1 < BASE && s.s2 < BASE }

  predicate IsChecksum(v: nat) { v < TWO32 && Reduced(Split(v)) }

  // Byte by byte, reducing both sums every time.
  function Update(start: Sums, data: seq<Byte>): (r: Sums)
    ensures data == [] ==> r == start
    ensures data != [] || Reduced(start) ==> Reduced(r)
  {
    if data == [] then start
    else
      var s := Update(start, data[..|data| - 1]);
      var s1 := (s.s1 + data[|data| - 1]) % BASE;
      Sums(s1, (s.s2 + s1) % BASE)
  }

  function Adler(v: nat, data: seq<Byte>): nat { Join(Update(Split(v), data)) }

  // ---- sums that are not reduced ---------------------------------------------------------------

  function Total(start: Sums, data: seq<Byte>): (r: Sums) {
    if data == [] then start
    else
      var s := Total(start, data[..|data| - 1]);
      var s1 := s.s1 + data[|data| - 1];
      Sums(s1, s.s2 + s1)
  }

  predicate Same(x: nat, y: nat) { x % BASE == y % BASE }

  predicate SameSums(s: Sums, t: Sums) { Same(s.s1, t.s1) && Same(s.s2, t.s2) }

  lemma SameAdd(x: nat, y: nat, u: nat, v: nat)
    requires Same(x, y) && Same(u, v)
    ensures Same(x + u, y + v)
  {
  }

  // One byte more.
  lemma SameNext(s: Sums, t: Sums, b: Byte)
    requires SameSums(s, t)
    ensures SameSums(Sums(s.s1 + b, s.s2 + (s.s1 + b)), Sums((t.s1 + b) % BASE, (t.s2 + (t.s1 + b) % BASE) % BASE))
  {
    SameAdd(s.s1, t.s1, b, b);
    SameAdd(s.s2, t.s2, s.s1 + b, (t.s1 + b) % BASE);
  }

  // Reducing late gives the same residues.
  lemma {:induction false} TotalIs(start: Sums, data: seq<Byte>)
    ensures SameSums(Total(start, data), Update(start, data))
  {
    if data != [] {
      TotalIs(start, data[..|data| - 1]);
      SameNext(Total(start, data[..|data| - 1]), Update(start, data[..|data| - 1]), data[|data| - 1]);
    }
  }

  // ---- no overflow -----------------------------------------------------------------------------

  function Triangle(n: nat): nat { if n == 0 then 0 else Triangle(n - 1) + n }

  lemma {:induction false} TriangleIs(n: nat)
    ensures 2 * Triangle(n) == n * (n + 1)
  {
    if n > 0 {
      TriangleIs(n - 1);
      assert n * (n + 1) == (n - 1) * n + 2 * n;
    }
  }

  lemma {:induction false} TriangleGrows(n: nat, m: nat)
    requires n <= m
    ensures Triangle(n) <= Triangle(m)
  {
    if n < m {
      TriangleGrows(n, m - 1);
    }
  }

  // The largest the sums can be n bytes after both were at most top.
  function MostS1(top: nat, n: nat): nat { top + 255 * n }

  function MostS2(top: nat, n: nat): nat { Times(top, n + 1) + 255 * Triangle(n) }

  function Times(x: nat, y: nat): nat { x * y }

  // NMAX is the largest number of bytes after which neither sum can exceed 32 bits, from reduced sums and
  // from any 16-bit ones.
  lemma NMaxIsLargest(top: nat, n: nat)
    requires BASE - 1 <= top <= 0xFFFF
    ensures n <= NMAX <==> MostS2(top, n) < TWO32
    ensures n <= NMAX ==> MostS1(top, n) < TWO32
  {
    if n <= NMAX {
      TriangleIs(NMAX);
      TriangleGrows(n, NMAX);
      assert Triangle(NMAX) == 15415128;
      TimesGrows(top, 0xFFFF, n + 1, NMAX + 1);
    } else {
      TriangleIs(NMAX + 1);
      TriangleGrows(NMAX + 1, n);
      assert Triangle(NMAX + 1) == 15420681;
      TimesGrows(BASE - 1, top, NMAX + 2, n + 1);
    }
  }

  lemma TimesGrows(x: nat, x': nat, y: nat, y': nat)
    requires x <= x' && y <= y'
    ensures Times(x, y) <= Times(x', y')
  {
    assert x * y <= x' * y <= x' * y';
  }

  lemma TimesNext(x: nat, y: nat)
    ensures Times(x, y + 1) == Times(x, y) + x
  {
  }

  // Both sums are what the data makes them, and n bytes from being at most 16 bits wide.
  ghost predicate Running(s: Sums, start: Sums, data: seq<Byte>, n: nat) {
    s.s1 <= MostS1(0xFFFF, n) && s.s2 <= MostS2(0xFFFF, n) && SameSums(s, Total(start, data))
  }

  // DO1: no sum exceeds 32 bits.
  method Do1(s: Sums, b: Byte, ghost start: Sums, ghost data: seq<Byte>, ghost n: nat) returns (r: Sums)
    requires Running(s, start, data, n) && n < NMAX
    ensures r == Sums(s.s1 + b, s.s2 + (s.s1 + b)) && r.s1 < TWO32 && r.s2 < TWO32
    ensures Running(r, start, data + [b], n + 1)
  {
    assert (data + [b])[..|data|] == data;
    NMaxIsLargest(0xFFFF, n + 1);
    TimesNext(0xFFFF, n + 1);
    assert Triangle(n + 1) == Triangle(n) + n + 1;
    var s1 := s.s1 + b;
    r := Sums(s1, s.s2 + s1);
    SameAdd(s.s1, Total(start, data).s1, b, b);
    SameAdd(s.s2, Total(start, data).s2, s1, Total(start, data).s1 + b);
  }

  // ---- reduction -------------------------------------------------------------------------------

  lemma SamePlus(x: nat, k: nat)
    ensures Same(x, x + BASE * k)
  {
  }

  // CHOP: 65536 is 15 modulo 65521.
  method Chop(a: nat) returns (r: nat)
    ensures r == a % 0x1_0000 + 15 * (a / 0x1_0000) && Same(r, a)
  {
    var tmp := a / 0x1_0000;
    r := a % 0x1_0000;
    r := r + (tmp * 16 - tmp);
    assert a == r + BASE * tmp;
    SamePlus(r, tmp);
    hide Same;
  }

  method Mod28(a: nat) returns (r: nat)
    requires a < 0x1000_0000
    ensures r == a % BASE
  {
    r := Chop(a);
    if r >= BASE {
      r := r - BASE;
    }
  }

  // MOD, by division or, with NO_DIVIDE, without.
  method Mod(a: nat, noDivide: bool) returns (r: nat)
    requires a < TWO32
    ensures r == a % BASE
  {
    if noDivide {
      r := Chop(a);
      r := Mod28(r);
    } else {
      r := a % BASE;
    }
  }

  // 2^32 is 225 modulo 65521.
  method Fold32(a: nat) returns (r: nat)
    requires a < 0x8000_0000_0000_0000
    ensures r < 0x100_0000_0000 && Same(r, a)
  {
    var tmp := a / TWO32;
    r := a % TWO32;
    r := r + (tmp * 256 - tmp * 32 + tmp);
    assert a == r + BASE * (65551 * tmp);
    SamePlus(r, 65551 * tmp);
    hide Same;
  }

  lemma ReducedIs(x: nat, a: nat)
    requires Same(x, a) && x < 2 * BASE
    ensures a % BASE == if x >= BASE then x - BASE else x
  {
  }

  // MOD63
  method Mod63(a: nat, noDivide: bool) returns (r: nat)
    requires a < 0x8000_0000_0000_0000
    ensures r == a % BASE
  {
    if noDivide {
      r := Fold32(a);
      r := Chop(r);
      assert r < 0x1000_0000;
      r := Chop(r);
      hide Same;
      ReducedIs(r, a);
      if r >= BASE {
        r := r - BASE;
      }
    } else {
      r := a % BASE;
    }
  }

  // ---- adler32_z -------------------------------------------------------------------------------

  // n bytes starting at i, none of which makes a sum too large.
  method DoBytes(s: Sums, buf: seq<Byte>, i: nat, n: nat, ghost start: Sums, ghost since: nat) returns (r: Sums)
    requires i + n <= |buf| && Running(s, start, buf[..i], since) && since + n <= NMAX
    ensures Running(r, start, buf[..i + n], since + n)
  {
    r := s;
    var k := 0;
    while k < n
      invariant k <= n && Running(r, start, buf[..i + k], since + k)
    {
      assert buf[..i + k] + [buf[i + k]] == buf[..i + k + 1];
      r := Do1(r, buf[i + k], start, buf[..i + k], since + k);
      k := k + 1;
    }
  }

  // MOD of both sums.
  method ModBoth(s: Sums, noDivide: bool, ghost start: Sums, ghost data: seq<Byte>, ghost n: nat) returns (r: Sums)
    requires Running(s, start, data, n) && n <= NMAX
    ensures Running(r, start, data, 0) && Reduced(r)
  {
    NMaxIsLargest(0xFFFF, n);
    hide Total, Triangle, Times, Same;
    var s1 := Mod(s.s1, noDivide);
    var s2 := Mod(s.s2, noDivide);
    r := Sums(s1, s2);
    ModSame(s, r, Total(start, data));
  }

  lemma ModSame(s: Sums, r: Sums, t: Sums)
    requires SameSums(s, t) && r == Sums(s.s1 % BASE, s.s2 % BASE)
    ensures SameSums(r, t) && Reduced(r) && r.s1 <= MostS1(0xFFFF, 0) && r.s2 <= MostS2(0xFFFF, 0)
  {
  }

  // The residues of the sums of the data.
  function Residues(start: Sums, data: seq<Byte>): (r: Sums)
    ensures Reduced(r)
  {
    Sums(Total(start, data).s1 % BASE, Total(start, data).s2 % BASE)
  }

  lemma Finish(s: Sums, start: Sums, data: seq<Byte>)
    requires Reduced(s) && SameSums(s, Total(start, data))
    ensures s == Residues(start, data)
  {
  }

  // Reducing late is reducing at every byte, unless there is no byte to reduce at.
  lemma ResiduesAre(start: Sums, data: seq<Byte>)
    ensures Residues(start, data) == Update(start, data) <==> data != [] || Reduced(start)
  {
    TotalIs(start, data);
    var t, u := Total(start, data), Update(start, data);
    if data != [] || Reduced(start) {
      hide Total, Update;
      SameSmall(t.s1 % BASE, t.s1, u.s1);
      SameSmall(t.s2 % BASE, t.s2, u.s2);
    }
  }

  lemma SameSmall(x: nat, y: nat, z: nat)
    requires Same(x, y) && Same(y, z) && x < BASE && z < BASE
    ensures x == z
  {
  }

  // One byte: no division, and one subtraction for each sum.
  method OneByte(s: Sums, b: Byte) returns (r: Sums)
    requires s.s1 <= 0xFFFF && s.s2 <= 0xFFFF
    ensures r.s1 == (s.s1 + b) % BASE && r.s2 <= 0xFFFF && Same(r.s2, s.s2 + r.s1)
    ensures r.s2 < BASE <==> s.s2 + r.s1 < 2 * BASE
  {
    var s1 := s.s1 + b;
    if s1 >= BASE {
      s1 := s1 - BASE;
    }
    var s2 := s.s2 + s1;
    if s2 >= BASE {
      s2 := s2 - BASE;
    }
    r := Sums(s1, s2);
  }

  // Fewer than 16 bytes.
  method Short(start: Sums, data: seq<Byte>) returns (r: Sums)
    requires start.s1 <= 0xFFFF && start.s2 <= 0xFFFF && |data| < 16
    ensures r == Residues(start, data)
  {
    assert Running(start, start, data[..0], 0);
    hide Update, Total, Triangle, Same, Residues;
    var s := DoBytes(start, data, 0, |data|, start, 0);
    assert data[..0 + |data|] == data;
    Small(s, |data|);
    var s1 := s.s1;
    if s1 >= BASE {
      s1 := s1 - BASE;
    }
    var s2 := Mod28(s.s2);
    r := Sums(s1, s2);
    ShortSame(s, r, Total(start, data));
    Finish(r, start, data);
  }

  lemma ShortSame(s: Sums, r: Sums, t: Sums)
    requires SameSums(s, t) && s.s1 < 2 * BASE
    requires r == Sums(if s.s1 >= BASE then s.s1 - BASE else s.s1, s.s2 % BASE)
    ensures SameSums(r, t) && Reduced(r)
  {
  }

  // Blocks of NMAX bytes, and then the rest.
  method Long(start: Sums, data: seq<Byte>, noDivide: bool) returns (s: Sums)
    requires start.s1 <= 0xFFFF && start.s2 <= 0xFFFF && |data| >= 16
    ensures s == Residues(start, data)
  {
    s := start;
    var len: nat, i: nat := |data|, 0;
    assert Running(s, start, data[..0], 0);
    hide Running, Update, Total, Residues;
    while len >= NMAX
      invariant i + len == |data| && Running(s, start, data[..i], 0) && (len < NMAX && len == 0 ==> Reduced(s))
    {
      len := len - NMAX;
      var n := NMAX / 16;
      while n > 0
        invariant 0 <= n <= NMAX / 16 && i + len + 16 * n == |data| && Running(s, start, data[..i], NMAX - 16 * n)
        decreases n
      {
        s := DoBytes(s, data, i, 16, start, NMAX - 16 * n);
        i, n := i + 16, n - 1;
      }
      s := ModBoth(s, noDivide, start, data[..i], NMAX);
    }
    if len > 0 {
      s := Rest(s, data, i, noDivide, start);
    }
    assert len == 0 ==> i == |data|;
    assert data[..|data|] == data;
    assert SameSums(s, Total(start, data)) by {
      StillSame(s, start, data);
    }
    Finish(s, start, data);
  }

  lemma StillSame(s: Sums, start: Sums, data: seq<Byte>)
    requires Running(s, start, data, 0)
    ensures SameSums(s, Total(start, data))
  {
  }

  // Fewer than NMAX bytes from i on.
  method Rest(s: Sums, data: seq<Byte>, i: nat, noDivide: bool, ghost start: Sums) returns (r: Sums)
    requires i <= |data| < i + NMAX && Running(s, start, data[..i], 0)
    ensures Running(r, start, data[..|data|], 0) && Reduced(r)
  {
    hide Running, Update, Total;
    r := s;
    var len: nat, k: nat := |data| - i, i;
    while len >= 16
      invariant i <= k && k + len == |data| && Running(r, start, data[..k], k - i)
    {
      len := len - 16;
      r := DoBytes(r, data, k, 16, start, k - i);
      k := k + 16;
    }
    r := DoBytes(r, data, k, len, start, k - i);
    r := ModBoth(r, noDivide, start, data[..k + len], k + len - i);
  }

  // Whether a call for this data ends with both sums reduced as byte by byte.  From a checksum it always does.
  predicate Exact(start: Sums, data: seq<Byte>) {
    if data == [] then Reduced(start)
    else |data| > 1 || start.s2 + (start.s1 + data[0]) % BASE < 2 * BASE
  }

  // The checksum of more data, from any value; 1 for a null buffer.  The sums always have the right residues.
  method Adler32Z(adler: nat, buf: Option<seq<Byte>>, noDivide: bool) returns (r: nat)
    ensures buf == None ==> r == 1
    ensures buf.Some? ==> r < TWO32 && SameSums(Split(r), Total(Split(adler), buf.value))
    ensures buf.Some? ==> (r == Adler(adler, buf.value) <==> Exact(Split(adler), buf.value))
    ensures buf.Some? && IsChecksum(adler) ==> r == Adler(adler, buf.value) && IsChecksum(r)
  {
    var start := Split(adler);
    if buf == None {
      return 1;
    }
    var data := buf.value;
    hide Update, Total, Same;
    var s;
    if |data| == 1 {
      s := OneByte(start, data[0]);
      OneSum(start, data, s);
    } else {
      if |data| < 16 {
        s := Short(start, data);
      } else {
        s := Long(start, data, noDivide);
      }
      ResiduesAre(start, data);
      ResiduesSame(start, data);
    }
    JoinSplit(s);
    JoinSplit(Update(start, data));
    r := Join(s);
  }

  lemma ResiduesSame(start: Sums, data: seq<Byte>)
    ensures SameSums(Residues(start, data), Total(start, data))
  {
  }

  lemma OneSum(start: Sums, data: seq<Byte>, r: Sums)
    requires |data| == 1 && r.s1 == (start.s1 + data[0]) % BASE && Same(r.s2, start.s2 + r.s1)
    requires r.s2 < BASE <==> start.s2 + r.s1 < 2 * BASE
    ensures SameSums(r, Total(start, data)) && (r == Update(start, data) <==> Exact(start, data))
  {
    hide *;
    OneTotal(start, data);
    RemIsSame(start.s1 + data[0]);
    SameAdd(start.s2, start.s2, r.s1, start.s1 + data[0]);
    SameTwice(r.s2, start.s2 + r.s1, start.s2 + (start.s1 + data[0]));
    ReducedIff(r.s2, start.s2 + r.s1);
    BothSame(r, Total(start, data));
  }

  lemma BothSame(s: Sums, t: Sums)
    requires Same(s.s1, t.s1) && Same(s.s2, t.s2)
    ensures SameSums(s, t)
  {
  }

  lemma OneTotal(start: Sums, data: seq<Byte>)
    requires |data| == 1
    ensures Total(start, data) == Sums(start.s1 + data[0], start.s2 + (start.s1 + data[0])) && Same(start.s2, start.s2)
    ensures var s1 := (start.s1 + data[0]) % BASE;
      Update(start, data) == Sums(s1, (start.s2 + s1) % BASE) && (Exact(start, data) <==> start.s2 + s1 < 2 * BASE)
  {
    assert data[..0] == [];
    assert Update(start, []) == start == Total(start, []);
  }

  lemma RemIsSame(x: nat)
    ensures Same(x % BASE, x)
  {
  }

  lemma SameTwice(x: nat, y: nat, z: nat)
    requires Same(x, y) && Same(y, z)
    ensures Same(x, z)
  {
  }

  lemma ReducedIff(x: nat, y: nat)
    requires Same(x, y)
    ensures x == y % BASE <==> x < BASE
  {
  }

  lemma JoinSplit(s: Sums)
    requires s.s1 < 0x1_0000 && s.s2 < 0x1_0000
    ensures Split(Join(s)) == s && Join(s) < TWO32
  {
  }

  // After fewer than 16 bytes one subtraction, and MOD28, are enough.
  lemma Small(s: Sums, n: nat)
    requires n < 16 && s.s1 <= MostS1(0xFFFF, n) && s.s2 <= MostS2(0xFFFF, n)
    ensures s.s1 < 2 * BASE && s.s2 < 0x1000_0000
  {
    TriangleGrows(n, 15);
    TriangleIs(15);
    TimesGrows(0xFFFF, 0xFFFF, n + 1, 16);
  }

  // ---- two pieces of data ----------------------------------------------------------------------

  lemma {:induction false} UpdateAppend(start: Sums, a: seq<Byte>, b: seq<Byte>)
    ensures Update(start, a + b) == Update(Update(start, a), b)
  {
    if b == [] {
      assert a + b == a;
    } else {
      assert (a + b)[..|a + b| - 1] == a + b[..|b| - 1];
      UpdateAppend(start, a, b[..|b| - 1]);
    }
  }

  // A checksum can be continued: the checksum of a and then b is that of both.
  lemma AdlerAppend(v: nat, a: seq<Byte>, b: seq<Byte>)
    ensures Adler(Adler(v, a), b) == Adler(v, a + b)
  {
    UpdateAppend(Split(v), a, b);
    JoinSplit(Update(Split(v), a));
  }

  function Product(x: int, y: int): int { x * y }

  // How the sums of the same data from two different starts are related.
  lemma {:induction false} TotalFrom(start: Sums, data: seq<Byte>)
    ensures Total(start, data).s1 + 1 == start.s1 + Total(Sums(1, 0), data).s1
    ensures Total(start, data).s2 + |data| == start.s2 + Product(|data|, start.s1) + Total(Sums(1, 0), data).s2
  {
    if data != [] {
      TotalFrom(start, data[..|data| - 1]);
      assert |data| * start.s1 == (|data| - 1) * start.s1 + start.s1;
    }
  }

  lemma Quotients(x: nat, y: nat) returns (k: int)
    requires Same(x, y)
    ensures x == y + BASE * k
  {
    k := x / BASE - y / BASE;
  }

  function Residue(x: nat): (r: nat)
    ensures r < BASE
  {
    x % BASE
  }

  lemma ResidueIs(x: nat, y: nat, k: int)
    requires x == y + BASE * k && y < BASE
    ensures Residue(x) == y
  {
  }

  lemma FirstSum(a: nat, b: nat, t: nat, u: nat, v: nat, k1: int, k3: int)
    requires t + 1 == a + u && u == b + BASE * k1 && t == v + BASE * k3 && v < BASE
    ensures Residue(a + b + BASE - 1) == v
  {
    hide Residue;
    ResidueIs(a + b + BASE - 1, v, 1 + k3 - k1);
  }

  lemma SecondSum(a: nat, b: nat, t: nat, u: nat, v: nat, n: nat, na: nat, rem: nat, x: nat, q: int, p: int, k2: int, k4: int)
    requires t + n == a + na + u && u == b + BASE * k2 && t == v + BASE * k4 && v < BASE
    requires n == rem + BASE * q && na == x + BASE * p && rem < BASE
    ensures Residue(Residue(x) + a + b + BASE - rem) == v
  {
    var y, m := Residue(x), x / BASE;
    assert x == y + BASE * m;
    hide Residue;
    ResidueIs(y + a + b + BASE - rem, v, 1 + k4 - k2 - p - m + q);
  }

  // The sums of both pieces, in terms of those of each; product is the length of the second times the sum of the first.
  function Combined(a: Sums, b: Sums, rem: nat, product: nat): Sums
    requires rem < BASE
  {
    Sums(Residue(a.s1 + b.s1 + BASE - 1), Residue(Residue(product) + a.s2 + b.s2 + BASE - rem))
  }

  lemma Lengths(n: nat, s1: nat) returns (q: int)
    ensures n == Residue(n) + BASE * q && Product(n, s1) == Product(Residue(n), s1) + BASE * Product(q, s1)
    ensures Product(n, s1) >= 0 && Product(Residue(n), s1) >= 0
  {
    q := n / BASE;
    var r := Residue(n);
    assert n == r + BASE * q;
    assert (r + BASE * q) * s1 == r * s1 + BASE * (q * s1);
  }

  // What the sums of the first piece become with the second, given only its sums and its length.
  lemma CombineIs(a: Sums, data: seq<Byte>)
    requires Reduced(a)
    ensures Product(Residue(|data|), a.s1) >= 0
    ensures Update(a, data) == Combined(a, Update(Sums(1, 0), data), Residue(|data|), Product(Residue(|data|), a.s1))
  {
    hide Total, Update, Same, Residue, Product;
    var b, t, u, v := Update(Sums(1, 0), data), Total(a, data), Total(Sums(1, 0), data), Update(a, data);
    TotalFrom(a, data);
    TotalIs(a, data);
    TotalIs(Sums(1, 0), data);
    var n := |data|;
    var rem := Residue(n);
    var q := Lengths(n, a.s1);
    var k1 := Quotients(u.s1, b.s1);
    var k2 := Quotients(u.s2, b.s2);
    var k3 := Quotients(t.s1, v.s1);
    var k4 := Quotients(t.s2, v.s2);
    FirstSum(a.s1, b.s1, t.s1, u.s1, v.s1, k1, k3);
    SecondSum(a.s2, b.s2, t.s2, u.s2, v.s2, n, Product(n, a.s1), rem, Product(rem, a.s1), q, Product(q, a.s1), k2, k4);
  }

  // The checksum of both pieces, from those of each and the length of the second; -1 for a negative length.
  method Combine(adler1: nat, adler2: nat, len2: int, noDivide: bool) returns (r: nat)
    requires IsChecksum(adler1) && IsChecksum(adler2) && len2 < 0x8000_0000_0000_0000
    ensures len2 < 0 ==> r == 0xFFFF_FFFF
    ensures forall b: seq<Byte> :: len2 == |b| && adler2 == Adler(1, b) ==> r == Adler(adler1, b)
  {
    if len2 < 0 {
      return 0xFFFF_FFFF;
    }
    var rem := Mod63(len2, noDivide);
    var a, b := Split(adler1), Split(adler2);
    var product := rem * a.s1;
    ProductFits(rem, a.s1);
    var s := CombineSums(a, b, rem, product, noDivide);
    r := Join(s);
    assert rem == Residue(len2) && product == Product(rem, a.s1);
    hide Update, Split, Join, Combined, Residue, Product;
    forall data: seq<Byte> | len2 == |data| && adler2 == Adler(1, data) ensures r == Adler(adler1, data) {
      FromOne(data);
      CombineIs(a, data);
    }
  }

  lemma FromOne(data: seq<Byte>)
    ensures Split(Adler(1, data)) == Update(Sums(1, 0), data)
  {
    assert Split(1) == Sums(1, 0);
    JoinSplit(Update(Sums(1, 0), data));
  }

  lemma TimesMono(x: nat, y: nat, z: nat)
    requires y <= z
    ensures x * y <= x * z
  {
  }

  lemma ProductFits(x: nat, y: nat)
    requires x < BASE && y < BASE
    ensures 0 <= x * y < TWO32
  {
    TimesMono(x, y, BASE - 1);
  }

  method CombineSums(a: Sums, b: Sums, rem: nat, product: nat, noDivide: bool) returns (r: Sums)
    requires Reduced(a) && Reduced(b) && rem < BASE && product < TWO32
    ensures r == Combined(a, b, rem, product)
  {
    var m := Mod(product, noDivide);
    assert m == Residue(product);
    hide Residue;
    var sum1, sum2 := a.s1, m;
    sum1 := sum1 + b.s1 + BASE - 1;
    sum2 := sum2 + a.s2 + b.s2 + BASE - rem;
    ghost var k1, k2 := 0, 0;
    if sum1 >= BASE {
      sum1, k1 := sum1 - BASE, 1;
    }
    if sum1 >= BASE {
      sum1, k1 := sum1 - BASE, k1 + 1;
    }
    if sum2 >= 2 * BASE {
      sum2, k2 := sum2 - 2 * BASE, 2;
    }
    if sum2 >= BASE {
      sum2, k2 := sum2 - BASE, k2 + 1;
    }
    ResidueIs(a.s1 + b.s1 + BASE - 1, sum1, k1);
    ResidueIs(m + a.s2 + b.s2 + BASE - rem, sum2, k2);
    r := Sums(sum1, sum2);
  }

  // ---- in closed form --------------------------------------------------------------------------

  // The sum of the bytes, and the sum in which each byte counts as often as there are bytes from it on.
  function Sum(data: seq<Byte>): nat { if data == [] then 0 else data[0] + Sum(data[1..]) }

  function Weighted(data: seq<Byte>): nat { if data == [] then 0 else Times(|data|, data[0]) + Weighted(data[1..]) }

  lemma {:induction false} SumSnoc(data: seq<Byte>, b: Byte)
    ensures Sum(data + [b]) == Sum(data) + b && Weighted(data + [b]) == Weighted(data) + Sum(data) + b
  {
    if data == [] {
      assert data + [b] == [b] && [b][1..] == [];
      assert Times(1, b) == b;
    } else {
      SumSnoc(data[1..], b);
      assert (data + [b])[1..] == data[1..] + [b];
      TimesMore(|data|, data[0]);
    }
  }

  lemma TimesMore(x: nat, y: nat)
    ensures Times(x + 1, y) == Times(x, y) + y
  {
  }

  lemma {:induction false} TotalInClosedForm(data: seq<Byte>)
    ensures Total(Sums(1, 0), data) == Sums(1 + Sum(data), |data| + Weighted(data))
  {
    if data != [] {
      var n := |data| - 1;
      TotalInClosedForm(data[..n]);
      SumSnoc(data[..n], data[n]);
      assert data[..n] + [data[n]] == data;
    }
  }

  // The checksum of section 8.2 of RFC 1950: 1 plus the sum of the bytes in the low half, in the high half the
  // sum of all sums so far, each modulo 65521.
  lemma InClosedForm(data: seq<Byte>)
    ensures Adler(1, data) == (1 + Sum(data)) % BASE + 0x1_0000 * ((|data| + Weighted(data)) % BASE)
  {
    hide *;
    StartsAtOne(data);
    TotalIs(Sums(1, 0), data);
    TotalInClosedForm(data);
    BothReduced(Total(Sums(1, 0), data), Update(Sums(1, 0), data));
  }

  lemma StartsAtOne(data: seq<Byte>)
    ensures Adler(1, data) == Join(Update(Sums(1, 0), data)) && Reduced(Update(Sums(1, 0), data))
  {
    assert Split(1) == Sums(1, 0);
    assert Reduced(Sums(1, 0));
    hide Split, Join;
  }

  lemma BothReduced(s: Sums, t: Sums)
    requires SameSums(s, t) && Reduced(t)
    ensures Join(t) == s.s1 % BASE + 0x1_0000 * (s.s2 % BASE)
  {
    assert t.s1 % BASE == t.s1 && t.s2 % BASE == t.s2;
  }

  // The checksum of "123456789".
  lemma CheckValue()
    ensures Adler(1, [0x31, 0x32, 0x33, 0x34, 0x35, 0x36, 0x37, 0x38, 0x39]) == 0x091e01de
  {
    hide *;
    var data := [0x31, 0x32, 0x33, 0x34, 0x35, 0x36, 0x37, 0x38, 0x39];
    InClosedForm(data);
    WeighNine(data);
    Nine();
  }

  lemma Nine()
    ensures Times(9, 0x31) == 441 && Times(8, 0x32) == 400 && Times(7, 0x33) == 357 && Times(6, 0x34) == 312 && Times(5, 0x35) == 265
    ensures Times(4, 0x36) == 216 && Times(3, 0x37) == 165 && Times(2, 0x38) == 112 && Times(1, 0x39) == 57
    ensures Sum([]) == 0 && 478 % BASE + 0x1_0000 * (2334 % BASE) == 0x091e01de
  {
  }

  lemma WeighNine(d: seq<Byte>)
    requires |d| == 9
    ensures Sum(d) == d[0] + d[1] + d[2] + d[3] + d[4] + d[5] + d[6] + d[7] + d[8] + Sum([])
    ensures Weighted(d) ==
      Times(9, d[0]) + Times(8, d[1]) + Times(7, d[2]) + Times(6, d[3]) + Times(5, d[4]) + Times(4, d[5]) + Times(3, d[6])
      + Times(2, d[7]) + Times(1, d[8])
  {
    WeighThree(d);
    WeighThree(d[3..]);
    WeighThree(d[6..]);
    assert d[3..][3..] == d[6..];
    assert d[6..][3..] == [];
  }

  lemma WeighThree(d: seq<Byte>)
    requires |d| >= 3
    ensures Sum(d) == d[0] + d[1] + d[2] + Sum(d[3..])
    ensures Weighted(d) == Times(|d|, d[0]) + Times(|d| - 1, d[1]) + Times(|d| - 2, d[2]) + Weighted(d[3..])
  {
    assert d[1..][1..] == d[2..] && d[2..][1..] == d[3..];
  }
}
