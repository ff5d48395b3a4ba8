/**
 * What CRC-32 is, apart from its register: continuing a CRC, the residue of data followed by its own CRC,
 * and the check value.  Together they fix the polynomial, the order of the bits, and both complements.
 */
module CrcLaws {
  import opened Crc32
  import opened Gf2

  // The n low bytes, the least significant first.
  function Bytes(c: bv32, n: nat): (r: seq<bv8>)
    ensures |r| == n
  {
    if n == 0 then [] else [(c & 0xff) as bv8] + Bytes(c >> 8, n - 1)
  }

  function LittleEndian(c: bv32): seq<bv8> { Bytes(c, 4) }

  // ---- continuing ------------------------------------------------------------------------------

  // A CRC is the register, complemented, and continuing takes the complement back.
  lemma Continues(crc: bv32, a: seq<bv8>, b: seq<bv8>)
    ensures Crc(crc, []) == crc && Crc(Crc(crc, a), b) == Crc(crc, a + b)
  {
    RegConcat(Not(crc), a, b);
    hide Reg;
    NotTwice(crc);
    NotTwice(Reg(Not(crc), a));
    assert Reg(Not(crc), []) == Not(crc) by { RegEmpty(Not(crc)); }
  }

  lemma NotTwice(c: bv32)
    ensures Not(Not(c)) == c
  {
  }

  lemma RegEmpty(c: bv32)
    ensures Reg(c, []) == c
  {
  }

  // ---- the residue -----------------------------------------------------------------------------

  predicate Fits(m: bv32, n: nat) {
    n >= 4 || (n == 3 && m >> 24 == 0) || (n == 2 && m >> 16 == 0) || (n == 1 && m >> 8 == 0) || (n == 0 && m == 0)
  }

  lemma LowKept(m: bv32)
    ensures ((m & 0xff) as bv8) as bv32 == m & 0xff
  {
  }

  lemma FitsShifted(m: bv32, n: nat)
    requires Fits(m, n) && 1 <= n <= 4
    ensures Fits(m >> 8, n - 1)
  {
    ShiftTwice(m);
  }

  lemma ShiftTwice(m: bv32)
    ensures (m >> 8) >> 24 == 0 && (m >> 8) >> 16 == m >> 24 && (m >> 8) >> 8 == m >> 16
  {
  }

  lemma LowApart(m: bv32)
    ensures Xor(m, m & 0xff) & 0xff == 0 && Xor(m, m & 0xff) >> 8 == m >> 8
  {
  }

  // The low byte of m, and what is left of it, added to r.
  lemma LowByte(r: bv32, m: bv32)
    ensures Xor(r, m) == Xor(Xor(r, m & 0xff), Xor(m, m & 0xff))
  {
    hide Xor;
    var low := m & 0xff;
    XorAlgebra(m, low, 0);
    XorAlgebra(r, low, Xor(low, m));
    XorAlgebra(low, low, m);
    XorAlgebra(m, 0, 0);
  }

  // One byte in: what is left of m moves down.
  lemma FirstByteIn(r: bv32, m: bv32)
    ensures Iter(8, Xor(r, m)) == Xor(ByteIn(r, (m & 0xff) as bv8), m >> 8)
  {
    hide Iter, Xor;
    var low := m & 0xff;
    LowKept(m);
    LowApart(m);
    LowByte(r, m);
    ShiftOut(Xor(m, low));
    IterXor(8, Xor(r, low), Xor(m, low));
  }

  // Shifting n bytes in is adding them as one number and shifting out.
  lemma {:induction false} BytesIn(r: bv32, m: bv32, n: nat)
    requires Fits(m, n) && n <= 4
    ensures Reg(r, Bytes(m, n)) == Iter(8 * n, Xor(r, m))
    decreases n
  {
    if n == 0 {
      NoBytesIn(r, m);
    } else {
      hide *;
      FitsShifted(m, n);
      FirstByteIn(r, m);
      IterAdd(8 * (n - 1), 8, Xor(r, m));
      BytesIn(ByteIn(r, (m & 0xff) as bv8), m >> 8, n - 1);
      RegFirst(r, m, n);
    }
  }

  lemma RegFirst(r: bv32, m: bv32, n: nat)
    requires n >= 1
    ensures Reg(r, Bytes(m, n)) == Reg(ByteIn(r, (m & 0xff) as bv8), Bytes(m >> 8, n - 1))
  {
    hide ByteIn;
    assert Bytes(m, n)[0] == (m & 0xff) as bv8 && Bytes(m, n)[1..] == Bytes(m >> 8, n - 1);
  }

  lemma NoBytesIn(r: bv32, m: bv32)
    requires Fits(m, 0)
    ensures Reg(r, Bytes(m, 0)) == Iter(0, Xor(r, m))
  {
  }

  // Eight single steps.
  lemma Steps(c: seq<bv32>)
    requires |c| == 9 && forall i {:trigger c[i]} :: 0 <= i < 8 ==> c[i + 1] == Step(c[i])
    ensures Iter(8, c[0]) == c[8]
  {
    hide Step;
    IterUpTo(c, 8);
  }

  lemma {:induction false} IterUpTo(c: seq<bv32>, n: nat)
    requires n < |c| && forall i {:trigger c[i]} :: 0 <= i < |c| - 1 ==> c[i + 1] == Step(c[i])
    ensures Iter(n, c[0]) == c[n]
  {
    hide Step;
    if n > 0 {
      IterUpTo(c, n - 1);
      assert c[n - 1 + 1] == Step(c[n - 1]);
    }
  }

  lemma FirstOut()
    ensures Iter(8, 0xffffffff) == 0x2dfd1072
  {
    Steps([0xffffffff, 0x92477cdf, 0xa49b3d4f, 0xbff51d87, 0xb2420de3, 0xb49985d1, 0xb7f441c8, 0x5bfa20e4, 0x2dfd1072]);
  }

  lemma SecondOut()
    ensures Iter(8, 0x2dfd1072) == 0xbe26ed00
  {
    Steps([0x2dfd1072, 0x16fe8839, 0xe6c7c73c, 0x7363e39e, 0x39b1f1cf, 0xf1607bc7, 0x9508bec3, 0xa73cdc41, 0xbe26ed00]);
  }

  lemma ThirdOut()
    ensures Iter(8, 0xbe26ed00) == 0x00be26ed
  {
    Steps([0xbe26ed00, 0x5f137680, 0x2f89bb40, 0x17c4dda0, 0x0be26ed0, 0x05f13768, 0x02f89bb4, 0x017c4dda, 0x00be26ed]);
  }

  lemma FourthOut()
    ensures Iter(8, 0x00be26ed) == 0xdebb20e3
  {
    Steps([0x00be26ed, 0xede79056, 0x76f3c82b, 0xd6c16735, 0x86d830ba, 0x436c185d, 0xcc0e8f0e, 0x66074787, 0xdebb20e3]);
  }

  lemma OnesOut()
    ensures Iter(32, 0xffffffff) == 0xdebb20e3
  {
    hide *;
    FirstOut();
    SecondOut();
    ThirdOut();
    FourthOut();
    IterAdd(8, 8, 0xffffffff);
    IterAdd(8, 16, 0xffffffff);
    IterAdd(8, 24, 0xffffffff);
  }

  lemma WithOwn(c: bv32)
    ensures Xor(c, Not(c)) == 0xffffffff && Not(0xdebb20e3) == 0x2144df1c
  {
  }

  // Whatever the data, followed by its CRC in little-endian order it has the same CRC.
  lemma Residue(crc: bv32, data: seq<bv8>)
    ensures Crc(crc, data + LittleEndian(Crc(crc, data))) == 0x2144df1c
  {
    var c := Crc(crc, data);
    RegConcat(Not(crc), data, LittleEndian(c));
    hide Reg, Iter, Xor;
    var r := Reg(Not(crc), data);
    assert Fits(c, 4);
    BytesIn(r, c, 4);
    WithOwn(r);
    OnesOut();
  }

  // ---- the check value -------------------------------------------------------------------------

  lemma OneIn(c: bv32, b: bv8, steps: seq<bv32>)
    requires |steps| == 9 && steps[0] == Xor(c, b as bv32)
    requires forall i {:trigger steps[i]} :: 0 <= i < 8 ==> steps[i + 1] == Step(steps[i])
    ensures ByteIn(c, b) == steps[8]
  {
    Steps(steps);
  }

  lemma FirstThree()
    ensures Reg(0xffffffff, [0x31, 0x32, 0x33]) == 0x77b79c2d
  {
    OneIn(0xffffffff, 0x31, [0xffffffce, 0x7fffffe7, 0xd2477cd3, 0x849b3d49, 0xaff51d84, 0x57fa8ec2, 0x2bfd4761, 0xf8462090, 0x7c231048]);
    OneIn(0x7c231048, 0x32, [0x7c23107a, 0x3e11883d, 0xf2b0473e, 0x7958239f, 0xd11492ef, 0x8532ca57, 0xaf21e60b, 0xba287025, 0xb0acbb32]);
    OneIn(0xb0acbb32, 0x33, [0xb0acbb01, 0xb5eedea0, 0x5af76f50, 0x2d7bb7a8, 0x16bddbd4, 0x0b5eedea, 0x05af76f5, 0xef6f385a, 0x77b79c2d]);
    hide ByteIn;
    ThreeIn(0xffffffff, 0x31, 0x32, 0x33);
  }

  lemma SecondThree()
    ensures Reg(0x77b79c2d, [0x34, 0x35, 0x36]) == 0xf68d2c9e
  {
    OneIn(0x77b79c2d, 0x34, [0x77b79c19, 0xd6634d2c, 0x6b31a696, 0x3598d34b, 0xf774ea85, 0x9602f662, 0x4b017b31, 0xc8383eb8, 0x641c1f5c]);
    OneIn(0x641c1f5c, 0x35, [0x641c1f69, 0xdfb68c94, 0x6fdb464a, 0x37eda325, 0xf64e52b2, 0x7b272959, 0xd02b178c, 0x68158bc6, 0x340ac5e3]);
    OneIn(0x340ac5e3, 0x36, [0x340ac5d5, 0xf7bde1ca, 0x7bdef0e5, 0xd057fb52, 0x682bfda9, 0xd9ad7df4, 0x6cd6befa, 0x366b5f7d, 0xf68d2c9e]);
    hide ByteIn;
    ThreeIn(0x77b79c2d, 0x34, 0x35, 0x36);
  }

  lemma ThirdThree()
    ensures Reg(0xf68d2c9e, [0x37, 0x38, 0x39]) == 0x340bc6d9
  {
    OneIn(0xf68d2c9e, 0x37, [0xf68d2ca9, 0x96fe1574, 0x4b7f0aba, 0x25bf855d, 0xff67418e, 0x7fb3a0c7, 0xd2615343, 0x84882a81, 0xaffc9660]);
    OneIn(0xaffc9660, 0x38, [0xaffc9658, 0x57fe4b2c, 0x2bff2596, 0x15ff92cb, 0xe7474a45, 0x9e1b2602, 0x4f0d9301, 0xca3e4aa0, 0x651f2550]);
    OneIn(0x651f2550, 0x39, [0x651f2569, 0xdf371194, 0x6f9b88ca, 0x37cdc465, 0xf65e6112, 0x7b2f3089, 0xd02f1b64, 0x68178db2, 0x340bc6d9]);
    hide ByteIn;
    ThreeIn(0xf68d2c9e, 0x37, 0x38, 0x39);
  }

  lemma ThreeIn(c: bv32, x: bv8, y: bv8, z: bv8)
    ensures Reg(c, [x, y, z]) == ByteIn(ByteIn(ByteIn(c, x), y), z)
  {
    hide ByteIn;
    assert [x, y, z][1..] == [y, z] && [y, z][1..] == [z] && [z][1..] == [];
    assert Reg(ByteIn(ByteIn(c, x), y), [z]) == ByteIn(ByteIn(ByteIn(c, x), y), z);
  }

  // The CRC of the digits 1 to 9 in ASCII.
  lemma CheckValue()
    ensures Crc(0, [0x31, 0x32, 0x33, 0x34, 0x35, 0x36, 0x37, 0x38, 0x39]) == 0xcbf43926
  {
    FirstThree();
    SecondThree();
    ThirdThree();
    Complements();
    hide Reg, Not;
    var a: seq<bv8>, b: seq<bv8>, c: seq<bv8> := [0x31, 0x32, 0x33], [0x34, 0x35, 0x36], [0x37, 0x38, 0x39];
    RegConcat(0xffffffff, a, b);
    RegConcat(0xffffffff, a + b, c);
    assert a + b + c == [0x31, 0x32, 0x33, 0x34, 0x35, 0x36, 0x37, 0x38, 0x39];
  }

  lemma Complements()
    ensures Not(0) == 0xffffffff && Not(0x340bc6d9) == 0xcbf43926
  {
  }
}
