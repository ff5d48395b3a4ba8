/**
 * The sizes of the hash table of zlib's deflate: 8 to 16 bits.
 */
module HashTable {
  predicate BitsOk(bits: nat) { 8 <= bits <= 16 }

  // The table has 1 << bits heads.
  function Mask(bits: nat): bv32
    requires BitsOk(bits)
  {
    match bits
    case 8 => 0xFF
    case 9 => 0x1FF
    case 10 => 0x3FF
    case 11 => 0x7FF
    case 12 => 0xFFF
    case 13 => 0x1FFF
    case 14 => 0x3FFF
    case 15 => 0x7FFF
    case _ => 0xFFFF
  }

  function HashSize(bits: nat): nat
    requires BitsOk(bits)
  {
    match bits
    case 8 => 0x100
    case 9 => 0x200
    case 10 => 0x400
    case 11 => 0x800
    case 12 => 0x1000
    case 13 => 0x2000
    case 14 => 0x4000
    case 15 => 0x8000
    case _ => 0x1_0000
  }

  lemma AtMostMask(x: bv32, m: bv32)
    ensures x & m <= m
  {
  }

  lemma BelowSize(bits: nat, y: bv32)
    requires BitsOk(bits) && y <= Mask(bits)
    ensures y as nat < HashSize(bits)
  {
  }

  lemma MaskedInTable(bits: nat, x: bv32)
    requires BitsOk(bits)
    ensures (x & Mask(bits)) as nat < HashSize(bits)
  {
    hide Mask, HashSize;
    AtMostMask(x, Mask(bits));
    BelowSize(bits, x & Mask(bits));
  }
}

/**
 * The rolling hash of zlib's deflate: of three bytes, in 8 to 16 bits.
 */
module DeflateHash {
  import opened HashTable

  // hash_shift is (bits + 2) / 3.
  function Shifted(bits: nat, h: bv32): bv32
    requires BitsOk(bits)
  {
    if bits <= 9 then h << 3 else if bits <= 12 then h << 4 else if bits <= 15 then h << 5 else h << 6
  }

  function UpdateHash(bits: nat, h: bv32, c: bv8): bv32
    requires BitsOk(bits)
  {
    (Shifted(bits, h) ^ (c as bv32)) & Mask(bits)
  }

  function Hash3(bits: nat, h: bv32, a: bv8, b: bv8, c: bv8): bv32
    requires BitsOk(bits)
  {
    UpdateHash(bits, UpdateHash(bits, UpdateHash(bits, h, a), b), c)
  }

  lemma Forget3(h: bv32, g: bv32, a: bv32, b: bv32, c: bv32, m: bv32)
    requires m < 1 << 9
    ensures ((((((((h << 3) ^ a) & m) << 3) ^ b) & m) << 3) ^ c) & m == ((((((((g << 3) ^ a) & m) << 3) ^ b) & m) << 3) ^ c) & m
  {
  }

  lemma Forget4(h: bv32, g: bv32, a: bv32, b: bv32, c: bv32, m: bv32)
    requires m < 1 << 12
    ensures ((((((((h << 4) ^ a) & m) << 4) ^ b) & m) << 4) ^ c) & m == ((((((((g << 4) ^ a) & m) << 4) ^ b) & m) << 4) ^ c) & m
  {
  }

  lemma Forget5(h: bv32, g: bv32, a: bv32, b: bv32, c: bv32, m: bv32)
    requires m < 1 << 15
    ensures ((((((((h << 5) ^ a) & m) << 5) ^ b) & m) << 5) ^ c) & m == ((((((((g << 5) ^ a) & m) << 5) ^ b) & m) << 5) ^ c) & m
  {
  }

  lemma Forget6(h: bv32, g: bv32, a: bv32, b: bv32, c: bv32, m: bv32)
    requires m < 1 << 18
    ensures ((((((((h << 6) ^ a) & m) << 6) ^ b) & m) << 6) ^ c) & m == ((((((((g << 6) ^ a) & m) << 6) ^ b) & m) << 6) ^ c) & m
  {
  }

  lemma HashForgets3(bits: nat, h: bv32, g: bv32, a: bv8, b: bv8, c: bv8)
    requires 8 <= bits <= 9
    ensures Hash3(bits, h, a, b, c) == Hash3(bits, g, a, b, c)
  {
    var m := Mask(bits);
    assert m < 1 << 9;
    hide Mask;
    Forget3(h, g, a as bv32, b as bv32, c as bv32, m);
  }

  lemma HashForgets4(bits: nat, h: bv32, g: bv32, a: bv8, b: bv8, c: bv8)
    requires 10 <= bits <= 12
    ensures Hash3(bits, h, a, b, c) == Hash3(bits, g, a, b, c)
  {
    var m := Mask(bits);
    assert m < 1 << 12;
    hide Mask;
    Forget4(h, g, a as bv32, b as bv32, c as bv32, m);
  }

  lemma HashForgets5(bits: nat, h: bv32, g: bv32, a: bv8, b: bv8, c: bv8)
    requires 13 <= bits <= 15
    ensures Hash3(bits, h, a, b, c) == Hash3(bits, g, a, b, c)
  {
    var m := Mask(bits);
    assert m < 1 << 15;
    hide Mask;
    Forget5(h, g, a as bv32, b as bv32, c as bv32, m);
  }

  lemma HashForgets6(bits: nat, h: bv32, g: bv32, a: bv8, b: bv8, c: bv8)
    requires bits == 16
    ensures Hash3(bits, h, a, b, c) == Hash3(bits, g, a, b, c)
  {
    var m := Mask(bits);
    assert m < 1 << 18;
    hide Mask;
    Forget6(h, g, a as bv32, b as bv32, c as bv32, m);
  }

  // After three updates nothing is left of what was there before.
  lemma HashForgets(bits: nat, h: bv32, g: bv32, a: bv8, b: bv8, c: bv8)
    requires BitsOk(bits)
    ensures Hash3(bits, h, a, b, c) == Hash3(bits, g, a, b, c)
  {
    hide Hash3;
    if bits <= 9 {
      HashForgets3(bits, h, g, a, b, c);
    } else if bits <= 12 {
      HashForgets4(bits, h, g, a, b, c);
    } else if bits <= 15 {
      HashForgets5(bits, h, g, a, b, c);
    } else {
      HashForgets6(bits, h, g, a, b, c);
    }
  }

  lemma LowByteKept(v: bv32, c: bv8, d: bv8, mask: bv32)
    requires mask & 0xFF == 0xFF
    requires (v ^ (c as bv32)) & mask == (v ^ (d as bv32)) & mask
    ensures c == d
  {
  }

  // Strings with the same hash and the same first two bytes have the same third byte.
  lemma ThirdByte(bits: nat, a: bv8, b: bv8, c: bv8, d: bv8)
    requires BitsOk(bits)
    requires Hash3(bits, 0, a, b, c) == Hash3(bits, 0, a, b, d)
    ensures c == d
  {
    assert Mask(bits) & 0xFF == 0xFF;
    LowByteKept(Shifted(bits, UpdateHash(bits, UpdateHash(bits, 0, a), b)), c, d, Mask(bits));
  }

  // A hash is an index of the table.
  lemma HashInTable(bits: nat, h: bv32, c: bv8)
    requires BitsOk(bits)
    ensures UpdateHash(bits, h, c) as nat < HashSize(bits)
  {
    hide Shifted, Mask, HashSize;
    MaskedInTable(bits, Shifted(bits, h) ^ (c as bv32));
  }
}
