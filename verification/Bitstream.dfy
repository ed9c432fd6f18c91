// The bit helpers of auth/flow-ui/qr.js: numbers as bit lists, most significant bit
// first, and bit lists as bytes.
module Bitstream {
  import opened Arithmetic

  type Bit = b: int | 0 <= b < 2
  type Byte = b: int | 0 <= b < 256

  // value >>> i
  function ShiftRight(value: nat, i: nat): nat {
    if i == 0 then value else ShiftRight(value / 2, i - 1)
  }

  function ToBits(value: nat, length: nat): (bits: seq<Bit>)
    ensures |bits| == length
  {
    if length == 0 then [] else ToBits(value / 2, length - 1) + [value % 2]
  }

  function FromBits(bits: seq<Bit>): nat {
    if bits == [] then 0 else 2 * FromBits(bits[..|bits| - 1]) + bits[|bits| - 1]
  }

  lemma {:induction false} FromBitsBound(bits: seq<Bit>)
    ensures FromBits(bits) < Pow2(|bits|)
    ensures |bits| == 8 ==> FromBits(bits) < 256
  {
    if bits != [] {
      FromBitsBound(bits[..|bits| - 1]);
    }
    if |bits| == 8 {
      assert Pow2(4) == 16;
      assert Pow2(8) == 256;
    }
  }

  // n groups of eight bits, each read as a byte.
  function Pack(bits: seq<Bit>, n: nat): (bytes: seq<Byte>)
    requires |bits| == 8 * n
    ensures |bytes| == n
  {
    if n == 0 then [] else FromBitsBound(bits[..8]); [FromBits(bits[..8])] + Pack(bits[8..], n - 1)
  }

  function Unpack(bytes: seq<Byte>): (bits: seq<Bit>)
    ensures |bits| == 8 * |bytes|
  {
    if bytes == [] then [] else ToBits(bytes[0], 8) + Unpack(bytes[1..])
  }

  lemma {:induction false} FromToBits(value: nat, length: nat)
    requires value < Pow2(length)
    ensures FromBits(ToBits(value, length)) == value
  {
    if length > 0 {
      FromToBits(value / 2, length - 1);
      assert ToBits(value, length)[..length - 1] == ToBits(value / 2, length - 1);
    }
  }

  lemma {:induction false} ToFromBits(bits: seq<Bit>)
    ensures ToBits(FromBits(bits), |bits|) == bits
  {
    if bits != [] {
      ToFromBits(bits[..|bits| - 1]);
      assert bits == bits[..|bits| - 1] + [bits[|bits| - 1]];
    }
  }

  lemma {:induction false} ToBitsAt(value: nat, length: nat, k: nat)
    requires k < length
    ensures ToBits(value, length)[k] == ShiftRight(value, length - 1 - k) % 2
  {
    if k < length - 1 {
      ToBitsAt(value / 2, length - 1, k);
    }
  }

  lemma {:induction false} UnpackPack(bits: seq<Bit>, n: nat)
    requires |bits| == 8 * n
    ensures Unpack(Pack(bits, n)) == bits
  {
    if n > 0 {
      ToFromBits(bits[..8]);
      UnpackPack(bits[8..], n - 1);
      assert Pack(bits, n)[1..] == Pack(bits[8..], n - 1);
      assert bits == bits[..8] + bits[8..];
    }
  }

  lemma {:induction false} PackUnpack(bytes: seq<Byte>)
    ensures Pack(Unpack(bytes), |bytes|) == bytes
  {
    if bytes != [] {
      assert Pow2(4) == 16;
      assert Pow2(8) == 256;
      FromToBits(bytes[0], 8);
      PackUnpack(bytes[1..]);
      assert Unpack(bytes)[..8] == ToBits(bytes[0], 8);
      assert Unpack(bytes)[8..] == Unpack(bytes[1..]);
    }
  }

  lemma {:induction false} PackConcat(a: seq<Bit>, m: nat, b: seq<Bit>, n: nat)
    requires |a| == 8 * m && |b| == 8 * n
    ensures Pack(a + b, m + n) == Pack(a, m) + Pack(b, n)
  {
    if m == 0 {
      assert a + b == b;
    } else {
      assert (a + b)[..8] == a[..8];
      assert (a + b)[8..] == a[8..] + b;
      PackConcat(a[8..], m - 1, b, n);
    }
  }

  lemma SliceOfRest(bits: seq<Bit>, n: nat, a: nat, b: nat)
    requires a <= b && n + b <= |bits|
    ensures bits[n..][a..b] == bits[n + a..n + b]
  {}

  lemma {:induction false} PackAt(bits: seq<Bit>, n: nat, t: nat)
    requires |bits| == 8 * n && t < n
    ensures Pack(bits, n)[t] == FromBits(bits[8 * t..8 * t + 8])
  {
    if t > 0 {
      hide FromBits;
      PackAt(bits[8..], n - 1, t - 1);
      SliceOfRest(bits, 8, 8 * (t - 1), 8 * t);
      FromBitsBound(bits[..8]);
    }
  }

  lemma {:induction false} UnpackConcat(a: seq<Byte>, b: seq<Byte>)
    ensures Unpack(a + b) == Unpack(a) + Unpack(b)
  {
    if a == [] {
      assert a + b == b;
    } else {
      assert (a + b)[1..] == a[1..] + b;
      UnpackConcat(a[1..], b);
    }
  }

  lemma {:induction false} UnpackAt(bytes: seq<Byte>, k: nat)
    requires k < 8 * |bytes|
    ensures Unpack(bytes)[k] == ShiftRight(bytes[k / 8], 7 - k % 8) % 2
  {
    if k < 8 {
      ToBitsAt(bytes[0], 8, k);
    } else {
      UnpackAt(bytes[1..], k - 8);
    }
  }

  class Bits {
    var bits: seq<Bit>

    constructor ()
      ensures bits == []
    {
      bits := [];
    }

    method Push(value: nat, length: nat)
      modifies this
      ensures bits == old(bits) + ToBits(value, length)
    {
      var i := length;
      while i > 0
        invariant 0 <= i <= length
        invariant bits == old(bits) + ToBits(value, length)[..length - i]
      {
        i := i - 1;
        ToBitsAt(value, length, length - 1 - i);
        bits := bits + [ShiftRight(value, i) % 2];
      }
    }
  }
}
