/**
 Fixed-width big-endian integers, as `to_be_bytes` and `from_be_bytes` read and
 write them. The two functions are inverse in both directions at every width.
 */
module BigEndian {
  import opened Common

  function Pow256(n: nat): (p: nat)
    ensures p >= 1
  {
    if n == 0 then 1 else 0x100 * Pow256(n - 1)
  }

  /** The low `width` base-256 digits of `n`, most significant first. */
  function ToBytes(n: nat, width: nat): (bytes: seq<u8>)
    ensures |bytes| == width
    decreases width
  {
    if width == 0 then [] else ToBytes(n / 0x100, width - 1) + [n % 0x100]
  }

  function FromBytes(bytes: seq<u8>): (n: nat)
  {
    if |bytes| == 0 then 0 else 0x100 * FromBytes(bytes[..|bytes| - 1]) + bytes[|bytes| - 1]
  }

  lemma {:induction false} FromBytesBound(bytes: seq<u8>)
    ensures FromBytes(bytes) < Pow256(|bytes|)
  {
    if |bytes| > 0 {
      FromBytesBound(bytes[..|bytes| - 1]);
    }
  }

  lemma {:induction false} FromToBytes(n: nat, width: nat)
    requires n < Pow256(width)
    ensures FromBytes(ToBytes(n, width)) == n
    decreases width
  {
    if width > 0 {
      FromToBytes(n / 0x100, width - 1);
      assert ToBytes(n, width)[..width - 1] == ToBytes(n / 0x100, width - 1);
    }
  }

  lemma {:induction false} ToFromBytes(bytes: seq<u8>)
    ensures ToBytes(FromBytes(bytes), |bytes|) == bytes
  {
    if |bytes| > 0 {
      var init := bytes[..|bytes| - 1];
      ToFromBytes(init);
      assert FromBytes(bytes) / 0x100 == FromBytes(init);
      assert bytes == init + [bytes[|bytes| - 1]];
    }
  }

  /** Distinct values below the width's range have distinct encodings. */
  lemma ToBytesInjective(a: nat, b: nat, width: nat)
    requires a < Pow256(width) && b < Pow256(width)
    requires ToBytes(a, width) == ToBytes(b, width)
    ensures a == b
  {
    FromToBytes(a, width);
    FromToBytes(b, width);
  }

  lemma Pow256Two()
    ensures Pow256(2) == U16_SIZE
  {
    assert Pow256(1) == 0x100;
  }

  lemma Pow256Eight()
    ensures Pow256(8) == U64_SIZE
  {
    assert Pow256(2) == 0x1_0000 by { Pow256Two(); }
    assert Pow256(4) == 0x1_0000_0000 by { assert Pow256(3) == 0x100_0000; }
    assert Pow256(6) == 0x1_0000_0000_0000 by { assert Pow256(5) == 0x100_0000_0000; }
    assert Pow256(7) == 0x100_0000_0000_0000;
  }

  lemma {:induction false} Pow256Monotonic(m: nat, n: nat)
    requires m <= n
    ensures Pow256(m) <= Pow256(n)
    decreases n
  {
    if m < n {
      Pow256Monotonic(m, n - 1);
    }
  }
}
