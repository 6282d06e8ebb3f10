/** Fixed-width big-endian integers: `u32::to_be_bytes`, `u64::to_be_bytes` and their inverses. */
module BigEndian {
  import opened Common

  /** How many values `width` bytes can hold. */
  function Bound(width: nat): (n: nat)
    ensures n > 0
  {
    if width == 0 then 1 else 256 * Bound(width - 1)
  }

  function Bytes(n: nat, width: nat): (s: seq<Byte>)
    ensures |s| == width
  {
    if width == 0 then [] else Bytes(n / 256, width - 1) + [n % 256]
  }

  function Value(s: seq<Byte>): nat {
    if s == [] then 0 else 256 * Value(s[..|s| - 1]) + s[|s| - 1]
  }

  lemma {:induction false} ValueOfBytes(n: nat, width: nat)
    requires n < Bound(width)
    ensures Value(Bytes(n, width)) == n
  {
    if width > 0 {
      ValueOfBytes(n / 256, width - 1);
      assert Bytes(n, width)[..width - 1] == Bytes(n / 256, width - 1);
    }
  }

  /** The first byte counts most. */
  lemma {:induction false} MostSignificantFirst(s: seq<Byte>)
    requires s != []
    ensures Value(s) == s[0] * Bound(|s| - 1) + Value(s[1..])
  {
    if |s| == 1 {
      assert s[..0] == [] && s[1..] == [];
    } else {
      var init, last := s[..|s| - 1], s[|s| - 1];
      MostSignificantFirst(init);
      assert s[1..][..|s| - 2] == init[1..];
      assert 256 * (s[0] * Bound(|s| - 2)) == s[0] * (256 * Bound(|s| - 2));
    }
  }

  lemma BytesInjective(m: nat, n: nat, width: nat)
    requires m < Bound(width) && n < Bound(width) && Bytes(m, width) == Bytes(n, width)
    ensures m == n
  {
    ValueOfBytes(m, width);
    ValueOfBytes(n, width);
  }

  lemma Bounds()
    ensures Bound(4) == 0x1_0000_0000 && Bound(8) == 0x1_0000_0000_0000_0000
  {
    assert Bound(2) == 0x1_0000;
    assert Bound(4) == 0x1_0000 * Bound(2);
    assert Bound(6) == 0x1_0000 * Bound(4);
    assert Bound(8) == 0x1_0000 * Bound(6);
  }
}
