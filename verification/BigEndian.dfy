/** Big-endian words in calldata and event data. */
module BigEndian {
  import opened Words

  type Bytes = seq<u8>

  function Pow256(n: nat): nat { if n == 0 then 1 else TWO_8 * Pow256(n - 1) }

  function FromBigEndian(b: Bytes): nat {
    if b == [] then 0 else FromBigEndian(b[..|b| - 1]) * TWO_8 + b[|b| - 1]
  }

  lemma {:induction false} BigEndianBound(b: Bytes)
    ensures FromBigEndian(b) < Pow256(|b|)
  {
    if b != [] {
      BigEndianBound(b[..|b| - 1]);
    }
  }

  /** Only zero bytes read as zero. */
  lemma {:induction false} ZeroIff(b: Bytes)
    ensures FromBigEndian(b) == 0 <==> forall i :: 0 <= i < |b| ==> b[i] == 0
  {
    if b != [] {
      var init, last := b[..|b| - 1], b[|b| - 1];
      ZeroIff(init);
      assert forall i :: 0 <= i < |init| ==> init[i] == b[i];
      assert (forall i :: 0 <= i < |b| ==> b[i] == 0) ==> last == 0;
    }
  }

  lemma {:induction false} PowAdds(m: nat, n: nat)
    ensures Pow256(m + n) == Pow256(m) * Pow256(n)
  {
    if m > 0 {
      PowAdds(m - 1, n);
      assert TWO_8 * (Pow256(m - 1) * Pow256(n)) == (TWO_8 * Pow256(m - 1)) * Pow256(n);
    }
  }

  /** The first byte is the most significant one. */
  lemma {:induction false} FirstByteLeads(b: Bytes)
    requires b != []
    ensures FromBigEndian(b) == b[0] * Pow256(|b| - 1) + FromBigEndian(b[1..])
  {
    if |b| == 1 {
      assert b[..0] == [] && b[1..] == [];
    } else {
      var init := b[..|b| - 1];
      FirstByteLeads(init);
      assert init[1..] == b[1..][..|b| - 2];
      assert b[0] * Pow256(|b| - 2) * TWO_8 == b[0] * Pow256(|b| - 1);
    }
  }

  lemma WordSize(n: nat)
    requires n == 32
    ensures Pow256(n) == TWO_256 && 128 * Pow256(n - 1) == TWO_255
  {
    var one, two, four, eight, sixteen := 1, 2, 4, 8, 16;
    PowAdds(one, one);
    PowAdds(two, two);
    PowAdds(four, four);
    PowAdds(eight, eight);
    PowAdds(sixteen, sixteen);
    assert Pow256(0) == 1 && Pow256(one) == TWO_8;
  }

  /** `U256::from_be_bytes` of the 32 bytes at `at`. */
  function Word(input: Bytes, at: nat): (w: u256)
    requires at + 32 <= |input|
    ensures input[at] >= 0x80 <==> w >= TWO_255
  {
    var b := input[at..at + 32];
    BigEndianBound(b);
    FirstByteLeads(b);
    BigEndianBound(b[1..]);
    WordSize(|b|);
    TopByteDecides(b[0], Pow256(31), FromBigEndian(b[1..]));
    FromBigEndian(b)
  }

  lemma TopByteDecides(top: nat, unit: nat, rest: nat)
    requires 128 * unit == TWO_255 && rest < unit
    ensures top >= 128 <==> top * unit + rest >= TWO_255
  {
    if top >= 128 {
      MulMono(128, top, unit, unit);
    } else {
      MulMono(top + 1, 128, unit, unit);
      assert (top + 1) * unit == top * unit + unit;
    }
  }

  /** The `len` low bytes of n, most significant first. */
  function ToBigEndian(n: nat, len: nat): (b: Bytes)
    ensures |b| == len
  {
    if len == 0 then [] else ToBigEndian(n / TWO_8, len - 1) + [n % TWO_8]
  }

  lemma {:induction false} ReadsBack(n: nat, len: nat)
    requires n < Pow256(len)
    ensures FromBigEndian(ToBigEndian(n, len)) == n
  {
    if len > 0 {
      ReadsBack(n / TWO_8, len - 1);
      var b := ToBigEndian(n, len);
      assert b[..len - 1] == ToBigEndian(n / TWO_8, len - 1);
    }
  }

  /** A 256-bit value written somewhere in calldata is read back there. */
  lemma WordReadsBack(before: Bytes, w: u256, rest: Bytes, at: nat)
    requires |before| == at
    ensures Word(before + ToBigEndian(w, 32) + rest, at) == w
  {
    var input := before + ToBigEndian(w, 32) + rest;
    assert input[at..at + 32] == ToBigEndian(w, 32);
    WordSize(|input[at..at + 32]|);
    ReadsBack(w, 32);
  }

  lemma AddressSize(n: nat)
    requires n == 20
    ensures Pow256(n) == TWO_160
  {
    var one, two, four, eight, sixteen := 1, 2, 4, 8, 16;
    PowAdds(one, one);
    PowAdds(two, two);
    PowAdds(four, four);
    PowAdds(eight, eight);
    PowAdds(sixteen, four);
    assert Pow256(0) == 1 && Pow256(one) == TWO_8;
  }
}
