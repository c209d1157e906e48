/** Little-endian integers, and byte strings found at a position of a longer one. */
module LittleEndian {
  import opened Basics
  import opened VmdkReader

  function Pow256(w: nat): (p: nat)
    ensures p > 0
  {
    if w == 0 then 1 else 256 * Pow256(w - 1)
  }

  lemma Widths()
    ensures Pow256(2) == 0x1_0000 && Pow256(4) == 0x1_0000_0000 && Pow256(8) == 0x1_0000_0000_0000_0000
  {
    assert Pow256(1) == 256;
    assert Pow256(3) == 0x100_0000;
    assert Pow256(5) == 0x100_0000_0000 && Pow256(6) == 0x1_0000_0000_0000 && Pow256(7) == 0x100_0000_0000_0000;
  }

  /** The low `w` bytes of `n`, lowest first. */
  function Encode(n: nat, w: nat): (b: Bytes)
    ensures |b| == w
  {
    if w == 0 then [] else [(n % 256) as byte] + Encode(n / 256, w - 1)
  }

  function Decode(b: Bytes): nat {
    if b == [] then 0 else b[0] as nat + 256 * Decode(b[1..])
  }

  lemma {:induction false} RoundTrip(n: nat, w: nat)
    requires n < Pow256(w)
    ensures Decode(Encode(n, w)) == n
  {
    if w > 0 {
      assert n / 256 < Pow256(w - 1);
      RoundTrip(n / 256, w - 1);
      assert Encode(n, w)[1..] == Encode(n / 256, w - 1);
    }
  }

  lemma AtEnd(out: Bytes, b: Bytes)
    ensures At(out + b, |out|, b)
  {
  }

  lemma AtExtends(out: Bytes, out': Bytes, pos: nat, b: Bytes)
    requires At(out, pos, b) && out <= out'
    ensures At(out', pos, b)
  {
    assert out'[pos..pos + |b|] == out[pos..pos + |b|];
  }

  lemma AtParts(out: Bytes, pos: nat, a: Bytes, b: Bytes)
    requires At(out, pos, a + b)
    ensures At(out, pos, a) && At(out, pos + |a|, b)
  {
    assert (a + b)[..|a|] == a && (a + b)[|a|..] == b;
    assert out[pos..pos + |a|] == out[pos..pos + |a + b|][..|a|];
    assert out[pos + |a|..pos + |a| + |b|] == out[pos..pos + |a + b|][|a|..];
  }

  lemma {:induction false} DecodeIsLowestFirst(b: Bytes)
    requires |b| == 4
    ensures Decode(b) == b[0] as nat + 0x100 * b[1] as nat + 0x1_0000 * b[2] as nat + 0x100_0000 * b[3] as nat
  {
    assert b[1..][1..] == b[2..] && b[2..][1..] == b[3..] && b[3..][1..] == [];
    assert Decode(b[3..]) == b[3] as nat;
    assert Decode(b[2..]) == b[2] as nat + 256 * Decode(b[3..]);
    assert Decode(b[1..]) == b[1] as nat + 256 * Decode(b[2..]);
  }

  lemma WordIsDecoded(file: Bytes, pos: nat)
    requires pos + 4 <= |file|
    ensures WordAt(file, pos) == Some(Decode(file[pos..pos + 4]))
  {
    DecodeIsLowestFirst(file[pos..pos + 4]);
    hide Decode;
  }

  lemma WordReads(file: Bytes, pos: nat, n: nat)
    requires n < 0x1_0000_0000 && At(file, pos, Encode(n, 4))
    ensures WordAt(file, pos) == Some(n)
  {
    Widths();
    RoundTrip(n, 4);
    hide Encode, Decode;
    WordIsDecoded(file, pos);
  }

  lemma DecodeInHalves(b: Bytes)
    requires |b| == 8
    ensures Decode(b) == Decode(b[..4]) + 0x1_0000_0000 * Decode(b[4..])
  {
    DecodeIsLowestFirst(b[..4]);
    assert b[1..][1..] == b[2..] && b[2..][1..] == b[3..] && b[3..][1..] == b[4..];
    assert Decode(b[3..]) == b[3] as nat + 256 * Decode(b[4..]);
    assert Decode(b[2..]) == b[2] as nat + 256 * Decode(b[3..]);
    assert Decode(b[1..]) == b[1] as nat + 256 * Decode(b[2..]);
  }

  lemma LongReads(file: Bytes, pos: nat, n: nat)
    requires n < 0x1_0000_0000_0000_0000 && At(file, pos, Encode(n, 8))
    ensures LongAt(file, pos) == Some(n)
  {
    Widths();
    RoundTrip(n, 8);
    hide Encode, Decode, WordAt;
    var b := file[pos..pos + 8];
    assert b[..4] == file[pos..pos + 4] && b[4..] == file[pos + 4..pos + 4 + 4];
    DecodeInHalves(b);
    WordIsDecoded(file, pos);
    WordIsDecoded(file, pos + 4);
  }
}
