/** Big-endian bit strings, and the shifts and masks of a bit buffer as operations on them: shifting left
    appends zeros, shifting right drops the low end, masking keeps it. A sequence of words is the stream of
    their bits, whatever width it is then cut into. */
module Bits {
  import opened Powers

  /** The low `n` bits of `v`, high bit first. */
  function BitsOf(v: nat, n: nat): (r: seq<bool>)
    ensures |r| == n
  {
    if n == 0 then [] else BitsOf(v / 2, n - 1) + [v % 2 == 1]
  }

  function Value(bits: seq<bool>): nat {
    if bits == [] then 0 else 2 * Value(bits[..|bits| - 1]) + if bits[|bits| - 1] then 1 else 0
  }

  /** `v << n`. */
  function ShiftLeft(v: nat, n: nat): nat {
    if n == 0 then v else 2 * ShiftLeft(v, n - 1)
  }

  /** `v >>> n`. */
  function ShiftRight(v: nat, n: nat): nat {
    if n == 0 then v else ShiftRight(v / 2, n - 1)
  }

  /** `v & ((1 << n) - 1)`. */
  function Mask(v: nat, n: nat): (r: nat)
    ensures r < Pow2(n)
  {
    if n == 0 then 0 else 2 * Mask(v / 2, n - 1) + v % 2
  }

  /** The three operators are what they are called: together they take a number apart and put it
      together again. */
  lemma {:induction false} ShiftsAndMasks(v: nat, n: nat)
    ensures ShiftLeft(ShiftRight(v, n), n) + Mask(v, n) == v
    ensures ShiftLeft(1, n) == Pow2(n)
  {
    if n > 0 {
      ShiftsAndMasks(v / 2, n - 1);
    }
  }

  lemma {:induction false} ValueOfBits(v: nat, n: nat)
    ensures Value(BitsOf(v, n)) == Mask(v, n)
  {
    if n > 0 {
      ValueOfBits(v / 2, n - 1);
      assert BitsOf(v, n)[..n - 1] == BitsOf(v / 2, n - 1);
    }
  }

  lemma {:induction false} BitsOfValue(bits: seq<bool>)
    ensures BitsOf(Value(bits), |bits|) == bits && Value(bits) < Pow2(|bits|)
    decreases |bits|
  {
    if bits != [] {
      BitsOfValue(bits[..|bits| - 1]);
      assert bits == bits[..|bits| - 1] + [bits[|bits| - 1]];
    }
  }

  lemma {:induction false} MaskSmall(v: nat, n: nat)
    requires v < Pow2(n)
    ensures Mask(v, n) == v
  {
    if n > 0 {
      MaskSmall(v / 2, n - 1);
    }
  }

  lemma {:induction false} MaskedBits(v: nat, n: nat)
    ensures BitsOf(Mask(v, n), n) == BitsOf(v, n)
  {
    ValueOfBits(v, n);
    BitsOfValue(BitsOf(v, n));
  }

  /** Dropping `b` low bits and keeping them apart. */
  lemma {:induction false} SplitBits(v: nat, a: nat, b: nat)
    ensures BitsOf(v, a + b) == BitsOf(ShiftRight(v, b), a) + BitsOf(v, b)
    decreases b
  {
    if b > 0 {
      SplitBits(v / 2, a, b - 1);
      assert BitsOf(ShiftRight(v, b), a) + (BitsOf(v / 2, b - 1) + [v % 2 == 1])
          == (BitsOf(ShiftRight(v, b), a) + BitsOf(v / 2, b - 1)) + [v % 2 == 1];
    } else {
      assert BitsOf(v, a) + [] == BitsOf(v, a);
    }
  }

  /** Pushing `w`'s `k` bits in at the low end. */
  lemma {:induction false} JoinBits(v: nat, n: nat, w: nat, k: nat)
    requires w < Pow2(k)
    ensures BitsOf(ShiftLeft(v, k) + w, n + k) == BitsOf(v, n) + BitsOf(w, k)
    decreases k
  {
    if k > 0 {
      JoinBits(v, n, w / 2, k - 1);
      assert (ShiftLeft(v, k) + w) / 2 == ShiftLeft(v, k - 1) + w / 2;
      assert BitsOf(v, n) + (BitsOf(w / 2, k - 1) + [w % 2 == 1]) == (BitsOf(v, n) + BitsOf(w / 2, k - 1)) + [w % 2 == 1];
    } else {
      assert BitsOf(v, n) + [] == BitsOf(v, n);
    }
  }

  function Zeros(n: nat): (r: seq<bool>)
    ensures |r| == n && forall i :: 0 <= i < n ==> !r[i]
  {
    seq(n, i => false)
  }

  lemma {:induction false} ZeroBits(v: nat, n: nat)
    requires v < Pow2(n)
    ensures BitsOf(v, n) == Zeros(n) <==> v == 0
  {
    if n > 0 {
      ZeroBits(v / 2, n - 1);
      assert BitsOf(v, n)[..n - 1] == BitsOf(v / 2, n - 1) && Zeros(n)[..n - 1] == Zeros(n - 1);
      assert BitsOf(v, n)[n - 1] == (v % 2 == 1);
      if v == 0 {
        assert BitsOf(v, n) == Zeros(n);
      }
    }
  }

  /** Shifting in `k` zeros. */
  lemma PadBits(v: nat, n: nat, k: nat)
    ensures BitsOf(ShiftLeft(v, k), n + k) == BitsOf(v, n) + Zeros(k)
  {
    JoinBits(v, n, 0, k);
    ZeroBits(0, k);
  }

  // ----- words of k bits -----

  function Stream(k: nat, words: seq<nat>): (r: seq<bool>)
    ensures |r| == k * |words|
  {
    if words == [] then [] else Stream(k, words[..|words| - 1]) + BitsOf(words[|words| - 1], k)
  }

  /** Whole words of `k` bits; what is left over is dropped. */
  function Pack(k: nat, bits: seq<bool>): (r: seq<nat>)
    requires k > 0
    decreases |bits|
  {
    if |bits| < k then [] else [Value(bits[..k])] + Pack(k, bits[k..])
  }

  predicate Words(k: nat, words: seq<nat>) {
    forall i :: 0 <= i < |words| ==> words[i] < Pow2(k)
  }

  lemma StreamSnoc(k: nat, words: seq<nat>, w: nat)
    ensures Stream(k, words + [w]) == Stream(k, words) + BitsOf(w, k)
  {
    assert (words + [w])[..|words|] == words;
  }

  lemma {:induction false} StreamCons(k: nat, w: nat, words: seq<nat>)
    ensures Stream(k, [w] + words) == BitsOf(w, k) + Stream(k, words)
    decreases |words|
  {
    var all := [w] + words;
    if words == [] {
      assert all[..0] == [];
      assert BitsOf(w, k) + [] == BitsOf(w, k) == [] + BitsOf(w, k);
    } else {
      var init, last := words[..|words| - 1], words[|words| - 1];
      assert all[..|all| - 1] == [w] + init && all[|all| - 1] == last;
      StreamCons(k, w, init);
      assert (BitsOf(w, k) + Stream(k, init)) + BitsOf(last, k) == BitsOf(w, k) + (Stream(k, init) + BitsOf(last, k));
    }
  }

  /** Packing undoes streaming. */
  lemma {:induction false} PackStream(k: nat, words: seq<nat>)
    requires k > 0 && Words(k, words)
    ensures Pack(k, Stream(k, words)) == words
    decreases |words|
  {
    if words != [] {
      var w, rest := words[0], words[1..];
      assert words == [w] + rest;
      StreamCons(k, w, rest);
      var bits := Stream(k, words);
      assert bits == BitsOf(w, k) + Stream(k, rest);
      assert bits[..k] == BitsOf(w, k) && bits[k..] == Stream(k, rest);
      ValueOfBits(w, k);
      MaskSmall(w, k);
      assert |bits| >= k;
      PackStream(k, rest);
    }
  }

  lemma StepLength(k: nat, n: nat)
    requires n > 0
    ensures k * n == k + k * (n - 1)
  {
  }

  lemma {:induction false} PackWords(k: nat, bits: seq<bool>)
    requires k > 0
    ensures Words(k, Pack(k, bits))
    decreases |bits|
  {
    if |bits| >= k {
      PackWords(k, bits[k..]);
      BitsOfValue(bits[..k]);
    }
  }

  /** Streaming undoes packing, when nothing is left over. */
  lemma {:induction false} StreamPack(k: nat, bits: seq<bool>, n: nat)
    requires k > 0 && |bits| == k * n
    ensures Stream(k, Pack(k, bits)) == bits && |Pack(k, bits)| == n
    decreases n
  {
    if n > 0 {
      StepLength(k, n);
      StreamPack(k, bits[k..], n - 1);
      BitsOfValue(bits[..k]);
      StreamCons(k, Value(bits[..k]), Pack(k, bits[k..]));
      assert bits == bits[..k] + bits[k..];
    }
  }
}
