/** The pairing-code codec: base32 without padding, sections 3.2, 3.5 and 6 of RFC 4648
    (wevibe-dashboard/lib/wevibe-auth.ts). */
module Base32 {
  // Buffers are natural numbers that stay below 2^12, so the source's 32-bit operators do on them what
  // ShiftLeft, ShiftRight and Mask do.

  import opened Text
  import opened Bits
  import opened Wrappers
  import opened Powers

  /** `ABCDEFGHIJKLMNOPQRSTUVWXYZ234567`. */
  predicate InAlphabet(c: char) {
    'A' <= c <= 'Z' || '2' <= c <= '7'
  }

  function Symbol(index: nat): char
    requires index < 32
  {
    if index < 26 then 'A' + index as char else '2' + (index - 26) as char
  }

  function IndexOf(c: char): nat
    requires InAlphabet(c)
  {
    if 'A' <= c <= 'Z' then (c as int) - ('A' as int) else 26 + (c as int) - ('2' as int)
  }

  predicate OverAlphabet(s: string) {
    forall i :: 0 <= i < |s| ==> InAlphabet(s[i])
  }

  function Indices(s: string): (r: seq<nat>)
    requires OverAlphabet(s)
    ensures |r| == |s| && forall i :: 0 <= i < |s| ==> r[i] == IndexOf(s[i])
  {
    seq(|s|, i requires 0 <= i < |s| => IndexOf(s[i]))
  }

  function Symbols(words: seq<nat>): (r: string)
    requires Words(5, words)
    ensures |r| == |words| && forall i :: 0 <= i < |words| ==> words[i] < 32 && r[i] == Symbol(words[i])
  {
    seq(|words|, i requires 0 <= i < |words| => assert Pow2(5) == 32; Symbol(words[i]))
  }

  lemma IndicesSnoc(s: string, i: nat)
    requires i < |s| && OverAlphabet(s[..i]) && InAlphabet(s[i])
    ensures OverAlphabet(s[..i + 1]) && Indices(s[..i + 1]) == Indices(s[..i]) + [IndexOf(s[i])]
  {
  }

  lemma SymbolsIndices(s: string)
    requires OverAlphabet(s)
    ensures Words(5, Indices(s)) && Symbols(Indices(s)) == s
  {
    assert Pow2(5) == 32;
  }

  lemma IndicesSymbols(words: seq<nat>)
    requires Words(5, words)
    ensures OverAlphabet(Symbols(words)) && Indices(Symbols(words)) == words
  {
  }

  // ----- the encoding as bits -----

  /** How many zero bits fill the last symbol. */
  function Fill(bits: nat): nat {
    (5 - bits % 5) % 5
  }

  function Encode(bytes: seq<nat>): (r: string)
    requires Words(8, bytes)
  {
    var bits := Stream(8, bytes);
    PackWords(5, bits + Zeros(Fill(|bits|)));
    Symbols(Pack(5, bits + Zeros(Fill(|bits|))))
  }

  /** The bits the decoder makes whole bytes of; the rest is left over. */
  function Whole(bits: nat): nat {
    bits - bits % 8
  }

  predicate Accepts(s: string) {
    && OverAlphabet(s)
    && var bits := Stream(5, Indices(s));
       bits[Whole(|bits|)..] == Zeros(|bits| % 8)
  }

  function Decode(s: string): Option<seq<nat>> {
    if !Accepts(s) then None
    else
      var bits := Stream(5, Indices(s));
      Some(Pack(8, bits[..Whole(|bits|)]))
  }

  /** The decoder's whole input: trimmed, upper-cased, then decoded. */
  function DecodeText(value: string, toUpper: string -> string): Option<seq<nat>> {
    Decode(toUpper(Trim(value)))
  }

  // ----- round trips -----

  lemma FillFills(n: nat)
    ensures n + Fill(n) == 5 * ((n + 4) / 5) && Fill(n) < 5
  {
  }

  lemma FillUnique(n: nat, symbols: nat, fill: nat)
    requires 5 * symbols == n + fill && fill < 5
    ensures fill == Fill(n)
  {
  }

  lemma EncodeBits(bytes: seq<nat>)
    requires Words(8, bytes)
    ensures OverAlphabet(Encode(bytes))
    ensures Stream(5, Indices(Encode(bytes))) == Stream(8, bytes) + Zeros(Fill(8 * |bytes|))
    ensures |Encode(bytes)| == (8 * |bytes| + 4) / 5
  {
    hide Stream, Pack, Fill, Zeros, Symbols, Indices, OverAlphabet;
    var bits := Stream(8, bytes) + Zeros(Fill(8 * |bytes|));
    FillFills(8 * |bytes|);
    PackWords(5, bits);
    StreamPack(5, bits, (8 * |bytes| + 4) / 5);
    IndicesSymbols(Pack(5, bits));
  }

  lemma WholeOfFilled(n: nat)
    requires n % 8 == 0
    ensures Whole(n + Fill(n)) == n && (n + Fill(n)) % 8 == Fill(n)
  {
  }

  /** Decoding what was encoded gives the bytes back, for every byte string. */
  lemma DecodeEncode(bytes: seq<nat>)
    requires Words(8, bytes)
    ensures Decode(Encode(bytes)) == Some(bytes)
  {
    hide Stream, Pack, Fill, Zeros, Indices, OverAlphabet, Encode, Whole, Words;
    EncodeBits(bytes);
    var n := 8 * |bytes|;
    var all := Stream(5, Indices(Encode(bytes)));
    WholeOfFilled(n);
    assert all[n..] == Zeros(Fill(n)) && all[..n] == Stream(8, bytes);
    PackStream(8, bytes);
  }

  /** An accepted string of `n` symbols holds floor(5n/8) bytes, in order, and then only zero bits. */
  lemma DecodeBits(s: string)
    requires Decode(s).Some?
    ensures Words(8, Decode(s).value) && |Decode(s).value| == 5 * |s| / 8
    ensures Stream(5, Indices(s)) == Stream(8, Decode(s).value) + Zeros(5 * |s| % 8)
  {
    var bits := Stream(5, Indices(s));
    var whole := bits[..Whole(|bits|)];
    PackWords(8, whole);
    StreamPack(8, whole, |whole| / 8);
    assert bits == whole + bits[Whole(|bits|)..];
  }

  /** Encoding what was decoded gives the string back exactly when no symbol was superfluous. */
  lemma EncodeDecodeExactly(s: string)
    requires Decode(s).Some?
    ensures Words(8, Decode(s).value)
    ensures Encode(Decode(s).value) == s <==> |s| % 8 in {0, 2, 4, 5, 7}
  {
    DecodeBits(s);
    var bytes := Decode(s).value;
    EncodeBits(bytes);
    var n := |s|;
    assert 8 * |bytes| == 5 * n - 5 * n % 8;
    if 5 * n % 8 < 5 {
      LeftoverIsFill(n);
      assert Stream(5, Indices(Encode(bytes))) == Stream(5, Indices(s));
      SymbolsIndices(s);
      SymbolsIndices(Encode(bytes));
      PackStream(5, Indices(s));
      PackStream(5, Indices(Encode(bytes)));
    }
    Leftovers(n);
  }

  lemma LeftoverIsFill(n: nat)
    requires 5 * n % 8 < 5
    ensures Fill(5 * n - 5 * n % 8) == 5 * n % 8
  {
  }

  lemma Leftovers(n: nat)
    ensures 5 * n % 8 < 5 <==> n % 8 in {0, 2, 4, 5, 7}
    ensures 5 * n % 8 >= 5 ==> (5 * n - 5 * n % 8 + 4) / 5 < n
  {
    assert n == 8 * (n / 8) + n % 8;
    assert 5 * n % 8 == 5 * (n % 8) % 8;
  }

  /** Upper-casing leaves upper-case letters and digits alone. */
  ghost predicate FixesAlphabet(toUpper: string -> string) {
    forall s :: OverAlphabet(s) ==> toUpper(s) == s
  }

  /** The same through the decoder's own normalization. */
  lemma PairingRoundTrip(bytes: seq<nat>, toUpper: string -> string)
    requires Words(8, bytes) && FixesAlphabet(toUpper)
    ensures DecodeText(Encode(bytes), toUpper) == Some(bytes)
  {
    EncodeBits(bytes);
    var s := Encode(bytes);
    TrimFixes(s);
    DecodeEncode(bytes);
  }

  // ----- the two loops -----

  /** Pushing the next word into the buffer. */
  lemma Absorb(k: nat, consumed: seq<nat>, next: nat, j: nat, words: seq<nat>, buffer: nat, count: nat)
    requires next < Pow2(k) && Stream(j, words) + BitsOf(buffer, count) == Stream(k, consumed)
    ensures Stream(j, words) + BitsOf(ShiftLeft(buffer, k) + next, count + k) == Stream(k, consumed + [next])
  {
    StreamSnoc(k, consumed, next);
    JoinBits(buffer, count, next, k);
    assert Stream(j, words) + (BitsOf(buffer, count) + BitsOf(next, k))
        == (Stream(j, words) + BitsOf(buffer, count)) + BitsOf(next, k);
  }

  /** One step of either inner loop: the top `k` bits of the buffer move to the output. */
  lemma TakeTop(buffer: nat, count: nat, k: nat, words: seq<nat>, word: nat)
    requires count >= k && word == Mask(ShiftRight(buffer, count - k), k)
    ensures Stream(k, words + [word]) + BitsOf(buffer, count - k) == Stream(k, words) + BitsOf(buffer, count)
  {
    SplitBits(buffer, k, count - k);
    MaskedBits(ShiftRight(buffer, count - k), k);
    StreamSnoc(k, words, word);
    assert Stream(k, words) + (BitsOf(word, k) + BitsOf(buffer, count - k))
        == (Stream(k, words) + BitsOf(word, k)) + BitsOf(buffer, count - k);
  }

  lemma Shifted(v: nat)
    ensures ShiftLeft(v, 5) == 32 * v && ShiftLeft(v, 8) == 256 * v
  {
    assert ShiftLeft(v, 1) == 2 * ShiftLeft(v, 0);
    assert ShiftLeft(v, 3) == 2 * ShiftLeft(v, 2) == 4 * ShiftLeft(v, 1);
    assert ShiftLeft(v, 5) == 2 * ShiftLeft(v, 4) == 4 * ShiftLeft(v, 3);
    assert ShiftLeft(v, 7) == 2 * ShiftLeft(v, 6) == 4 * ShiftLeft(v, 5);
    assert ShiftLeft(v, 8) == 2 * ShiftLeft(v, 7);
  }

  /** What keeps the buffer within 12 bits. */
  lemma SmallBuffer(buffer: nat, count: nat, word: nat, k: nat)
    requires buffer < Pow2(count) && word < Pow2(k)
    requires (k == 8 && count < 5) || (k == 5 && count < 8)
    ensures ShiftLeft(buffer, k) + word < 4096
  {
    Shifted(buffer);
  }

  lemma SymbolsSnoc(words: seq<nat>, word: nat)
    requires Words(5, words) && word < Pow2(5)
    ensures Words(5, words + [word]) && word < 32 && Symbols(words + [word]) == Symbols(words) + [Symbol(word)]
  {
  }

  /** The encoder's last symbol, when bits are left: they are filled up with zeros. */
  lemma LastSymbol(bytes: seq<nat>, words: seq<nat>, buffer: nat, count: nat, word: nat)
    requires 0 < count < 5 && word == Mask(ShiftLeft(buffer, 5 - count), 5)
    requires Stream(5, words) + BitsOf(buffer, count) == Stream(8, bytes)
    ensures Stream(5, words + [word]) == Stream(8, bytes) + Zeros(5 - count)
  {
    PadBits(buffer, count, 5 - count);
    MaskedBits(ShiftLeft(buffer, 5 - count), 5);
    StreamSnoc(5, words, word);
    assert Stream(5, words) + (BitsOf(buffer, count) + Zeros(5 - count))
        == (Stream(5, words) + BitsOf(buffer, count)) + Zeros(5 - count);
  }

  lemma EncoderDone(bytes: seq<nat>, words: seq<nat>)
    requires Words(8, bytes) && Words(5, words)
    requires exists fill: nat :: fill < 5 && Stream(5, words) == Stream(8, bytes) + Zeros(fill)
    ensures Symbols(words) == Encode(bytes)
  {
    hide Stream, Zeros, Fill, Pack;
    var fill: nat :| fill < 5 && Stream(5, words) == Stream(8, bytes) + Zeros(fill);
    FillUnique(8 * |bytes|, |words|, fill);
    PackStream(5, words);
  }

  method BytesToBase32(bytes: seq<nat>) returns (output: string)
    requires Words(8, bytes)
    ensures output == Encode(bytes)
  {
    hide Stream, BitsOf, ShiftLeft, ShiftRight, Mask, Encode, Zeros, Symbols;
    output := "";
    var bitBuffer: nat, bitCount: nat := 0, 0;
    ghost var words: seq<nat> := [];
    var i := 0;
    assert Stream(5, []) + BitsOf(0, 0) == Stream(8, bytes[..0]);
    while i < |bytes|
      invariant i <= |bytes| && bitCount < 5 && bitBuffer < Pow2(bitCount)
      invariant Words(5, words) && output == Symbols(words)
      invariant Stream(5, words) + BitsOf(bitBuffer, bitCount) == Stream(8, bytes[..i])
    {
      assert bytes[..i + 1] == bytes[..i] + [bytes[i]];
      Absorb(8, bytes[..i], bytes[i], 5, words, bitBuffer, bitCount);
      SmallBuffer(bitBuffer, bitCount, bytes[i], 8);
      bitBuffer := ShiftLeft(bitBuffer, 8) + bytes[i];
      bitCount := bitCount + 8;
      while bitCount >= 5
        invariant bitCount < 13 && bitBuffer < 4096
        invariant Words(5, words) && output == Symbols(words)
        invariant Stream(5, words) + BitsOf(bitBuffer, bitCount) == Stream(8, bytes[..i + 1])
      {
        var index := Mask(ShiftRight(bitBuffer, bitCount - 5), 5);
        TakeTop(bitBuffer, bitCount, 5, words, index);
        SymbolsSnoc(words, index);
        output := output + [Symbol(index)];
        words := words + [index];
        bitCount := bitCount - 5;
      }
      MaskedBits(bitBuffer, bitCount);
      bitBuffer := Mask(bitBuffer, bitCount);
      i := i + 1;
    }
    assert bytes[..i] == bytes;
    if bitCount > 0 {
      var index := Mask(ShiftLeft(bitBuffer, 5 - bitCount), 5);
      LastSymbol(bytes, words, bitBuffer, bitCount, index);
      SymbolsSnoc(words, index);
      output := output + [Symbol(index)];
      words := words + [index];
    } else {
      assert Stream(5, words) == Stream(5, words) + BitsOf(bitBuffer, 0);
      assert Stream(8, bytes) == Stream(8, bytes) + Zeros(0);
    }
    EncoderDone(bytes, words);
  }

  /** What the decoder finds after the last symbol. */
  lemma DecoderDone(s: string, bytes: seq<nat>, buffer: nat, count: nat)
    requires OverAlphabet(s) && Words(8, bytes) && count < 8 && buffer < Pow2(count)
    requires Stream(8, bytes) + BitsOf(buffer, count) == Stream(5, Indices(s))
    ensures Decode(s) == if Mask(buffer, count) == 0 then Some(bytes) else None
  {
    hide Stream, BitsOf, Pack, Indices, OverAlphabet, Words, Mask, Zeros, Pow2;
    var bits := Stream(5, Indices(s));
    assert |bits| == 8 * |bytes| + count;
    assert Whole(|bits|) == 8 * |bytes| && |bits| % 8 == count;
    assert bits[8 * |bytes|..] == BitsOf(buffer, count) && bits[..8 * |bytes|] == Stream(8, bytes);
    ZeroBits(buffer, count);
    MaskSmall(buffer, count);
    PackStream(8, bytes);
  }

  lemma Refused(s: string, i: nat)
    requires i < |s| && !InAlphabet(s[i])
    ensures Decode(s) == None
  {
  }

  method Base32ToBytes(value: string, toUpper: string -> string) returns (decoded: Option<seq<nat>>)
    ensures decoded == DecodeText(value, toUpper)
  {
    hide Stream, BitsOf, ShiftLeft, ShiftRight, Mask, Decode, Trim;
    var normalized := toUpper(Trim(value));
    assert Stream(8, []) + BitsOf(0, 0) == Stream(5, Indices(normalized[..0]));
    if |normalized| == 0 {
      assert normalized[..0] == normalized;
      DecoderDone(normalized, [], 0, 0);
      MaskSmall(0, 0);
      return Some([]);
    }
    var bytes: seq<nat> := [];
    var bitBuffer: nat, bitCount: nat := 0, 0;
    var i := 0;
    while i < |normalized|
      invariant i <= |normalized| && bitCount < 8 && bitBuffer < Pow2(bitCount) && OverAlphabet(normalized[..i])
      invariant Words(8, bytes)
      invariant Stream(8, bytes) + BitsOf(bitBuffer, bitCount) == Stream(5, Indices(normalized[..i]))
    {
      if !InAlphabet(normalized[i]) {
        Refused(normalized, i);
        return None;
      }
      var index := IndexOf(normalized[i]);
      IndicesSnoc(normalized, i);
      Absorb(5, Indices(normalized[..i]), index, 8, bytes, bitBuffer, bitCount);
      SmallBuffer(bitBuffer, bitCount, index, 5);
      JoinedSmall(bitBuffer, bitCount, index);
      bitBuffer := ShiftLeft(bitBuffer, 5) + index;
      bitCount := bitCount + 5;
      while bitCount >= 8
        invariant bitCount < 13 && bitBuffer < 4096 && bitBuffer < Pow2(bitCount)
        invariant Words(8, bytes)
        invariant Stream(8, bytes) + BitsOf(bitBuffer, bitCount) == Stream(5, Indices(normalized[..i + 1]))
      {
        var byte := Mask(ShiftRight(bitBuffer, bitCount - 8), 8);
        TakeTop(bitBuffer, bitCount, 8, bytes, byte);
        bytes := bytes + [byte];
        bitCount := bitCount - 8;
        MaskedBits(bitBuffer, bitCount);
        bitBuffer := Mask(bitBuffer, bitCount);
      }
      i := i + 1;
    }
    assert normalized[..i] == normalized;
    DecoderDone(normalized, bytes, bitBuffer, bitCount);
    MaskSmall(bitBuffer, bitCount);
    if bitCount > 0 && Mask(bitBuffer, bitCount) != 0 {
      return None;
    }
    return Some(bytes);
  }

  /** The buffer holds no more bits than the count says. */
  lemma JoinedSmall(buffer: nat, count: nat, index: nat)
    requires buffer < Pow2(count) && index < 32
    ensures ShiftLeft(buffer, 5) + index < Pow2(count + 5)
  {
    Shifted(buffer);
    assert Pow2(count + 5) == 32 * Pow2(count) by {
      assert Pow2(count + 2) == 4 * Pow2(count);
      assert Pow2(count + 4) == 16 * Pow2(count);
    }
  }
}
