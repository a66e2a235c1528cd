/** What the codecs and the Merkle root come to in numbers: base32 as big-endian numbers over its alphabet
    (section 6 of RFC 4648), the worked examples of the Protocol Buffers encoding guide, and small trees. */
module KnownAnswers {
  import opened Bits
  import opened Powers
  import opened Wrappers
  import Base32
  import WireFormat
  import Merkle
  import StableSort
  import opened ByteOrder

  // ----- base32 -----

  /** The symbols in their order. */
  lemma Alphabet(i: nat)
    requires i < 32
    ensures var symbols := "ABCDEFGHIJKLMNOPQRSTUVWXYZ234567";
            && Base32.Symbol(i) == symbols[i]
            && forall c :: Base32.InAlphabet(c) && Base32.IndexOf(c) == i <==> c == symbols[i]
  {
  }

  /** Digits, the most significant first, as a number. */
  function Number(radix: nat, digits: seq<nat>): nat {
    if digits == [] then 0 else radix * Number(radix, digits[..|digits| - 1]) + digits[|digits| - 1]
  }

  lemma {:induction false} ValueAppend(a: seq<bool>, b: seq<bool>)
    ensures Value(a + b) == Value(a) * Pow2(|b|) + Value(b)
  {
    if b == [] {
      assert a + b == a;
    } else {
      var init, last := b[..|b| - 1], if b[|b| - 1] then 1 else 0;
      assert (a + b)[..|a + b| - 1] == a + init;
      ValueAppend(a, init);
      Doubled(Value(a), Pow2(|init|), Value(init), last);
    }
  }

  lemma Doubled(v: nat, p: nat, w: nat, last: nat)
    ensures 2 * (v * p + w) + last == v * (2 * p) + (2 * w + last)
  {
  }

  lemma {:induction false} StreamNumber(k: nat, words: seq<nat>)
    requires Words(k, words)
    ensures Value(Stream(k, words)) == Number(Pow2(k), words)
  {
    if words != [] {
      var init, last := words[..|words| - 1], words[|words| - 1];
      StreamNumber(k, init);
      ValueAppend(Stream(k, init), BitsOf(last, k));
      ValueOfBits(last, k);
      MaskSmall(last, k);
      Commute(Number(Pow2(k), init), Pow2(k));
    }
  }

  lemma Commute(a: nat, b: nat)
    ensures a * b == b * a
  {
  }

  lemma {:induction false} ZerosValue(n: nat)
    ensures Value(Zeros(n)) == 0
  {
    if n > 0 {
      ZerosValue(n - 1);
      assert Zeros(n)[..n - 1] == Zeros(n - 1);
    }
  }

  lemma Radices()
    ensures Pow2(5) == 32 && Pow2(8) == 256
  {
    assert Pow2(4) == 16;
  }

  lemma FilledNumber(bytes: seq<nat>, words: seq<nat>, fill: nat)
    requires Words(8, bytes) && Words(5, words) && Stream(5, words) == Stream(8, bytes) + Zeros(fill)
    ensures Number(32, words) == Number(256, bytes) * Pow2(fill)
  {
    Radices();
    StreamNumber(8, bytes);
    StreamNumber(5, words);
    ValueAppend(Stream(8, bytes), Zeros(fill));
    ZerosValue(fill);
    hide Stream, Zeros, Value, Number, Pow2;
  }

  /** The code of `n` bytes has as many symbols as their bits need, five to each, and as a number in radix 32 it is
      the bytes' number in radix 256, moved up by the bits that are left. */
  lemma EncodedNumber(bytes: seq<nat>)
    requires Words(8, bytes)
    ensures Base32.OverAlphabet(Base32.Encode(bytes))
    ensures var code := Base32.Indices(Base32.Encode(bytes));
            && |code| == (8 * |bytes| + 4) / 5
            && Number(32, code) == Number(256, bytes) * Pow2(5 * |code| - 8 * |bytes|)
  {
    Base32.EncodeBits(bytes);
    var code := Base32.Indices(Base32.Encode(bytes));
    Base32.SymbolsIndices(Base32.Encode(bytes));
    FilledNumber(bytes, code, Base32.Fill(8 * |bytes|));
    assert |Stream(5, code)| == 5 * |code|;
  }

  /** The other way round for what the decoder accepts. */
  lemma DecodedNumber(s: string)
    requires Base32.Decode(s).Some?
    ensures Base32.OverAlphabet(s)
    ensures var bytes := Base32.Decode(s).value;
            && |bytes| == 5 * |s| / 8
            && Number(32, Base32.Indices(s)) == Number(256, bytes) * Pow2(5 * |s| % 8)
  {
    Base32.DecodeBits(s);
    Base32.SymbolsIndices(s);
    FilledNumber(Base32.Decode(s).value, Base32.Indices(s), 5 * |s| % 8);
  }

  // ----- protobuf -----

  /** The encoding guide's varints and fields: 1, 150 and 300; the field 1 set to 150; and the field 2 set to
      "testing". */
  lemma GuideExamples()
    ensures WireFormat.Varint(1) == [0x01]
    ensures WireFormat.Varint(150) == [0x96, 0x01]
    ensures WireFormat.Varint(300) == [0xAC, 0x02]
    ensures WireFormat.EncodeField(WireFormat.Field(1, WireFormat.Num(150))) == [0x08, 0x96, 0x01]
    ensures WireFormat.EncodeField(WireFormat.Field(2, WireFormat.Text([0x74, 0x65, 0x73, 0x74, 0x69, 0x6E, 0x67])))
         == [0x12, 0x07, 0x74, 0x65, 0x73, 0x74, 0x69, 0x6E, 0x67]
  {
    assert WireFormat.Varint(150) == [150 % 128 + 128] + WireFormat.Varint(1);
    assert WireFormat.Varint(300) == [300 % 128 + 128] + WireFormat.Varint(2);
    assert WireFormat.Varint(7) == [0x07];
  }

  // ----- Merkle roots -----

  lemma DigitText(d: nat)
    requires d < 16
    ensures var digits := "0123456789abcdef";
            Digit(d) == digits[d] as nat
  {
  }

  lemma {:induction false} HexAt(s: Bytes, i: nat)
    requires i < |s|
    ensures |Hex(s)| == 2 * |s| && Hex(s)[2 * i] == Digit(s[i] / 16) && Hex(s)[2 * i + 1] == Digit(s[i] % 16)
  {
    hide Digit;
    if |s| == 1 {
      assert Hex(s[1..]) == [];
    } else {
      var p := if i > 0 then i - 1 else 0;
      HexAt(s[1..], p);
    }
  }

  /** Two lower-case digits to a byte. */
  lemma HexDigits(s: Bytes, i: nat)
    requires AreBytes(s) && i < |s|
    ensures var digits := "0123456789abcdef";
            && |Hex(s)| == 2 * |s|
            && Hex(s)[2 * i] == digits[s[i] / 16] as nat && Hex(s)[2 * i + 1] == digits[s[i] % 16] as nat
  {
    hide Hex, Digit;
    HexAt(s, i);
    DigitText(s[i] / 16);
    DigitText(s[i] % 16);
  }

  /** The tree over leaves in order: a node joins the two below it, or one that has no neighbour with itself. */
  ghost function Node(sha: Bytes -> Bytes, leaves: seq<Bytes>, level: nat, q: nat): Bytes {
    if level == 0 then if q < |leaves| then leaves[q] else []
    else
      var left := Node(sha, leaves, level - 1, 2 * q);
      var right := if 2 * q + 1 < Width(|leaves|, level - 1) then Node(sha, leaves, level - 1, 2 * q + 1) else left;
      sha(left + right)
  }

  /** How many nodes a level has. */
  function Width(n: nat, level: nat): nat {
    if level == 0 then n else (Width(n, level - 1) + 1) / 2
  }

  function Layer(sha: Bytes -> Bytes, leaves: seq<Bytes>, level: nat): (r: seq<Bytes>)
    ensures |r| == Width(|leaves|, level)
  {
    if level == 0 then leaves else Merkle.Round(sha, Layer(sha, leaves, level - 1))
  }

  lemma {:induction false} LayerNodes(sha: Bytes -> Bytes, leaves: seq<Bytes>, level: nat, q: nat)
    requires q < Width(|leaves|, level)
    ensures Layer(sha, leaves, level)[q] == Node(sha, leaves, level, q)
  {
    if level > 0 {
      var below := Layer(sha, leaves, level - 1);
      Merkle.RoundAt(sha, below, q);
      hide Merkle.Round, Merkle.Top;
      LayerNodes(sha, leaves, level - 1, 2 * q);
      if 2 * q + 1 < |below| {
        LayerNodes(sha, leaves, level - 1, 2 * q + 1);
      }
    }
  }

  lemma RoundsStep(n: nat)
    requires n > 1
    ensures Merkle.Rounds(n) == 1 + Merkle.Rounds((n + 1) / 2)
  {
  }

  lemma TopOfOne(sha: Bytes -> Bytes, layer: seq<Bytes>)
    requires |layer| == 1
    ensures Merkle.Top(sha, layer) == layer[0] && Merkle.Rounds(1) == 0
  {
  }

  lemma TopStep(sha: Bytes -> Bytes, layer: seq<Bytes>)
    requires |layer| > 1
    ensures Merkle.Round(sha, layer) != [] && Merkle.Top(sha, layer) == Merkle.Top(sha, Merkle.Round(sha, layer))
  {
  }

  /** Hashing a layer up to its top goes up the tree's levels, however many rounds that takes. */
  lemma {:induction false} TopIsNode(sha: Bytes -> Bytes, leaves: seq<Bytes>, level: nat)
    requires Layer(sha, leaves, level) != []
    ensures var layer := Layer(sha, leaves, level);
            Merkle.Top(sha, layer) == Node(sha, leaves, level + Merkle.Rounds(|layer|), 0)
    decreases Width(|leaves|, level)
  {
    hide *;
    var layer := Layer(sha, leaves, level);
    if |layer| == 1 {
      LayerNodes(sha, leaves, level, 0);
      TopOfOne(sha, layer);
    } else {
      TopStep(sha, layer);
      RoundsStep(|layer|);
      NextLayer(sha, leaves, level);
      TopIsNode(sha, leaves, level + 1);
    }
  }

  lemma NextLayer(sha: Bytes -> Bytes, leaves: seq<Bytes>, level: nat)
    ensures Layer(sha, leaves, level + 1) == Merkle.Round(sha, Layer(sha, leaves, level))
    ensures Width(|leaves|, level + 1) == (Width(|leaves|, level) + 1) / 2
  {
  }

  lemma OrderedIsSorted(leaves: seq<Bytes>, ordered: seq<Bytes>)
    requires StableSort.Sorted(Lexicographic(), ordered) && multiset(ordered) == multiset(leaves)
    ensures StableSort.Sort(Lexicographic(), leaves) == ordered && |ordered| == |leaves|
  {
    assert |ordered| == |multiset(ordered)| == |multiset(leaves)| == |leaves|;
    LexicographicTotal();
    StableSort.SortUnique(Lexicographic(), leaves, ordered);
  }

  lemma FirstLayer(sha: Bytes -> Bytes, leaves: seq<Bytes>)
    ensures Layer(sha, leaves, 0) == leaves
  {
  }

  lemma RootIsTop(sha: Bytes -> Bytes, leaves: seq<Bytes>)
    requires |leaves| >= 2
    ensures Merkle.Root(sha, leaves) == Hex(Merkle.Top(sha, StableSort.Sort(Lexicographic(), leaves)))
  {
  }

  /** For two leaves or more the root is the node at the top of the tree over the leaves in byte order. */
  lemma RootIsTree(sha: Bytes -> Bytes, leaves: seq<Bytes>, ordered: seq<Bytes>)
    requires |leaves| >= 2 && StableSort.Sorted(Lexicographic(), ordered) && multiset(ordered) == multiset(leaves)
    ensures Merkle.Root(sha, leaves) == Hex(Node(sha, ordered, Merkle.Rounds(|leaves|), 0))
  {
    hide *;
    OrderedIsSorted(leaves, ordered);
    FirstLayer(sha, ordered);
    RootIsTop(sha, leaves);
    TopIsNode(sha, ordered, 0);
  }

  lemma SmallTrees(sha: Bytes -> Bytes, a: Bytes, b: Bytes, c: Bytes)
    ensures Merkle.Rounds(2) == 1 && Node(sha, [a, b], 1, 0) == sha(a + b)
    ensures Merkle.Rounds(3) == 2 && Node(sha, [a, b, c], 2, 0) == sha(sha(a + b) + sha(c + c))
  {
    var three := [a, b, c];
    assert Width(3, 0) == 3 && Width(3, 1) == 2;
    assert Node(sha, three, 1, 0) == sha(a + b) by {
      assert Node(sha, three, 0, 0) == a && Node(sha, three, 0, 1) == b;
    }
    assert Node(sha, three, 1, 1) == sha(c + c) by {
      assert Node(sha, three, 0, 2) == c;
    }
    RoundsStep(2);
    RoundsStep(3);
  }

  lemma FewRoots(sha: Bytes -> Bytes, a: Bytes)
    ensures Merkle.Root(sha, []) == Hex(sha([])) && Merkle.Root(sha, [a]) == Hex(sha(a))
  {
  }

  /** The roots of two and of three leaves. */
  lemma RootOfTwo(sha: Bytes -> Bytes, a: Bytes, b: Bytes)
    requires Leq(a, b)
    ensures Merkle.Root(sha, [b, a]) == Hex(sha(a + b))
  {
    SmallTrees(sha, a, b, b);
    InOrder([a, b]);
    hide *;
    assert multiset([a, b]) == multiset([b, a]);
    RootIsTree(sha, [b, a], [a, b]);
  }

  lemma Rotated(a: Bytes, b: Bytes, c: Bytes)
    ensures multiset([a, b, c]) == multiset([c, a, b])
  {
    assert [a, b, c] == [a, b] + [c] && [c, a, b] == [c] + [a, b];
  }

  lemma RootOfThree(sha: Bytes -> Bytes, a: Bytes, b: Bytes, c: Bytes)
    requires Leq(a, b) && Leq(b, c)
    ensures Merkle.Root(sha, [c, a, b]) == Hex(sha(sha(a + b) + sha(c + c)))
  {
    SmallTrees(sha, a, b, c);
    LeqTransitive(a, b, c);
    InOrder([a, b, c]);
    hide *;
    Rotated(a, b, c);
    RootIsTree(sha, [c, a, b], [a, b, c]);
  }

  lemma InOrder(leaves: seq<Bytes>)
    requires forall i, j :: 0 <= i < j < |leaves| ==> Leq(leaves[i], leaves[j])
    ensures StableSort.Sorted(Lexicographic(), leaves)
  {
  }
}
