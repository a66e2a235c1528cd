/** The Merkle root over content hashes, in Go and in TypeScript
    (wevibe-hub/internal/chain/merkle.go, wevibe-dashboard/lib/merkle.ts). */
module Merkle {
  // `sha` stands for SHA-256. Byte slices are values here; `MerkleSlices` adds the memory Go's `append`
  // writes into.

  import opened StableSort
  import opened ByteOrder
  import opened Powers

  ghost predicate AllBytes(leaves: seq<Bytes>) {
    forall i :: 0 <= i < |leaves| ==> AreBytes(leaves[i])
  }

  /** The comparison both sorts use: of hexadecimal texts. */
  function ByHex(): (Bytes, Bytes) -> bool {
    (a, b) => Leq(Hex(a), Hex(b))
  }

  /** One round: neighbours are hashed together, a last odd one with itself. */
  function Round(sha: Bytes -> Bytes, layer: seq<Bytes>): (r: seq<Bytes>)
    ensures |r| == (|layer| + 1) / 2
  {
    if layer == [] then []
    else if |layer| == 1 then [sha(layer[0] + layer[0])]
    else [sha(layer[0] + layer[1])] + Round(sha, layer[2..])
  }

  /** What hash `q` of a round is taken of. */
  function Join(layer: seq<Bytes>, q: nat): Bytes
    requires 2 * q < |layer|
  {
    layer[2 * q] + layer[if 2 * q + 1 < |layer| then 2 * q + 1 else 2 * q]
  }

  lemma {:induction false} RoundAt(sha: Bytes -> Bytes, layer: seq<Bytes>, q: nat)
    requires 2 * q < |layer|
    ensures Round(sha, layer)[q] == sha(Join(layer, q))
  {
    if q > 0 {
      RoundAt(sha, layer[2..], q - 1);
    }
  }

  function Top(sha: Bytes -> Bytes, layer: seq<Bytes>): Bytes
    requires layer != []
    decreases |layer|
  {
    if |layer| == 1 then layer[0] else Top(sha, Round(sha, layer))
  }

  /** The root as a function of the leaves in byte order. A lone leaf is hashed; no leaves are the hash of
      nothing. */
  function Root(sha: Bytes -> Bytes, leaves: seq<Bytes>): Bytes {
    if leaves == [] then Hex(sha([]))
    else if |leaves| == 1 then Hex(sha(leaves[0]))
    else Hex(Top(sha, Sort(Lexicographic(), leaves)))
  }

  // ----- the sort -----

  /** Sorting by hexadecimal text, however ties are broken, puts the leaves in byte order: equal texts are
      equal leaves. */
  lemma HexSorts(leaves: seq<Bytes>, arranged: seq<Bytes>)
    requires AllBytes(leaves) && Sorted(ByHex(), arranged) && multiset(arranged) == multiset(leaves)
    ensures arranged == Sort(Lexicographic(), leaves)
  {
    LexicographicTotal();
    forall i, j | 0 <= i < j < |arranged| ensures Lexicographic()(arranged[i], arranged[j]) {
      assert arranged[i] in multiset(leaves) && arranged[j] in multiset(leaves);
      assert ByHex()(arranged[i], arranged[j]);
      HexOrder(arranged[i], arranged[j]);
    }
    SortUnique(Lexicographic(), leaves, arranged);
  }

  /** The root does not depend on the order of the leaves. */
  lemma RootAnyOrder(sha: Bytes -> Bytes, a: seq<Bytes>, b: seq<Bytes>)
    requires multiset(a) == multiset(b)
    ensures Root(sha, a) == Root(sha, b)
  {
    assert |a| == |multiset(a)| && |b| == |multiset(b)|;
    if |a| == 1 {
      assert a[0] in multiset(b);
      assert b == [b[0]];
    } else if |a| > 1 {
      LexicographicTotal();
      SortSorted(Lexicographic(), b);
      SortMultiset(Lexicographic(), b);
      SortUnique(Lexicographic(), a, Sort(Lexicographic(), b));
    }
  }

  // ----- how many rounds -----

  function Rounds(n: nat): nat {
    if n <= 1 then 0 else 1 + Rounds((n + 1) / 2)
  }

  /** The least number of doublings that reaches `n`. */
  lemma {:induction false} RoundsAreLog(n: nat)
    requires n > 0
    ensures n <= Pow2(Rounds(n)) && (n > 1 ==> Pow2(Rounds(n) - 1) < n)
  {
    if n > 1 {
      var half := (n + 1) / 2;
      RoundsAreLog(half);
      if half > 1 {
        assert Pow2(Rounds(n) - 1) == 2 * Pow2(Rounds(half) - 1);
      }
    }
  }

  // ----- the two loops -----

  lemma {:induction false} RoundSplit(sha: Bytes -> Bytes, a: seq<Bytes>, b: seq<Bytes>)
    requires |a| % 2 == 0
    ensures Round(sha, a + b) == Round(sha, a) + Round(sha, b)
  {
    if a == [] {
      assert a + b == b;
    } else {
      assert (a + b)[0] == a[0] && (a + b)[1] == a[1] && (a + b)[2..] == a[2..] + b;
      RoundSplit(sha, a[2..], b);
    }
  }

  lemma RoundFew(sha: Bytes -> Bytes, x: Bytes, y: Bytes)
    ensures Round(sha, [x, y]) == [sha(x + y)] && Round(sha, [x]) == [sha(x + x)]
  {
    assert [x, y][2..] == [];
  }

  /** Repeating the last of an odd layer changes nothing. */
  lemma RoundPadded(sha: Bytes -> Bytes, layer: seq<Bytes>)
    requires |layer| % 2 == 1
    ensures Round(sha, layer + [layer[|layer| - 1]]) == Round(sha, layer)
  {
    hide Round;
    var init, last := layer[..|layer| - 1], layer[|layer| - 1];
    Repadded(layer, init, last);
    RoundSplit(sha, init, [last]);
    RoundSplit(sha, init, [last, last]);
    RoundFew(sha, last, last);
  }

  lemma Repadded(layer: seq<Bytes>, init: seq<Bytes>, last: Bytes)
    requires layer != [] && init == layer[..|layer| - 1] && last == layer[|layer| - 1]
    ensures layer == init + [last] && layer + [last] == init + [last, last]
  {
  }

  lemma RoundSnoc(sha: Bytes -> Bytes, layer: seq<Bytes>, i: nat)
    requires i % 2 == 0 && i + 1 < |layer|
    ensures Round(sha, layer[..i + 2]) == Round(sha, layer[..i]) + [sha(layer[i] + layer[i + 1])]
  {
    assert layer[..i + 2] == layer[..i] + [layer[i], layer[i + 1]];
    RoundSplit(sha, layer[..i], [layer[i], layer[i + 1]]);
    RoundFew(sha, layer[i], layer[i + 1]);
  }

  /** One round of the Go loop: results go into a slice made for them. */
  method RoundGo(sha: Bytes -> Bytes, start: seq<Bytes>) returns (result: seq<Bytes>)
    ensures result == Round(sha, start)
  {
    hide Round;
    var layer := start;
    if |layer| % 2 != 0 {
      RoundPadded(sha, layer);
      layer := layer + [layer[|layer| - 1]];
    }
    var next := new Bytes[|layer| / 2];
    var i := 0;
    assert next[..0] == Round(sha, layer[..0]);
    while i < |layer|
      invariant i % 2 == 0 && i <= |layer| && |layer| % 2 == 0
      invariant next[..i / 2] == Round(sha, layer[..i])
    {
      RoundSnoc(sha, layer, i);
      next[i / 2] := sha(layer[i] + layer[i + 1]);
      assert next[..i / 2 + 1] == next[..i / 2] + [next[i / 2]];
      i := i + 2;
    }
    assert layer[..i] == layer;
    assert next[..] == next[..i / 2];
    return next[..];
  }

  /** One round of the TypeScript loop: results are pushed. */
  method RoundTs(sha: Bytes -> Bytes, start: seq<Bytes>) returns (next: seq<Bytes>)
    ensures next == Round(sha, start)
  {
    hide Round;
    var layer := start;
    if |layer| % 2 != 0 {
      RoundPadded(sha, layer);
      layer := layer + [layer[|layer| - 1]];
    }
    next := [];
    var i := 0;
    assert [] == Round(sha, layer[..0]);
    while i < |layer|
      invariant i % 2 == 0 && i <= |layer| && |layer| % 2 == 0
      invariant next == Round(sha, layer[..i])
    {
      RoundSnoc(sha, layer, i);
      var left, right := layer[i], layer[i + 1];
      next := next + [sha(left + right)];
      i := i + 2;
    }
    assert layer[..i] == layer;
  }

  /** `sorted` is what `sort.Slice` made of a copy of the leaves. */
  method ComputeMerkleRootGo(sha: Bytes -> Bytes, leaves: seq<Bytes>, sorted: seq<Bytes>)
    returns (root: Bytes, ghost rounds: nat)
    requires AllBytes(leaves) && Sorted(ByHex(), sorted) && multiset(sorted) == multiset(leaves)
    ensures root == Root(sha, leaves) && rounds == Rounds(|leaves|)
  {
    hide Round, Hex, AllBytes, Sorted;
    rounds := 0;
    if |leaves| == 0 {
      return Hex(sha([])), rounds;
    }
    if |leaves| == 1 {
      return Hex(sha(leaves[0])), rounds;
    }
    HexSorts(leaves, sorted);
    var layer := sorted;
    while |layer| > 1
      invariant layer != [] && Top(sha, layer) == Top(sha, sorted)
      invariant rounds + Rounds(|layer|) == Rounds(|leaves|)
      decreases |layer|
    {
      layer := RoundGo(sha, layer);
      rounds := rounds + 1;
    }
    root := Hex(layer[0]);
  }

  /** `sorted` is what `sort` made of a copy of the leaves. */
  method ComputeMerkleRootTs(sha: Bytes -> Bytes, leaves: seq<Bytes>, sorted: seq<Bytes>)
    returns (root: Bytes, ghost rounds: nat)
    requires AllBytes(leaves) && Sorted(ByHex(), sorted) && multiset(sorted) == multiset(leaves)
    ensures root == Root(sha, leaves) && rounds == Rounds(|leaves|)
  {
    hide Round, Hex, AllBytes, Sorted;
    rounds := 0;
    if |leaves| == 0 {
      return Hex(sha([])), rounds;
    }
    if |leaves| == 1 {
      return Hex(sha(leaves[0])), rounds;
    }
    HexSorts(leaves, sorted);
    var layer := sorted;
    while |layer| > 1
      invariant layer != [] && Top(sha, layer) == Top(sha, sorted)
      invariant rounds + Rounds(|layer|) == Rounds(|leaves|)
      decreases |layer|
    {
      layer := RoundTs(sha, layer);
      rounds := rounds + 1;
    }
    root := Hex(layer[0]);
  }
}
