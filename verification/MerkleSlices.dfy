/** The Merkle root over leaves that are Go slices into shared memory
    (wevibe-hub/internal/chain/merkle.go). */
module MerkleSlices {
  // `append` writes the right neighbour into the left one's spare capacity when it fits. Only the first
  // round does: later rounds work on hashes, each in memory of its own and full.

  import opened ByteOrder
  import opened Merkle
  import opened StableSort
  import opened Wrappers

  datatype Slice = Slice(start: nat, len: nat, cap: nat)

  predicate Within(s: Slice, size: nat) {
    s.len <= s.cap && s.start + s.cap <= size
  }

  predicate AllWithin(layer: seq<Slice>, size: nat) {
    forall i :: 0 <= i < |layer| ==> Within(layer[i], size)
  }

  function Content(memory: Bytes, s: Slice): (r: Bytes)
    requires Within(s, |memory|)
    ensures |r| == s.len
  {
    memory[s.start..s.start + s.len]
  }

  function Contents(memory: Bytes, layer: seq<Slice>): (r: seq<Bytes>)
    requires AllWithin(layer, |memory|)
    ensures |r| == |layer| && forall i :: 0 <= i < |r| ==> r[i] == Content(memory, layer[i])
  {
    seq(|layer|, i requires 0 <= i < |layer| => Content(memory, layer[i]))
  }

  predicate Fits(l: Slice, r: Slice) {
    l.len + r.len <= l.cap
  }

  /** Memory after `append(l, r...)`. */
  function Appended(memory: Bytes, l: Slice, r: Slice): (after: Bytes)
    requires Within(l, |memory|) && Within(r, |memory|)
    ensures |after| == |memory|
  {
    if !Fits(l, r) then memory
    else memory[..l.start + l.len] + Content(memory, r) + memory[l.start + l.len + r.len..]
  }

  // ----- the first round -----

  /** Memory after the first `q` pairs. */
  function MemoryAt(memory: Bytes, layer: seq<Slice>, q: nat): (after: Bytes)
    requires AllWithin(layer, |memory|) && 2 * q <= |layer|
    ensures |after| == |memory|
  {
    if q == 0 then memory else Appended(MemoryAt(memory, layer, q - 1), layer[2 * q - 2], layer[2 * q - 1])
  }

  /** What pair `q` hashes. */
  function JoinedAt(memory: Bytes, layer: seq<Slice>, q: nat): Bytes
    requires AllWithin(layer, |memory|) && 2 * q + 1 < |layer|
  {
    var now := MemoryAt(memory, layer, q);
    Content(now, layer[2 * q]) + Content(now, layer[2 * q + 1])
  }

  function RoundIn(sha: Bytes -> Bytes, memory: Bytes, layer: seq<Slice>): (r: seq<Bytes>)
    requires AllWithin(layer, |memory|) && |layer| % 2 == 0
    ensures |r| == |layer| / 2
  {
    seq(|layer| / 2, q requires 0 <= q < |layer| / 2 => sha(JoinedAt(memory, layer, q)))
  }

  // ----- which bytes change under a later pair -----

  /** The append of pair `p` writes address `x`. */
  predicate Writes(layer: seq<Slice>, p: nat, x: nat)
    requires 2 * p + 1 < |layer|
  {
    var l, r := layer[2 * p], layer[2 * p + 1];
    Fits(l, r) && l.start + l.len <= x < l.start + l.len + r.len
  }

  /** The last pair before `q` that writes address `x`. */
  function LastWriter(layer: seq<Slice>, q: nat, x: nat): (r: Option<nat>)
    requires 2 * q <= |layer|
    ensures r.Some? ==> r.value < q && Writes(layer, r.value, x)
  {
    if q == 0 then None
    else if Writes(layer, q - 1, x) then Some(q - 1)
    else LastWriter(layer, q - 1, x)
  }

  /** The byte of its right neighbour that pair `p` writes to address `x`. */
  function ByteFor(memory: Bytes, layer: seq<Slice>, p: nat, x: nat): nat
    requires AllWithin(layer, |memory|) && 2 * p + 1 < |layer| && Writes(layer, p, x)
  {
    var l, r := layer[2 * p], layer[2 * p + 1];
    memory[r.start + (x - (l.start + l.len))]
  }

  predicate In(s: Slice, x: nat) {
    s.start <= x < s.start + s.len
  }

  /** A byte that pair `q` reads was last written, by an earlier pair, with another value. */
  predicate ClobberedAt(memory: Bytes, layer: seq<Slice>, q: nat, x: nat)
    requires AllWithin(layer, |memory|) && 2 * q + 1 < |layer| && x < |memory|
  {
    && (In(layer[2 * q], x) || In(layer[2 * q + 1], x))
    && LastWriter(layer, q, x).Some?
    && ByteFor(memory, layer, LastWriter(layer, q, x).value, x) != memory[x]
  }

  predicate Clobbered(memory: Bytes, layer: seq<Slice>)
    requires AllWithin(layer, |memory|) && |layer| % 2 == 0
  {
    exists q, x :: 0 <= q < |layer| / 2 && 0 <= x < |memory| && ClobberedAt(memory, layer, q, x)
  }

  /** What the pairs would hash in memory nobody writes. */
  function Joined(memory: Bytes, layer: seq<Slice>, q: nat): Bytes
    requires AllWithin(layer, |memory|) && 2 * q + 1 < |layer|
  {
    Content(memory, layer[2 * q]) + Content(memory, layer[2 * q + 1])
  }

  lemma JoinsEqual(a: Bytes, b: Bytes, l: Slice, r: Slice)
    requires |a| == |b| && Within(l, |a|) && Within(r, |a|)
    ensures Content(a, l) + Content(a, r) == Content(b, l) + Content(b, r) <==>
            Content(a, l) == Content(b, l) && Content(a, r) == Content(b, r)
  {
    var x, y := Content(a, l) + Content(a, r), Content(b, l) + Content(b, r);
    assert x[..l.len] == Content(a, l) && x[l.len..] == Content(a, r);
    assert y[..l.len] == Content(b, l) && y[l.len..] == Content(b, r);
  }

  lemma ContentsEqual(a: Bytes, b: Bytes, s: Slice)
    requires |a| == |b| && Within(s, |a|)
    ensures Content(a, s) == Content(b, s) <==> forall x: nat :: In(s, x) ==> a[x] == b[x]
  {
    if Content(a, s) == Content(b, s) {
      forall x: nat | In(s, x) ensures a[x] == b[x] {
        assert Content(a, s)[x - s.start] == a[x] && Content(b, s)[x - s.start] == b[x];
      }
    }
  }

  lemma AppendedAt(memory: Bytes, l: Slice, r: Slice, x: nat)
    requires Within(l, |memory|) && Within(r, |memory|) && x < |memory|
    ensures Appended(memory, l, r)[x]
         == if Fits(l, r) && l.start + l.len <= x < l.start + l.len + r.len
            then Content(memory, r)[x - (l.start + l.len)] else memory[x]
  {
  }

  /** While the pairs hash what they should, an address holds what its last writer took from untouched
      memory. */
  lemma {:induction false} ValueAt(memory: Bytes, layer: seq<Slice>, q: nat, x: nat)
    requires AllWithin(layer, |memory|) && 2 * q <= |layer| && x < |memory|
    requires forall p :: 0 <= p < q ==> JoinedAt(memory, layer, p) == Joined(memory, layer, p)
    ensures MemoryAt(memory, layer, q)[x]
         == if LastWriter(layer, q, x).None? then memory[x]
            else ByteFor(memory, layer, LastWriter(layer, q, x).value, x)
  {
    if q > 0 {
      hide MemoryAt, Content, Appended;
      var before := MemoryAt(memory, layer, q - 1);
      ValueAt(memory, layer, q - 1, x);
      assert JoinedAt(memory, layer, q - 1) == Joined(memory, layer, q - 1);
      MemoryStep(memory, layer, q);
      PairWrites(before, memory, layer[2 * q - 2], layer[2 * q - 1], x);
    }
  }

  lemma MemoryStep(memory: Bytes, layer: seq<Slice>, q: nat)
    requires AllWithin(layer, |memory|) && 0 < q && 2 * q <= |layer|
    ensures MemoryAt(memory, layer, q) == Appended(MemoryAt(memory, layer, q - 1), layer[2 * q - 2], layer[2 * q - 1])
  {
  }

  /** An append whose operands read as in `memory` writes bytes of `memory`. */
  lemma PairWrites(before: Bytes, memory: Bytes, l: Slice, r: Slice, x: nat)
    requires |before| == |memory| && Within(l, |memory|) && Within(r, |memory|) && x < |memory|
    requires Content(before, l) + Content(before, r) == Content(memory, l) + Content(memory, r)
    ensures Appended(before, l, r)[x]
         == if Fits(l, r) && l.start + l.len <= x < l.start + l.len + r.len
            then memory[r.start + (x - (l.start + l.len))] else before[x]
  {
    hide Appended, Content;
    JoinsEqual(before, memory, l, r);
    AppendedAt(before, l, r, x);
    if Fits(l, r) && l.start + l.len <= x < l.start + l.len + r.len {
      OneByte(memory, r, x - (l.start + l.len));
    }
  }

  lemma OneByte(memory: Bytes, s: Slice, i: nat)
    requires Within(s, |memory|) && i < s.len
    ensures Content(memory, s)[i] == memory[s.start + i]
  {
  }

  lemma PairExactly(memory: Bytes, layer: seq<Slice>, q: nat)
    requires AllWithin(layer, |memory|) && 2 * q + 1 < |layer|
    requires forall p :: 0 <= p < q ==> JoinedAt(memory, layer, p) == Joined(memory, layer, p)
    ensures JoinedAt(memory, layer, q) == Joined(memory, layer, q) <==>
            forall x: nat :: x < |memory| ==> !ClobberedAt(memory, layer, q, x)
  {
    hide Content;
    var now := MemoryAt(memory, layer, q);
    var l, r := layer[2 * q], layer[2 * q + 1];
    JoinsEqual(now, memory, l, r);
    ContentsEqual(now, memory, l);
    ContentsEqual(now, memory, r);
    forall x: nat | x < |memory|
      ensures ClobberedAt(memory, layer, q, x) <==> (In(l, x) || In(r, x)) && now[x] != memory[x]
    {
      ValueAt(memory, layer, q, x);
    }
  }

  lemma {:induction false} PairsBefore(memory: Bytes, layer: seq<Slice>, q: nat)
    requires AllWithin(layer, |memory|) && |layer| % 2 == 0 && 2 * q <= |layer| && !Clobbered(memory, layer)
    ensures forall p :: 0 <= p < q ==> JoinedAt(memory, layer, p) == Joined(memory, layer, p)
  {
    if q > 0 {
      var p := q - 1;
      PairsBefore(memory, layer, p);
      PairExactly(memory, layer, p);
      assert forall x: nat :: x < |memory| ==> !ClobberedAt(memory, layer, p, x);
    }
  }

  /** The first round hashes what it would in memory nobody writes exactly when no byte a pair reads was last
      written, by an earlier pair's append, with another value. */
  lemma ClobberedExactly(memory: Bytes, layer: seq<Slice>)
    requires AllWithin(layer, |memory|) && |layer| % 2 == 0
    ensures (forall q :: 0 <= q < |layer| / 2 ==> JoinedAt(memory, layer, q) == Joined(memory, layer, q)) <==>
            !Clobbered(memory, layer)
  {
    if !Clobbered(memory, layer) {
      PairsBefore(memory, layer, |layer| / 2);
    } else {
      var q, x :| 0 <= q < |layer| / 2 && 0 <= x < |memory| && ClobberedAt(memory, layer, q, x);
      if forall p :: 0 <= p < |layer| / 2 ==> JoinedAt(memory, layer, p) == Joined(memory, layer, p) {
        PairExactly(memory, layer, q);
      }
    }
  }

  lemma RoundUnclobbered(sha: Bytes -> Bytes, memory: Bytes, layer: seq<Slice>)
    requires AllWithin(layer, |memory|) && |layer| % 2 == 0 && !Clobbered(memory, layer)
    ensures RoundIn(sha, memory, layer) == Round(sha, Contents(memory, layer))
  {
    hide Round, JoinedAt, Clobbered;
    ClobberedExactly(memory, layer);
    var contents := Contents(memory, layer);
    forall q | 0 <= q < |layer| / 2 ensures RoundIn(sha, memory, layer)[q] == Round(sha, contents)[q] {
      RoundAt(sha, contents, q);
    }
  }

  /** No slice's spare capacity overlaps what a slice holds. */
  predicate Apart(l: Slice, s: Slice) {
    s.start + s.len <= l.start + l.len || l.start + l.cap <= s.start
  }

  predicate SpareApart(layer: seq<Slice>) {
    forall i, j :: 0 <= i < |layer| && 0 <= j < |layer| ==> Apart(layer[i], layer[j])
  }

  lemma ApartIsUnwritten(layer: seq<Slice>, p: nat, s: Slice, x: nat)
    requires 2 * p + 1 < |layer| && Apart(layer[2 * p], s) && In(s, x)
    ensures !Writes(layer, p, x)
  {
  }

  /** Then nothing a pair reads is ever written. */
  lemma SpareApartIsEnough(memory: Bytes, layer: seq<Slice>)
    requires AllWithin(layer, |memory|) && |layer| % 2 == 0 && SpareApart(layer)
    ensures !Clobbered(memory, layer)
  {
    hide Writes, In, Apart;
    forall q, x | 0 <= q < |layer| / 2 && 0 <= x < |memory| && (In(layer[2 * q], x) || In(layer[2 * q + 1], x))
      ensures LastWriter(layer, q, x) == None
    {
      forall p | 0 <= p < q ensures !Writes(layer, p, x) {
        ApartIsUnwritten(layer, p, if In(layer[2 * q], x) then layer[2 * q] else layer[2 * q + 1], x);
      }
    }
  }

  // ----- the whole root -----

  /** An odd layer repeats its last slice. */
  function Padded(layer: seq<Slice>): (r: seq<Slice>)
    ensures |r| % 2 == 0 && |layer| <= |r| <= |layer| + 1
    ensures forall i :: 0 <= i < |r| ==> r[i] == layer[if i < |layer| then i else |layer| - 1]
  {
    if |layer| % 2 == 0 then layer else layer + [layer[|layer| - 1]]
  }

  /** The root the loop computes from slices that are already sorted. */
  function RootIn(sha: Bytes -> Bytes, memory: Bytes, sorted: seq<Slice>): Bytes
    requires AllWithin(sorted, |memory|)
  {
    if sorted == [] then Hex(sha([]))
    else if |sorted| == 1 then Hex(sha(Content(memory, sorted[0])))
    else Hex(Top(sha, RoundIn(sha, memory, Padded(sorted))))
  }

  /** `sorted` is what `sort.Slice` may make of a copy of the leaves. */
  ghost predicate Arranged(memory: Bytes, leaves: seq<Slice>, sorted: seq<Slice>)
    requires AllWithin(leaves, |memory|) && AllWithin(sorted, |memory|)
  {
    AreBytes(memory) && multiset(sorted) == multiset(leaves) && Sorted(ByHex(), Contents(memory, sorted))
  }

  /** Taking slice `i` out. */
  lemma ContentsWithout(memory: Bytes, b: seq<Slice>, i: nat)
    requires AllWithin(b, |memory|) && i < |b|
    ensures var rest := b[..i] + b[i + 1..];
            && multiset(rest) == multiset(b) - multiset{b[i]}
            && AllWithin(rest, |memory|)
            && multiset(Contents(memory, b)) == multiset(Contents(memory, rest)) + multiset{Content(memory, b[i])}
  {
    hide Content, Within;
    var rest, y := b[..i] + b[i + 1..], Contents(memory, b);
    assert b == b[..i] + ([b[i]] + b[i + 1..]);
    assert y == y[..i] + ([y[i]] + y[i + 1..]);
    assert Contents(memory, rest) == y[..i] + y[i + 1..];
  }

  lemma {:induction false} ContentsMultiset(memory: Bytes, a: seq<Slice>, b: seq<Slice>)
    requires AllWithin(a, |memory|) && AllWithin(b, |memory|) && multiset(a) == multiset(b)
    ensures multiset(Contents(memory, a)) == multiset(Contents(memory, b))
    decreases |a|
  {
    assert |multiset(a)| == |a| && |multiset(b)| == |b|;
    if a != [] {
      hide Contents, Content, AllWithin, Within;
      assert a[0] in multiset(b);
      var i :| 0 <= i < |b| && b[i] == a[0];
      ContentsWithout(memory, a, 0);
      ContentsWithout(memory, b, i);
      ContentsMultiset(memory, a[..0] + a[1..], b[..i] + b[i + 1..]);
    }
  }

  /** The sort reads contents and moves slices, so the sorted contents are the contents sorted. */
  lemma SortedContents(memory: Bytes, leaves: seq<Slice>, sorted: seq<Slice>)
    requires AllWithin(leaves, |memory|) && AllWithin(sorted, |memory|) && Arranged(memory, leaves, sorted)
    ensures |sorted| == |leaves|
    ensures Contents(memory, sorted) == Sort(Lexicographic(), Contents(memory, leaves))
  {
    assert |multiset(sorted)| == |sorted| && |multiset(leaves)| == |leaves|;
    ContentsMultiset(memory, sorted, leaves);
    HexSorts(Contents(memory, leaves), Contents(memory, sorted));
  }

  lemma PaddedRound(sha: Bytes -> Bytes, memory: Bytes, sorted: seq<Slice>)
    requires AllWithin(sorted, |memory|) && sorted != []
    ensures Round(sha, Contents(memory, Padded(sorted))) == Round(sha, Contents(memory, sorted))
  {
    var contents := Contents(memory, sorted);
    if |sorted| % 2 == 1 {
      assert Contents(memory, Padded(sorted)) == contents + [contents[|contents| - 1]];
      RoundPadded(sha, contents);
    }
  }

  /** When no byte is clobbered, the root over slices is the root of their contents, which is what the
      TypeScript loop computes from them. */
  lemma RootUnclobbered(sha: Bytes -> Bytes, memory: Bytes, leaves: seq<Slice>, sorted: seq<Slice>)
    requires AllWithin(leaves, |memory|) && AllWithin(sorted, |memory|) && Arranged(memory, leaves, sorted)
    requires !Clobbered(memory, Padded(sorted))
    ensures RootIn(sha, memory, sorted) == Root(sha, Contents(memory, leaves))
  {
    hide RoundIn, Clobbered, Hex, Sort;
    SortedContents(memory, leaves, sorted);
    if |leaves| == 1 {
      assert sorted[0] in multiset(leaves);
    } else if |leaves| > 1 {
      RoundUnclobbered(sha, memory, Padded(sorted));
      PaddedRound(sha, memory, sorted);
    }
  }

  lemma SpareApartRoot(sha: Bytes -> Bytes, memory: Bytes, leaves: seq<Slice>, sorted: seq<Slice>)
    requires AllWithin(leaves, |memory|) && AllWithin(sorted, |memory|) && Arranged(memory, leaves, sorted)
    requires SpareApart(leaves)
    ensures RootIn(sha, memory, sorted) == Root(sha, Contents(memory, leaves))
  {
    var padded := Padded(sorted);
    forall i, j | 0 <= i < |padded| && 0 <= j < |padded| ensures Apart(padded[i], padded[j]) {
      assert padded[i] in multiset(sorted) && padded[j] in multiset(sorted);
    }
    SpareApartIsEnough(memory, padded);
    RootUnclobbered(sha, memory, leaves, sorted);
  }

  // ----- and otherwise the root is another one -----

  predicate Collide(sha: Bytes -> Bytes, x: Bytes, y: Bytes) {
    x != y && sha(x) == sha(y)
  }

  /** Hashing two layers of one size round by round never meets a collision of `sha`. */
  ghost predicate NoCollision(sha: Bytes -> Bytes, a: seq<Bytes>, b: seq<Bytes>)
    requires |a| == |b|
    decreases |a|
  {
    |a| <= 1 || (
      && (forall q :: 0 <= 2 * q < |a| ==> !Collide(sha, Join(a, q), Join(b, q)))
      && NoCollision(sha, Round(sha, a), Round(sha, b)))
  }

  /** Nor does the first round over slices, against the round over their contents. */
  ghost predicate NoneCollide(sha: Bytes -> Bytes, memory: Bytes, sorted: seq<Slice>)
    requires AllWithin(sorted, |memory|) && sorted != []
  {
    var layer := Padded(sorted);
    && (forall q :: 0 <= q < |layer| / 2 ==> !Collide(sha, JoinedAt(memory, layer, q), Joined(memory, layer, q)))
    && NoCollision(sha, RoundIn(sha, memory, layer), Round(sha, Contents(memory, layer)))
  }

  lemma {:induction false} TopTells(sha: Bytes -> Bytes, size: nat, a: seq<Bytes>, b: seq<Bytes>)
    requires forall x :: |sha(x)| == size
    requires |a| == |b| && a != [] && NoCollision(sha, a, b) && Top(sha, a) == Top(sha, b)
    requires forall i :: 0 <= i < |a| ==> |a[i]| == |b[i]|
    ensures a == b
    decreases |a|
  {
    if |a| > 1 {
      hide Join, Round;
      var x, y := Round(sha, a), Round(sha, b);
      forall q | 0 <= 2 * q < |a| ensures x[q] == sha(Join(a, q)) && y[q] == sha(Join(b, q)) {
        RoundAt(sha, a, q);
        RoundAt(sha, b, q);
      }
      TopTells(sha, size, x, y);
      forall i | 0 <= i < |a| ensures a[i] == b[i] {
        assert x[i / 2] == y[i / 2];
        JoinTells(a, b, i);
      }
    }
  }

  lemma JoinTells(a: seq<Bytes>, b: seq<Bytes>, i: nat)
    requires i < |a| == |b| && Join(a, i / 2) == Join(b, i / 2)
    requires forall j :: 0 <= j < |a| ==> |a[j]| == |b[j]|
    ensures a[i] == b[i]
  {
    var q := i / 2;
    var l := |a[2 * q]|;
    assert Join(a, q)[..l] == a[2 * q] && Join(b, q)[..l] == b[2 * q];
    if i != 2 * q {
      assert i == 2 * q + 1;
      assert Join(a, q)[l..] == a[i] && Join(b, q)[l..] == b[i];
    }
  }

  lemma {:induction false} HexTells(a: Bytes, b: Bytes)
    requires Hex(a) == Hex(b)
    ensures a == b
  {
    if a != [] && b != [] {
      var x, y := Hex(a), Hex(b);
      assert x[1..][1..] == Hex(a[1..]) && y[1..][1..] == Hex(b[1..]);
      assert x[1..][0] == Digit(a[0] % 16) && y[1..][0] == Digit(b[0] % 16);
      HexTells(a[1..], b[1..]);
      assert a[0] == 16 * (a[0] / 16) + a[0] % 16 && b[0] == 16 * (b[0] / 16) + b[0] % 16;
    }
  }

  /** The root over slices is the root of their contents exactly when no byte is clobbered, unless the hash
      function collides on two inputs of the two computations. */
  lemma RootExactly(sha: Bytes -> Bytes, size: nat, memory: Bytes, leaves: seq<Slice>, sorted: seq<Slice>)
    requires AllWithin(leaves, |memory|) && AllWithin(sorted, |memory|) && Arranged(memory, leaves, sorted)
    requires |leaves| > 1 && forall x :: |sha(x)| == size
    requires sorted != [] && NoneCollide(sha, memory, sorted)
    ensures RootIn(sha, memory, sorted) == Root(sha, Contents(memory, leaves)) <==>
            !Clobbered(memory, Padded(sorted))
  {
    hide Hex, Sort, Top, Round, NoCollision, Clobbered, JoinedAt, Joined;
    var layer := Padded(sorted);
    var a, b := RoundIn(sha, memory, layer), Round(sha, Contents(memory, layer));
    SortedContents(memory, leaves, sorted);
    PaddedRound(sha, memory, sorted);
    TopRound(sha, Contents(memory, sorted));
    if !Clobbered(memory, layer) {
      RootUnclobbered(sha, memory, leaves, sorted);
    }
    if RootIn(sha, memory, sorted) == Root(sha, Contents(memory, leaves)) {
      HexTells(Top(sha, a), Top(sha, b));
      forall q | 0 <= q < |layer| / 2
        ensures a[q] == sha(JoinedAt(memory, layer, q)) && b[q] == sha(Joined(memory, layer, q))
      {
        RoundAt(sha, Contents(memory, layer), q);
        JoinContents(memory, layer, q);
      }
      TopTells(sha, size, a, b);
      forall q | 0 <= q < |layer| / 2 ensures JoinedAt(memory, layer, q) == Joined(memory, layer, q) {
        assert a[q] == b[q];
      }
      ClobberedExactly(memory, layer);
    }
  }

  lemma TopRound(sha: Bytes -> Bytes, layer: seq<Bytes>)
    requires |layer| > 1
    ensures Top(sha, layer) == Top(sha, Round(sha, layer))
  {
  }

  lemma JoinContents(memory: Bytes, layer: seq<Slice>, q: nat)
    requires AllWithin(layer, |memory|) && 2 * q + 1 < |layer|
    ensures Join(Contents(memory, layer), q) == Joined(memory, layer, q)
  {
  }

  /** It is not enough that the slices hold different bytes: of three one-byte leaves cut from one buffer,
      appending the second to the first overwrites the third. */
  lemma SharedCapacityClobbers(sha: Bytes -> Bytes, size: nat)
    ensures var memory := [1, 3, 2];
            var leaves := [Slice(0, 1, 3), Slice(2, 1, 1), Slice(1, 1, 2)];
            && Contents(memory, leaves) == [[1], [2], [3]]
            && Arranged(memory, leaves, leaves) && Clobbered(memory, Padded(leaves))
            && ((forall x :: |sha(x)| == size) && NoneCollide(sha, memory, leaves) ==>
                RootIn(sha, memory, leaves) != Root(sha, Contents(memory, leaves)))
  {
    hide NoneCollide, RootIn, Root, Hex;
    var memory: Bytes := [1, 3, 2];
    var leaves := [Slice(0, 1, 3), Slice(2, 1, 1), Slice(1, 1, 2)];
    var contents := Contents(memory, leaves);
    assert contents[0] == [1] && contents[1] == [2] && contents[2] == [3];
    assert contents == [[1], [2], [3]];
    HexOrder([1], [2]);
    HexOrder([1], [3]);
    HexOrder([2], [3]);
    assert Sorted(ByHex(), contents);
    assert Arranged(memory, leaves, leaves);
    var layer := Padded(leaves);
    assert layer == leaves + [Slice(1, 1, 2)];
    assert Writes(layer, 0, 1) && LastWriter(layer, 1, 1) == Some(0);
    assert ClobberedAt(memory, layer, 1, 1);
    if (forall x :: |sha(x)| == size) && NoneCollide(sha, memory, leaves) {
      RootExactly(sha, size, memory, leaves, leaves);
    }
  }

  // ----- the loop -----

  /** `append(l, r...)`: the joined bytes, and the memory it leaves. */
  method AppendInto(memory: array<nat>, l: Slice, r: Slice) returns (combined: Bytes)
    requires Within(l, memory.Length) && Within(r, memory.Length)
    modifies memory
    ensures combined == Content(old(memory[..]), l) + Content(old(memory[..]), r)
    ensures memory[..] == Appended(old(memory[..]), l, r)
  {
    var right := memory[r.start..r.start + r.len];
    combined := memory[l.start..l.start + l.len] + right;
    if l.len + r.len <= l.cap {
      forall k | 0 <= k < r.len {
        memory[l.start + l.len + k] := right[k];
      }
    }
  }

  /** The first round. */
  method FirstRound(sha: Bytes -> Bytes, memory: array<nat>, layer: seq<Slice>) returns (next: seq<Bytes>)
    requires AllWithin(layer, memory.Length) && |layer| % 2 == 0
    modifies memory
    ensures next == RoundIn(sha, old(memory[..]), layer)
  {
    hide Appended, Content;
    next := [];
    var i := 0;
    while i < |layer|
      invariant i % 2 == 0 && i <= |layer|
      invariant memory[..] == MemoryAt(old(memory[..]), layer, i / 2)
      invariant next == RoundIn(sha, old(memory[..]), layer)[..i / 2]
    {
      ghost var q := i / 2;
      assert i == 2 * q;
      var combined := AppendInto(memory, layer[i], layer[i + 1]);
      assert combined == JoinedAt(old(memory[..]), layer, q);
      ghost var whole := RoundIn(sha, old(memory[..]), layer);
      assert whole[..q + 1] == whole[..q] + [whole[q]];
      next := next + [sha(combined)];
      i := i + 2;
    }
  }

  /** The rounds after it. */
  method LaterRounds(sha: Bytes -> Bytes, start: seq<Bytes>) returns (top: Bytes)
    requires start != []
    ensures top == Top(sha, start)
  {
    hide Round;
    var layer := start;
    while |layer| > 1
      invariant layer != [] && Top(sha, layer) == Top(sha, start)
      decreases |layer|
    {
      layer := RoundGo(sha, layer);
    }
    top := layer[0];
  }

  /** The root of two or more sorted leaves. */
  method RootOfMany(sha: Bytes -> Bytes, memory: array<nat>, sorted: seq<Slice>) returns (root: Bytes)
    requires AllWithin(sorted, memory.Length) && |sorted| > 1
    modifies memory
    ensures root == RootIn(sha, old(memory[..]), sorted)
  {
    hide Hex, RoundIn;
    var layer := sorted;
    if |layer| % 2 != 0 {
      layer := layer + [layer[|layer| - 1]];
    }
    var next := FirstRound(sha, memory, layer);
    var top := LaterRounds(sha, next);
    root := Hex(top);
  }

  /** The whole computation. `sorted` is what `sort.Slice` made of a copy of the leaves. */
  method ComputeMerkleRoot(sha: Bytes -> Bytes, memory: array<nat>, leaves: seq<Slice>, sorted: seq<Slice>)
    returns (root: Bytes)
    requires AllWithin(leaves, memory.Length) && AllWithin(sorted, memory.Length)
    requires Arranged(memory[..], leaves, sorted)
    modifies memory
    ensures root == RootIn(sha, old(memory[..]), sorted)
    ensures SpareApart(leaves) ==> root == Root(sha, Contents(old(memory[..]), leaves))
  {
    hide RoundIn, Root, Sorted, AreBytes, Hex;
    SameLone(memory[..], leaves, sorted);
    if |leaves| == 0 {
      root := Hex(sha([]));
    } else if |leaves| == 1 {
      root := Hex(sha(memory[leaves[0].start..leaves[0].start + leaves[0].len]));
    } else {
      root := RootOfMany(sha, memory, sorted);
    }
    if SpareApart(leaves) {
      SpareApartRoot(sha, old(memory[..]), leaves, sorted);
    }
  }

  lemma SameLone(memory: Bytes, leaves: seq<Slice>, sorted: seq<Slice>)
    requires AllWithin(leaves, |memory|) && AllWithin(sorted, |memory|) && Arranged(memory, leaves, sorted)
    ensures |sorted| == |leaves| && (|leaves| == 1 ==> sorted[0] == leaves[0])
  {
    assert |multiset(sorted)| == |sorted| && |multiset(leaves)| == |leaves|;
    if |leaves| == 1 {
      assert sorted[0] in multiset(leaves);
    }
  }
}
