/** The batch query for memories, cut into requests the chain accepts
    (wevibe-hub/internal/chain/query.go). */
module ChunkedQuery {
  import opened Wrappers

  const MAX_PER_BATCH: nat := 50

  /** Content hashes are only compared and looked up. */
  type Hash = nat

  datatype Memory = Memory(hash: Hash, state: int)

  /** What the chain knows under a hash: the memory's state. */
  type Lookup = Hash -> Option<int>

  function Found(lookup: Lookup, hashes: seq<Hash>): seq<Memory> {
    if hashes == [] then []
    else if lookup(hashes[0]).Some? then [Memory(hashes[0], lookup(hashes[0]).value)] + Found(lookup, hashes[1..])
    else Found(lookup, hashes[1..])
  }

  function Missing(lookup: Lookup, hashes: seq<Hash>): seq<Hash> {
    if hashes == [] then []
    else if lookup(hashes[0]).None? then [hashes[0]] + Missing(lookup, hashes[1..])
    else Missing(lookup, hashes[1..])
  }

  lemma {:induction false} FoundSplit(lookup: Lookup, a: seq<Hash>, b: seq<Hash>)
    ensures Found(lookup, a + b) == Found(lookup, a) + Found(lookup, b)
    ensures Missing(lookup, a + b) == Missing(lookup, a) + Missing(lookup, b)
  {
    if a == [] {
      assert a + b == b;
    } else {
      assert (a + b)[1..] == a[1..] + b;
      FoundSplit(lookup, a[1..], b);
    }
  }

  lemma {:induction false} FoundFrom(lookup: Lookup, hashes: seq<Hash>, m: Memory)
    ensures m in Found(lookup, hashes) <==> m.hash in hashes && lookup(m.hash) == Some(m.state)
  {
    if hashes != [] {
      FoundFrom(lookup, hashes[1..], m);
    }
  }

  function Joined(requests: seq<seq<Hash>>): seq<Hash> {
    if requests == [] then [] else Joined(requests[..|requests| - 1]) + requests[|requests| - 1]
  }

  function ChunkCount(n: nat): nat {
    if n > 0 then (n + MAX_PER_BATCH - 1) / MAX_PER_BATCH else 0
  }

  /** One request is one lookup per hash, or fails; `fails` says which requests do. However the hashes fall
      into requests, a successful call answers as one request for all of them would, and a failed one
      returns nothing. */
  method GetMemoriesBatch(lookup: Lookup, fails: nat -> bool, hashes: seq<Hash>)
    returns (ok: bool, results: seq<Memory>, notFound: seq<Hash>, ghost requests: seq<seq<Hash>>)
    ensures ok <==> forall i :: 0 <= i < ChunkCount(|hashes|) ==> !fails(i)
    ensures ok ==> results == Found(lookup, hashes) && notFound == Missing(lookup, hashes)
    ensures !ok ==> results == [] && notFound == []
    ensures forall i :: 0 <= i < |requests| ==> 0 < |requests[i]| <= MAX_PER_BATCH
    ensures Joined(requests) <= hashes
    ensures ok ==> Joined(requests) == hashes && |requests| == ChunkCount(|hashes|)
  {
    hide Found, Missing;
    var hashCount := |hashes|;
    results, notFound, requests := [], [], [];
    var chunkIndex, start := 0, 0;
    NothingFound(lookup);
    assert hashes[..0] == [];
    while start < hashCount
      invariant chunkIndex * MAX_PER_BATCH == start && start < hashCount + MAX_PER_BATCH
      invariant |requests| == chunkIndex && forall i :: 0 <= i < chunkIndex ==> !fails(i)
      invariant Joined(requests) == hashes[..Min(start, hashCount)]
      invariant results == Found(lookup, hashes[..Min(start, hashCount)])
      invariant notFound == Missing(lookup, hashes[..Min(start, hashCount)])
      invariant forall i :: 0 <= i < |requests| ==> 0 < |requests[i]| <= MAX_PER_BATCH
    {
      var end := Min(start + MAX_PER_BATCH, hashCount);
      var chunkHashes := hashes[start..end];
      requests := requests + [chunkHashes];
      assert requests[..chunkIndex] == requests[..|requests| - 1];
      assert hashes[..end] == hashes[..start] + chunkHashes;
      if fails(chunkIndex) {
        return false, [], [], requests;
      }
      FoundSplit(lookup, hashes[..start], chunkHashes);
      results := results + Found(lookup, chunkHashes);
      notFound := notFound + Missing(lookup, chunkHashes);
      chunkIndex, start := chunkIndex + 1, start + MAX_PER_BATCH;
    }
    assert hashes[..hashCount] == hashes;
    return true, results, notFound, requests;
  }

  function Min(a: nat, b: nat): nat {
    if a < b then a else b
  }

  lemma NothingFound(lookup: Lookup)
    ensures Found(lookup, []) == [] && Missing(lookup, []) == []
  {
  }
}
