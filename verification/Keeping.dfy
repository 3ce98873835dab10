/**
 How much of an earlier run's partial a resumed copy keeps, as a function of the two files: the longest run of whole
 chunks, from the start, on which they hash alike or have the digests a log recorded
 (crates/flux-core/src/checkpoint/decide.rs).
 */
module Keeping {
  import opened Basics

  const CHUNK_SIZE: nat := 0x10_0000

  datatype ChangedPart = ChangedLength | ChangedTime | ChangedIdentity

  /** Why nothing, or not everything, was kept. */
  datatype Discard =
    | SourceHasChanged(part: ChangedPart)
    | PartialMissing
    | MismatchAt(at: nat)
    | PartialShorter(kept: nat)
    | Unreadable

  /** Chunk `k` of the source `s`, the last one possibly short, is in the partial `p`: by the log, or by the source. */
  predicate Alike(hash: Bytes -> Digest, s: Bytes, p: Bytes, digests: Option<map<nat, Digest>>, k: nat) {
    var from, end := k * CHUNK_SIZE, Min((k + 1) * CHUNK_SIZE, |s|);
    && from < |s| && end <= |p|
    && match digests {
      case None => hash(s[from..end]) == hash(p[from..end])
      case Some(ds) => k in ds && hash(s[from..end]) == ds[k] && hash(p[from..end]) == ds[k]
    }
  }

  /** The first chunk, from `k` on, that is not alike. */
  function FirstUnlike(hash: Bytes -> Digest, s: Bytes, p: Bytes, digests: Option<map<nat, Digest>>, k: nat): (n: nat)
    ensures n >= k && !Alike(hash, s, p, digests, n)
    ensures forall i: nat | k <= i < n :: Alike(hash, s, p, digests, i)
    decreases |s| - k * CHUNK_SIZE
  {
    if Alike(hash, s, p, digests, k) then FirstUnlike(hash, s, p, digests, k + 1) else k
  }

  /** The bytes that are kept. */
  function KeptBytes(hash: Bytes -> Digest, s: Bytes, p: Bytes, digests: Option<map<nat, Digest>>): (n: nat)
    ensures n <= |s|
  {
    Min(FirstUnlike(hash, s, p, digests, 0) * CHUNK_SIZE, |s|)
  }

  /** What is kept is in the partial, and whole. */
  lemma KeptIsThere(hash: Bytes -> Digest, s: Bytes, p: Bytes, digests: Option<map<nat, Digest>>)
    ensures var n := KeptBytes(hash, s, p, digests);
      n <= |p| && (CollisionFree(hash) ==> s[..n] == p[..n])
  {
    var k := FirstUnlike(hash, s, p, digests, 0);
    if k > 0 {
      assert Alike(hash, s, p, digests, k - 1);
    }
    if CollisionFree(hash) {
      SameSoFar(hash, s, p, digests, k);
    }
  }

  lemma {:induction false} SameSoFar(hash: Bytes -> Digest, s: Bytes, p: Bytes, digests: Option<map<nat, Digest>>,
                                     k: nat)
    requires CollisionFree(hash) && forall i: nat | i < k :: Alike(hash, s, p, digests, i)
    ensures var n := Min(k * CHUNK_SIZE, |s|); n <= |p| && s[..n] == p[..n]
  {
    if k > 0 {
      SameSoFar(hash, s, p, digests, k - 1);
      assert Alike(hash, s, p, digests, k - 1);
      var m, n := (k - 1) * CHUNK_SIZE, Min(k * CHUNK_SIZE, |s|);
      assert s[m..n] == p[m..n];
      assert s[..n] == s[..m] + s[m..n] && p[..n] == p[..m] + p[m..n];
    }
  }

  /** Over equal files everything is kept, when the source itself is the oracle. */
  lemma EverythingIsKept(hash: Bytes -> Digest, s: Bytes)
    ensures KeptBytes(hash, s, s, None) == |s|
  {
    var k := FirstUnlike(hash, s, s, None, 0);
    assert !Alike(hash, s, s, None, k);
  }

  /** A digest was recorded for a chunk past the partial's last. */
  predicate RecordedPast(ds: map<nat, Digest>, p: Bytes) {
    exists i | i in ds :: i >= DivCeil(|p|, CHUNK_SIZE)
  }

  /** Why a copy over the two files stops keeping where it does. */
  function Reason(hash: Bytes -> Digest, s: Bytes, p: Bytes, digests: Option<map<nat, Digest>>): Option<Discard> {
    var k := FirstUnlike(hash, s, p, digests, 0);
    var at := KeptBytes(hash, s, p, digests);
    var short := |p| < Min((k + 1) * CHUNK_SIZE, |s|);
    match digests
    case None =>
      if at == |s| then None else if short then Some(PartialShorter(at)) else Some(MismatchAt(at))
    case Some(ds) =>
      if k >= DivCeil(|p|, CHUNK_SIZE) && RecordedPast(ds, p) then Some(PartialShorter(at))
      else if at == |s| || k !in ds then None
      else if short then Some(PartialShorter(at))
      else Some(MismatchAt(at))
  }

  /** However far a reading got in which every chunk was alike and the next is not, that is what is kept. */
  lemma StopsThere(hash: Bytes -> Digest, s: Bytes, p: Bytes, digests: Option<map<nat, Digest>>, k: nat)
    requires !Alike(hash, s, p, digests, k) && forall i: nat | i < k :: Alike(hash, s, p, digests, i)
    ensures FirstUnlike(hash, s, p, digests, 0) == k && KeptBytes(hash, s, p, digests) == Min(k * CHUNK_SIZE, |s|)
  {
    hide Alike;
    var n := FirstUnlike(hash, s, p, digests, 0);
    assert n <= k && k <= n;
  }

  /** A log without digests keeps nothing, and has nothing to say about it. */
  lemma NothingRecorded(hash: Bytes -> Digest, s: Bytes, p: Bytes)
    ensures KeptBytes(hash, s, p, Some(map[])) == 0 && Reason(hash, s, p, Some(map[])) == None
  {
    assert !Alike(hash, s, p, Some(map[]), 0);
  }
}
