/** Snapshot metadata and its order (pkg/types/snapstore.go). */
module SnapTypes {

  datatype Option<+T> = None | Some(value: T)

  datatype Kind = Full | Incr

  /** `createdOn` and `immutabilityExpiryTime` are Unix seconds; an unset expiry is `None`. */
  datatype Snapshot = Snapshot(
    kind: Kind,
    startRevision: int,
    lastRevision: int,
    createdOn: int,
    compressionSuffix: string,
    isFinal: bool,
    isChunk: bool,
    immutabilityExpiryTime: Option<int>)
  {
    predicate IsFull() {
      kind.Full? && !isChunk
    }

    predicate IsDelta() {
      kind.Incr? && !isChunk
    }

    predicate IsDeletable(now: int) {
      match immutabilityExpiryTime
      case None => true
      case Some(expiry) => now > expiry
    }
  }

  /** The order of `SnapList`. On two chunks of one revision it answers true both ways. */
  predicate Less(a: Snapshot, b: Snapshot) {
    if a.lastRevision < b.lastRevision then true
    else if a.lastRevision > b.lastRevision then false
    else if !a.isChunk && b.isChunk then true
    else if a.isChunk && !b.isChunk then false
    else if !a.isChunk && !b.isChunk then a.createdOn < b.createdOn
    else true
  }

  /** Sorted as far as chunks are not concerned; equal keys may come in any order. */
  ghost predicate Sorted(list: seq<Snapshot>) {
    forall i, j :: 0 <= i < j < |list| && !list[i].isChunk && !list[j].isChunk ==> !Less(list[j], list[i])
  }

  ghost predicate Distinct<T>(list: seq<T>) {
    forall i, j :: 0 <= i < j < |list| ==> list[i] != list[j]
  }

  /** At one revision chunks come after snapshots, and among themselves in any order. */
  lemma ChunksSortAfter(a: Snapshot, b: Snapshot)
    requires a.lastRevision == b.lastRevision && b.isChunk
    ensures Less(a, b) && (Less(b, a) <==> a.isChunk)
  {
  }

  /** `Less` is a strict weak order on snapshots that are not chunks. */
  lemma LessIsStrictWeakOrder(a: Snapshot, b: Snapshot, c: Snapshot)
    requires !a.isChunk && !b.isChunk && !c.isChunk
    ensures !Less(a, a)
    ensures Less(a, b) ==> !Less(b, a)
    ensures Less(a, b) && Less(b, c) ==> Less(a, c)
    ensures !Less(a, b) && !Less(b, c) ==> !Less(a, c)
  {
  }
}
