/** Listing backups newest first, as the copier wants them (getStructuredBackupList and
    GetFilteredBackups in pkg/miscellaneous/miscellaneous.go). */
module FilteredBackups {
  import opened SnapTypes
  import opened Selection
  import opened Sums

  /** A full snapshot and its deltas, newest first. */
  datatype Backup = Backup(full: Snapshot, deltas: seq<Snapshot>)

  function Reverse<T>(s: seq<T>): seq<T> {
    if s == [] then [] else [s[|s| - 1]] + Reverse(s[..|s| - 1])
  }

  /** The listing that the backups, newest first, were made of. */
  function Listing(backups: seq<Backup>): seq<Snapshot> {
    if backups == [] then []
    else
      var oldest := backups[|backups| - 1];
      [oldest.full] + Reverse(oldest.deltas) + Listing(backups[..|backups| - 1])
  }

  /** The complete backups of a listing, newest first, and the deltas that wait for an older
      full snapshot, newest first too. */
  datatype Structure = Structure(backups: seq<Backup>, pending: seq<Snapshot>)

  function StructureOf(list: seq<Snapshot>): Structure {
    if list == [] then Structure([], [])
    else
      var rest := StructureOf(list[1..]);
      if list[0].isChunk then rest
      else if list[0].kind.Full? then Structure(rest.backups + [Backup(list[0], rest.pending)], [])
      else rest.(pending := rest.pending + [list[0]])
  }

  method GetStructuredBackupList(snapList: seq<Snapshot>) returns (backups: seq<Backup>)
    ensures backups == StructureOf(snapList).backups
  {
    var tempBackup: seq<Snapshot> := [];
    backups := [];
    var i := |snapList|;
    assert snapList[i..] == [];
    while i > 0
      invariant 0 <= i <= |snapList|
      invariant StructureOf(snapList[i..]) == Structure(backups, tempBackup)
    {
      i := i - 1;
      assert snapList[i..][1..] == snapList[i + 1..];
      if snapList[i].isChunk {
        continue;
      }
      if snapList[i].kind.Full? {
        backups := backups + [Backup(snapList[i], tempBackup)];
        tempBackup := [];
        continue;
      }
      tempBackup := tempBackup + [snapList[i]];
    }
    assert snapList[0..] == snapList;
  }

  /** Cutting a listing into backups loses nothing but the deltas before the oldest full
      snapshot, and changes nobody's place. */
  lemma {:induction false} StructureIsListing(list: seq<Snapshot>)
    ensures var s := StructureOf(list);
            && WithoutChunks(list) == Reverse(s.pending) + Listing(s.backups)
            && (forall i :: 0 <= i < |s.backups| ==> s.backups[i].full.IsFull())
            && (forall d :: d in s.pending ==> d.IsDelta())
  {
    hide WithoutChunks, Reverse, Listing;
    Nothing();
    if list != [] {
      var x, rest := list[0], StructureOf(list[1..]);
      StructureIsListing(list[1..]);
      assert list == [x] + list[1..];
      WithoutChunksConcat([x], list[1..]);
      SingleWithoutChunks(x);
      ListingSnoc(rest.backups, Backup(x, rest.pending));
      ReverseSnoc(rest.pending, x);
    }
  }

  lemma Nothing()
    ensures WithoutChunks([]) == [] && Reverse<Snapshot>([]) == [] && Listing([]) == []
  {
  }

  lemma ReverseSnoc<T>(s: seq<T>, x: T)
    ensures Reverse(s + [x]) == [x] + Reverse(s)
  {
    assert (s + [x])[..|s|] == s;
  }

  lemma ListingSnoc(backups: seq<Backup>, b: Backup)
    ensures Listing(backups + [b]) == [b.full] + Reverse(b.deltas) + Listing(backups)
  {
    assert (backups + [b])[..|backups|] == backups;
  }

  // ---------------------------------------------------------------------------
  // Choosing backups
  // ---------------------------------------------------------------------------

  ghost predicate NewestFirst(backups: seq<Backup>) {
    forall i, j :: 0 <= i < j < |backups| ==> backups[i].full.createdOn >= backups[j].full.createdOn
  }

  /** Puts a backup behind those that are not older. */
  method InsertBackup(b: Backup, backups: seq<Backup>) returns (r: seq<Backup>)
    requires NewestFirst(backups)
    ensures NewestFirst(r)
    ensures multiset(r) == multiset(backups) + multiset{b}
  {
    var k := |backups|;
    while k > 0 && backups[k - 1].full.createdOn < b.full.createdOn
      invariant 0 <= k <= |backups|
      invariant forall i :: k <= i < |backups| ==> backups[i].full.createdOn < b.full.createdOn
    {
      k := k - 1;
    }
    hide NewestFirst;
    InsertedInOrder(b, backups, k);
    InsertedMultiset(b, backups, k);
    r := backups[..k] + ([b] + backups[k..]);
  }

  lemma InsertedMultiset(b: Backup, backups: seq<Backup>, k: nat)
    requires k <= |backups|
    ensures multiset(backups[..k] + ([b] + backups[k..])) == multiset(backups) + multiset{b}
  {
    assert backups == backups[..k] + backups[k..];
  }

  lemma InsertedInOrder(b: Backup, backups: seq<Backup>, k: nat)
    requires NewestFirst(backups) && k <= |backups|
    requires k > 0 ==> backups[k - 1].full.createdOn >= b.full.createdOn
    requires forall i :: k <= i < |backups| ==> backups[i].full.createdOn < b.full.createdOn
    ensures NewestFirst(backups[..k] + ([b] + backups[k..]))
  {
    var r := backups[..k] + ([b] + backups[k..]);
    forall i, j | 0 <= i < j < |r| ensures r[i].full.createdOn >= r[j].full.createdOn {
      var x := if i < k then backups[i] else if i == k then b else backups[i - 1];
      var y := if j < k then backups[j] else if j == k then b else backups[j - 1];
      assert r[i] == x && r[j] == y;
    }
  }

  /** Stands for sort.Slice with the newest backup first. */
  method SortBackups(backups: seq<Backup>) returns (sorted: seq<Backup>)
    ensures NewestFirst(sorted)
    ensures multiset(sorted) == multiset(backups)
  {
    sorted := [];
    for i := 0 to |backups|
      invariant NewestFirst(sorted)
      invariant multiset(sorted) == multiset(backups[..i])
    {
      assert backups[..i + 1] == backups[..i] + [backups[i]];
      sorted := InsertBackup(backups[i], sorted);
    }
    assert backups[..|backups|] == backups;
  }

  function Flatten(backups: seq<Backup>): seq<Snapshot> {
    if backups == [] then []
    else Flatten(backups[..|backups| - 1]) + [backups[|backups| - 1].full] + backups[|backups| - 1].deltas
  }

  /** The backups that pass the filter. */
  function Passing(backups: seq<Backup>, filter: Option<Snapshot -> bool>): seq<Backup> {
    if backups == [] then []
    else
      var init, last := Passing(backups[..|backups| - 1], filter), backups[|backups| - 1];
      if filter.None? || filter.value(last.full) then init + [last] else init
  }

  lemma {:induction false} PassingPrefix(backups: seq<Backup>, filter: Option<Snapshot -> bool>, n: nat)
    requires n <= |backups|
    ensures Passing(backups[..n], filter) <= Passing(backups, filter)
  {
    if n == |backups| {
      assert backups[..n] == backups;
    } else {
      var init := backups[..|backups| - 1];
      assert backups[..n] == init[..n];
      PassingPrefix(init, filter, n);
    }
  }

  lemma {:induction false} PassingAll(backups: seq<Backup>)
    ensures Passing(backups, None) == backups
  {
    if backups != [] {
      PassingAll(backups[..|backups| - 1]);
      assert backups == backups[..|backups| - 1] + [backups[|backups| - 1]];
    }
  }

  /** The newest `maxBackups` of the passing backups; a negative number means all of them. */
  function Limited(backups: seq<Backup>, maxBackups: int): seq<Backup> {
    if 0 <= maxBackups <= |backups| then backups[..maxBackups] else backups
  }

  /** `list` is what choosing from the backups in the order `sorted` gives. */
  ghost predicate Chosen(list: seq<Snapshot>, backups: seq<Backup>, maxBackups: int, filter: Option<Snapshot -> bool>,
                         sorted: seq<Backup>)
  {
    && NewestFirst(sorted) && multiset(sorted) == multiset(backups)
    && list == Flatten(Limited(Passing(sorted, filter), maxBackups))
  }

  /** The newest backups that pass the filter, each full snapshot followed by its deltas. */
  method GetFilteredBackups(snapList: seq<Snapshot>, maxBackups: int, filter: Option<Snapshot -> bool>)
    returns (list: seq<Snapshot>)
    ensures exists sorted :: Chosen(list, StructureOf(snapList).backups, maxBackups, filter, sorted)
  {
    hide Flatten, Passing, StructureOf;
    var backups := GetStructuredBackupList(snapList);
    var sorted := SortBackups(backups);
    list := [];
    var count := 0;
    ghost var chosen: seq<Backup> := [];
    var i := 0;
    FlattenNothing(filter);
    assert sorted[..0] == [];
    while i < |sorted| && !(maxBackups >= 0 && count == maxBackups)
      invariant 0 <= i <= |sorted|
      invariant chosen == Passing(sorted[..i], filter) && count == |chosen|
      invariant list == Flatten(chosen)
      invariant maxBackups >= 0 ==> count <= maxBackups
    {
      var b := sorted[i];
      PassingSnoc(sorted[..i], b, filter);
      assert sorted[..i + 1] == sorted[..i] + [b];
      if filter.None? || filter.value(b.full) {
        FlattenSnoc(chosen, b);
        list := list + [b.full] + b.deltas;
        chosen := chosen + [b];
        count := count + 1;
      }
      i := i + 1;
    }
    PassingPrefix(sorted, filter, i);
    assert sorted[..|sorted|] == sorted;
    assert chosen == Passing(sorted, filter)[..count];
    assert chosen == Limited(Passing(sorted, filter), maxBackups);
    assert Chosen(list, StructureOf(snapList).backups, maxBackups, filter, sorted);
  }

  /** The list is laid out as these backups, each full snapshot followed by its deltas. */
  predicate LaidOut(list: seq<Snapshot>, chosen: seq<Backup>) {
    if chosen == [] then list == []
    else
      var n := 1 + |chosen[0].deltas|;
      && n <= |list| && list[0] == chosen[0].full && list[1..n] == chosen[0].deltas
      && LaidOut(list[n..], chosen[1..])
  }

  lemma {:induction false} FlattenLaysOut(chosen: seq<Backup>)
    ensures LaidOut(Flatten(chosen), chosen)
  {
    hide Flatten;
    if chosen == [] {
      assert Flatten(chosen) == [] by { FlattenNothing(None); }
    } else {
      FlattenFirst(chosen);
      FlattenLaysOut(chosen[1..]);
      var list, n := Flatten(chosen), 1 + |chosen[0].deltas|;
      assert list[..n] == [chosen[0].full] + chosen[0].deltas && list[n..] == Flatten(chosen[1..]);
      assert list[1..n] == list[..n][1..];
    }
  }

  lemma {:induction false} FlattenFirst(backups: seq<Backup>)
    requires backups != []
    ensures Flatten(backups) == [backups[0].full] + backups[0].deltas + Flatten(backups[1..])
  {
    var init, last := backups[..|backups| - 1], backups[|backups| - 1];
    hide Flatten;
    FlattenNothing(None);
    FlattenSnoc(init, last);
    assert backups == init + [last];
    if init == [] {
      assert backups[1..] == [];
    } else {
      FlattenFirst(init);
      FlattenSnoc(init[1..], last);
      assert backups[1..] == init[1..] + [last];
    }
  }

  predicate Passes(b: Backup, filter: Option<Snapshot -> bool>) {
    filter.Some? ==> filter.value(b.full)
  }

  lemma {:induction false} PassingMembers(backups: seq<Backup>, filter: Option<Snapshot -> bool>)
    ensures forall b :: multiset(Passing(backups, filter))[b] == if Passes(b, filter) then multiset(backups)[b] else 0
  {
    if backups != [] {
      var init, last := backups[..|backups| - 1], backups[|backups| - 1];
      assert backups == init + [last];
      PassingMembers(init, filter);
    }
  }

  lemma {:induction false} PassingInOrder(backups: seq<Backup>, filter: Option<Snapshot -> bool>)
    requires NewestFirst(backups)
    ensures NewestFirst(Passing(backups, filter))
    ensures forall b :: b in Passing(backups, filter) ==> b in backups
  {
    if backups != [] {
      var init, last := backups[..|backups| - 1], backups[|backups| - 1];
      PassingInOrder(init, filter);
      var kept := Passing(init, filter);
      forall i | 0 <= i < |kept| ensures kept[i].full.createdOn >= last.full.createdOn {
        assert kept[i] in init;
      }
    }
  }

  /** Some of the backups, all of which pass the filter, newest first, and no more than the limit; one
      that passes is left out only if the limit is reached by others that are not older. */
  ghost predicate NewestOf(chosen: seq<Backup>, backups: seq<Backup>, maxBackups: int,
                           filter: Option<Snapshot -> bool>)
  {
    && (forall i, j :: 0 <= i < j < |chosen| ==> chosen[i].full.createdOn >= chosen[j].full.createdOn)
    && multiset(chosen) <= multiset(backups)
    && (forall b :: b in chosen ==> Passes(b, filter))
    && (maxBackups >= 0 ==> |chosen| <= maxBackups)
    && (forall b :: multiset(chosen)[b] < multiset(backups)[b] && Passes(b, filter) ==>
          |chosen| == maxBackups && forall c :: c in chosen ==> c.full.createdOn >= b.full.createdOn)
  }

  /** What the copier gets. */
  lemma ChosenAreNewest(list: seq<Snapshot>, backups: seq<Backup>, maxBackups: int, filter: Option<Snapshot -> bool>,
                        sorted: seq<Backup>)
    requires Chosen(list, backups, maxBackups, filter, sorted)
    ensures exists chosen :: LaidOut(list, chosen) && NewestOf(chosen, backups, maxBackups, filter)
  {
    hide Flatten, Passing, NewestFirst;
    var passing := Passing(sorted, filter);
    var chosen := Limited(passing, maxBackups);
    var left := passing[|chosen|..];
    assert passing == chosen + left;
    FlattenLaysOut(chosen);
    PassingMembers(sorted, filter);
    PassingInOrder(sorted, filter);
    PrefixInOrder(passing, |chosen|);
    LeftOut(chosen, left, backups, filter);
  }

  /** What passes and is not chosen is what is left. */
  lemma LeftOut(chosen: seq<Backup>, left: seq<Backup>, backups: seq<Backup>, filter: Option<Snapshot -> bool>)
    requires forall b :: multiset(chosen + left)[b] == if Passes(b, filter) then multiset(backups)[b] else 0
    ensures multiset(chosen) <= multiset(backups) && forall b :: b in chosen ==> Passes(b, filter)
    ensures forall b :: multiset(chosen)[b] < multiset(backups)[b] && Passes(b, filter) ==> b in left
  {
    hide Passes;
    assert multiset(chosen + left) == multiset(chosen) + multiset(left);
    forall b ensures multiset(chosen)[b] <= multiset(backups)[b] && (b in chosen ==> Passes(b, filter)) {
      assert b in chosen ==> multiset(chosen)[b] > 0;
    }
    forall b | multiset(chosen)[b] < multiset(backups)[b] && Passes(b, filter) ensures b in left {
      assert multiset(left)[b] > 0;
    }
  }

  lemma PrefixInOrder(backups: seq<Backup>, n: nat)
    requires NewestFirst(backups) && n <= |backups|
    ensures var a := backups[..n]; forall i, j :: 0 <= i < j < |a| ==> a[i].full.createdOn >= a[j].full.createdOn
    ensures forall a, b :: a in backups[..n] && b in backups[n..] ==> a.full.createdOn >= b.full.createdOn
  {
  }

  lemma FlattenNothing(filter: Option<Snapshot -> bool>)
    ensures Flatten([]) == [] && Passing([], filter) == []
  {
  }

  lemma PassingSnoc(backups: seq<Backup>, b: Backup, filter: Option<Snapshot -> bool>)
    ensures Passing(backups + [b], filter) ==
            if filter.None? || filter.value(b.full) then Passing(backups, filter) + [b] else Passing(backups, filter)
  {
    assert (backups + [b])[..|backups|] == backups;
  }

  lemma FlattenSnoc(backups: seq<Backup>, b: Backup)
    ensures Flatten(backups + [b]) == Flatten(backups) + [b.full] + b.deltas
  {
    assert (backups + [b])[..|backups|] == backups;
  }

  // ---------------------------------------------------------------------------
  // Nothing is lost
  // ---------------------------------------------------------------------------

  ghost function Contents(b: Backup): multiset<Snapshot> {
    multiset{b.full} + multiset(b.deltas)
  }

  lemma {:induction false} ReverseMultiset<T>(s: seq<T>)
    ensures multiset(Reverse(s)) == multiset(s)
  {
    if s != [] {
      assert s == s[..|s| - 1] + [s[|s| - 1]];
      ReverseMultiset(s[..|s| - 1]);
    }
  }

  lemma FlattenStep(backups: seq<Backup>, b: Backup)
    ensures multiset(Flatten(backups + [b])) == multiset(Flatten(backups)) + Contents(b)
  {
    hide Flatten;
    FlattenSnoc(backups, b);
  }

  lemma {:induction false} FlattenDrop(backups: seq<Backup>, j: nat)
    requires j < |backups|
    ensures multiset(Flatten(backups)) == multiset(Flatten(Drop(backups, j))) + Contents(backups[j])
  {
    hide Flatten, Contents, Drop;
    var init, last := backups[..|backups| - 1], backups[|backups| - 1];
    assert backups == init + [last];
    DropSnoc(backups, j);
    FlattenStep(init, last);
    if j < |backups| - 1 {
      FlattenDrop(init, j);
      FlattenStep(Drop(init, j), last);
    }
  }

  lemma DropMultiset(backups: seq<Backup>, j: nat)
    requires j < |backups|
    ensures multiset(Drop(backups, j)) == multiset(backups) - multiset{backups[j]}
  {
    assert backups == backups[..j] + [backups[j]] + backups[j + 1..];
  }

  /** The order of the backups does not matter for what they contain. */
  lemma {:induction false} FlattenPermuted(a: seq<Backup>, b: seq<Backup>)
    requires multiset(a) == multiset(b)
    ensures multiset(Flatten(a)) == multiset(Flatten(b))
  {
    hide Flatten, Contents, Drop;
    if a == [] {
      assert |multiset(b)| == 0;
    } else {
      var init, last := a[..|a| - 1], a[|a| - 1];
      assert a == init + [last];
      assert last in multiset(b);
      var j :| 0 <= j < |b| && b[j] == last;
      DropMultiset(b, j);
      FlattenPermuted(init, Drop(b, j));
      FlattenStep(init, last);
      FlattenDrop(b, j);
    }
  }

  lemma {:induction false} ListingContents(backups: seq<Backup>)
    ensures multiset(Listing(backups)) == multiset(Flatten(backups))
  {
    if backups != [] {
      var init, last := backups[..|backups| - 1], backups[|backups| - 1];
      assert backups == init + [last];
      ListingContents(init);
      ReverseMultiset(last.deltas);
      ListingSnoc(init, last);
      FlattenStep(init, last);
      hide Listing, Flatten, Reverse;
    }
  }

  /** Without a limit and a filter the copier gets every snapshot from the oldest full one on,
      each once. */
  lemma NothingIsLost(snapList: seq<Snapshot>, list: seq<Snapshot>, sorted: seq<Backup>)
    requires Chosen(list, StructureOf(snapList).backups, -1, None, sorted)
    ensures multiset(WithoutChunks(snapList)) == multiset(StructureOf(snapList).pending) + multiset(list)
  {
    hide WithoutChunks, Listing, Flatten, Passing, StructureOf, Reverse;
    var s := StructureOf(snapList);
    StructureIsListing(snapList);
    PassingAll(sorted);
    FlattenPermuted(sorted, s.backups);
    ListingContents(s.backups);
    ReverseMultiset(s.pending);
  }
}
