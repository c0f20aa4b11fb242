/** Sums and bags over sequences, for counting arguments. */
module Sums {

  function Sum<T>(s: seq<T>, weight: T -> nat): nat {
    if s == [] then 0 else Sum(s[..|s| - 1], weight) + weight(s[|s| - 1])
  }

  /** The keys of the elements, with repetitions. */
  function Bag<T>(s: seq<T>, key: T -> int): multiset<int> {
    if s == [] then multiset{} else Bag(s[..|s| - 1], key) + multiset{key(s[|s| - 1])}
  }

  function Drop<T>(s: seq<T>, j: nat): (r: seq<T>)
    requires j < |s|
    ensures |r| == |s| - 1
    ensures forall p :: 0 <= p < |r| ==> r[p] == if p < j then s[p] else s[p + 1]
  {
    s[..j] + s[j + 1..]
  }

  lemma {:induction false} SumUpdate<T>(s: seq<T>, weight: T -> nat, i: nat, x: T)
    requires i < |s|
    ensures Sum(s[i := x], weight) == Sum(s, weight) - weight(s[i]) + weight(x)
  {
    var last := |s| - 1;
    if i == last {
      assert s[i := x][..last] == s[..last];
    } else {
      assert s[i := x][..last] == s[..last][i := x];
      SumUpdate(s[..last], weight, i, x);
    }
  }

  lemma {:induction false} SumConstant<T>(s: seq<T>, weight: T -> nat, x: T)
    requires forall i :: 0 <= i < |s| ==> s[i] == x
    ensures Sum(s, weight) == |s| * weight(x)
  {
    if s != [] { SumConstant(s[..|s| - 1], weight, x); }
  }

  lemma SnocCounts<T>(s: seq<T>, x: T, weight: T -> nat, key: T -> int)
    ensures Sum(s + [x], weight) == Sum(s, weight) + weight(x)
    ensures Bag(s + [x], key) == Bag(s, key) + multiset{key(x)}
  {
    assert (s + [x])[..|s|] == s;
  }

  lemma {:induction false} DropCounts<T>(s: seq<T>, j: nat, weight: T -> nat, key: T -> int)
    requires j < |s|
    ensures Sum(s, weight) == Sum(Drop(s, j), weight) + weight(s[j])
    ensures Bag(s, key) == Bag(Drop(s, j), key) + multiset{key(s[j])}
  {
    hide Sum, Bag, Drop;
    var init, last := s[..|s| - 1], s[|s| - 1];
    assert s == init + [last];
    DropSnoc(s, j);
    SnocCounts(init, last, weight, key);
    if j < |s| - 1 {
      SnocCounts(Drop(init, j), last, weight, key);
      DropCounts(init, j, weight, key);
    }
  }

  lemma DropSnoc<T>(s: seq<T>, j: nat)
    requires j < |s|
    ensures j == |s| - 1 ==> Drop(s, j) == s[..|s| - 1]
    ensures j < |s| - 1 ==> Drop(s, j) == Drop(s[..|s| - 1], j) + [s[|s| - 1]]
  {
  }

  lemma {:induction false} UpdateCounts<T>(s: seq<T>, j: nat, x: T, weight: T -> nat, key: T -> int)
    requires j < |s| && weight(x) == weight(s[j]) && key(x) == key(s[j])
    ensures Sum(s[j := x], weight) == Sum(s, weight)
    ensures Bag(s[j := x], key) == Bag(s, key)
  {
    DropCounts(s, j, weight, key);
    DropCounts(s[j := x], j, weight, key);
    assert Drop(s[j := x], j) == Drop(s, j);
  }

  lemma {:induction false} InBag<T>(s: seq<T>, key: T -> int, p: nat)
    requires p < |s|
    ensures Bag(s, key)[key(s[p])] >= 1
  {
    if p < |s| - 1 { InBag(s[..|s| - 1], key, p); }
  }

  lemma NotInBag<T>(s: seq<T>, key: T -> int, x: int)
    requires Bag(s, key)[x] == 0
    ensures forall p :: 0 <= p < |s| ==> key(s[p]) != x
  {
    forall p | 0 <= p < |s| ensures key(s[p]) != x {
      InBag(s, key, p);
    }
  }

  /** A key of the bag belongs to some element. */
  lemma {:induction false} FromBag<T>(s: seq<T>, key: T -> int, x: int) returns (p: nat)
    requires x in Bag(s, key)
    ensures p < |s| && key(s[p]) == x
  {
    if key(s[|s| - 1]) == x {
      p := |s| - 1;
    } else {
      p := FromBag(s[..|s| - 1], key, x);
    }
  }

  /** Elements with different keys have a bag without repetitions. */
  lemma {:induction false} DistinctBag<T>(s: seq<T>, key: T -> int, x: int)
    requires forall p, q :: 0 <= p < q < |s| ==> key(s[p]) != key(s[q])
    ensures Bag(s, key)[x] <= 1
  {
    if s != [] {
      var init, last := s[..|s| - 1], s[|s| - 1];
      assert Bag(s, key)[x] == Bag(init, key)[x] + if key(last) == x then 1 else 0;
      hide Bag;
      DistinctBag(init, key, x);
      if key(last) == x && x in Bag(init, key) {
        var p := FromBag(init, key, x);
        assert false;
      }
    }
  }
}
