/** The circular doubly linked list of src/incl/utils.h, on the heap. A list is its head; the
    ghost sequence of a ring holds the head first and then the entries in order. */
module IntrusiveList {

  class LinkedList {
    var next: LinkedList
    var prev: LinkedList

    /** INIT_LINKED_LIST */
    constructor ()
      ensures next == this && prev == this
    {
      next := this;
      prev := this;
    }
  }

  function Succ(i: nat, n: nat): nat
    requires i < n
  {
    if i + 1 == n then 0 else i + 1
  }

  /** next and prev are inverse and run once around the ring. */
  ghost predicate Ring(s: seq<LinkedList>)
    reads s
  {
    && s != []
    && (forall i, j :: 0 <= i < j < |s| ==> s[i] != s[j])
    && (forall i :: 0 <= i < |s| ==> s[i].next == s[Succ(i, |s|)] && s[Succ(i, |s|)].prev == s[i])
  }

  /** The pointers alone determine the contents of a list. */
  lemma RingDetermined(s: seq<LinkedList>, t: seq<LinkedList>)
    requires Ring(s) && Ring(t) && s[0] == t[0]
    ensures s == t
  {
    var n := if |s| < |t| then |s| else |t|;
    SamePrefix(s, t, n);
    assert s[n - 1] == s[..n][n - 1] == t[n - 1];
    assert s[Succ(n - 1, |s|)] == t[Succ(n - 1, |t|)];
  }

  lemma {:induction false} SamePrefix(s: seq<LinkedList>, t: seq<LinkedList>, n: nat)
    requires Ring(s) && Ring(t) && s[0] == t[0] && 0 < n <= |s| && n <= |t|
    ensures s[..n] == t[..n]
  {
    if n > 1 {
      SamePrefix(s, t, n - 1);
      assert s[n - 2] == s[..n - 1][n - 2] == t[n - 2];
      assert s[Succ(n - 2, |s|)] == t[Succ(n - 2, |t|)];
    }
  }

  /** __list_add, between two neighbours of a ring. */
  method ListInsert(entry: LinkedList, prev: LinkedList, next: LinkedList, ghost s: seq<LinkedList>, ghost k: nat)
    requires Ring(s) && k < |s| && prev == s[k] && next == s[Succ(k, |s|)] && entry !in s
    modifies next`prev, entry`next, entry`prev, prev`next
    ensures Ring(s[..k + 1] + [entry] + s[k + 1..])
  {
    next.prev := entry;
    entry.next := next;
    entry.prev := prev;
    prev.next := entry;
    ghost var t := s[..k + 1] + [entry] + s[k + 1..];
    Inserted(s, k, entry);
    forall i | 0 <= i < |t|
      ensures t[i].next == t[Succ(i, |t|)] && t[Succ(i, |t|)].prev == t[i]
    {
      if i < k {
        assert t[i] == s[i] && t[i + 1] == s[i + 1];
        assert old(s[i].next) == s[Succ(i, |s|)];
      } else if i > k + 1 {
        assert t[i] == s[i - 1] && t[Succ(i, |t|)] == s[Succ(i - 1, |s|)];
        assert old(s[i - 1].next) == s[Succ(i - 1, |s|)];
      } else {
        assert t[k] == prev && t[k + 1] == entry && t[Succ(k + 1, |t|)] == next;
      }
    }
  }

  lemma Inserted(s: seq<LinkedList>, k: nat, entry: LinkedList)
    requires k < |s| && entry !in s && forall i, j :: 0 <= i < j < |s| ==> s[i] != s[j]
    ensures var t := s[..k + 1] + [entry] + s[k + 1..];
      forall i, j :: 0 <= i < j < |t| ==> t[i] != t[j]
  {
  }

  method ListAdd(entry: LinkedList, list: LinkedList, ghost s: seq<LinkedList>)
    requires Ring(s) && s[0] == list && entry !in s
    modifies list.next`prev, entry`next, entry`prev, list`next
    ensures Ring([list, entry] + s[1..])
  {
    assert [list, entry] + s[1..] == s[..1] + [entry] + s[1..];
    ListInsert(entry, list, list.next, s, 0);
  }

  method ListAddTail(entry: LinkedList, list: LinkedList, ghost s: seq<LinkedList>)
    requires Ring(s) && s[0] == list && entry !in s
    modifies list`prev, entry`next, entry`prev, list.prev`next
    ensures Ring(s + [entry])
  {
    ghost var k := |s| - 1;
    assert s[Succ(k, |s|)].prev == s[k];
    assert s[..k + 1] + [entry] + s[k + 1..] == s + [entry];
    ListInsert(entry, list.prev, list, s, k);
  }

  /** The entry leaves the ring but keeps its own pointers. */
  method ListDel(entry: LinkedList, ghost s: seq<LinkedList>, ghost k: nat)
    requires Ring(s) && 0 < k < |s| && s[k] == entry
    modifies entry.next`prev, entry.prev`next
    ensures Ring(s[..k] + s[k + 1..])
    ensures entry.next == old(entry.next) && entry.prev == old(entry.prev)
  {
    assert s[Succ(k - 1, |s|)].prev == s[k - 1] && s[k].next == s[Succ(k, |s|)];
    entry.next.prev := entry.prev;
    entry.prev.next := entry.next;
    ghost var t := s[..k] + s[k + 1..];
    forall i | 0 <= i < |t|
      ensures t[i].next == t[Succ(i, |t|)] && t[Succ(i, |t|)].prev == t[i]
    {
      if i < k - 1 {
        assert old(s[i].next) == s[Succ(i, |s|)];
      } else if i >= k {
        assert old(s[i + 1].next) == s[Succ(i + 1, |s|)];
      }
    }
  }

  method ListEmpty(list: LinkedList, ghost s: seq<LinkedList>) returns (empty: bool)
    requires Ring(s) && s[0] == list
    ensures empty <==> s == [list]
  {
    empty := list.next == list;
    assert list.next == s[Succ(0, |s|)];
  }

  /** list_for_each_entry */
  method ForEach(list: LinkedList, ghost s: seq<LinkedList>) returns (visited: seq<LinkedList>)
    requires Ring(s) && s[0] == list
    ensures visited == s[1..]
  {
    visited := [];
    ghost var i := 1;
    var entry := list.next;
    assert entry == s[Succ(0, |s|)];
    while entry != list
      invariant 1 <= i <= |s| && visited == s[1..i]
      invariant entry == if i == |s| then list else s[i]
      decreases |s| - i
    {
      assert entry.next == s[Succ(i, |s|)];
      visited := visited + [entry];
      entry := entry.next;
      i := i + 1;
    }
  }

  function Kept(s: seq<LinkedList>, doomed: set<LinkedList>): seq<LinkedList> {
    if s == [] then []
    else Kept(s[..|s| - 1], doomed) + if s[|s| - 1] in doomed then [] else [s[|s| - 1]]
  }

  /** The ring once the first entries of s are dealt with. */
  ghost function Swept(s: seq<LinkedList>, i: nat, doomed: set<LinkedList>): seq<LinkedList>
    requires 1 <= i <= |s|
  {
    [s[0]] + Kept(s[1..i], doomed) + s[i..]
  }

  lemma SweptNext(s: seq<LinkedList>, i: nat, doomed: set<LinkedList>)
    requires 1 <= i < |s|
    ensures var r, k := Swept(s, i, doomed), 1 + |Kept(s[1..i], doomed)|;
      && 0 < k < |r| && r[k] == s[i]
      && r[Succ(k, |r|)] == (if i + 1 == |s| then s[0] else s[i + 1])
      && r[..k] + (if s[i] in doomed then [] else [s[i]]) + r[k + 1..] == Swept(s, i + 1, doomed)
  {
    assert s[1..i + 1][..i - 1] == s[1..i];
    assert s[i..] == [s[i]] + s[i + 1..];
  }

  lemma SweptInside(s: seq<LinkedList>, i: nat, doomed: set<LinkedList>)
    requires 1 <= i <= |s|
    ensures forall j :: 0 <= j < |Swept(s, i, doomed)| ==> Swept(s, i, doomed)[j] in s
  {
    KeptIs(s[1..i], doomed);
    assert forall x <- s[1..i] :: x in s;
  }

  /** The loop body: delete the current entry when it is to go. */
  method SweepOne(entry: LinkedList, doomed: set<LinkedList>, ghost s: seq<LinkedList>, ghost i: nat)
    requires 1 <= i < |s| && s[i] == entry && Ring(Swept(s, i, doomed))
    modifies s
    ensures Ring(Swept(s, i + 1, doomed))
    ensures entry.next == old(entry.next) == if i + 1 == |s| then s[0] else s[i + 1]
  {
    ghost var k, ring := 1 + |Kept(s[1..i], doomed)|, Swept(s, i, doomed);
    SweptNext(s, i, doomed);
    NeighboursInRing(ring, k);
    if entry in doomed {
      SweptInside(s, i, doomed);
      DelWithin(entry, ring, k, set x <- s);
      assert ring[..k] + [] + ring[k + 1..] == ring[..k] + ring[k + 1..];
    } else {
      assert ring[..k] + [entry] + ring[k + 1..] == ring;
    }
  }

  method DelWithin(entry: LinkedList, ghost s: seq<LinkedList>, ghost k: nat, ghost all: set<LinkedList>)
    requires Ring(s) && 0 < k < |s| && s[k] == entry
    requires forall j :: 0 <= j < |s| ==> s[j] in all
    modifies all
    ensures Ring(s[..k] + s[k + 1..])
    ensures entry.next == old(entry.next)
  {
    NeighboursInRing(s, k);
    ListDel(entry, s, k);
  }

  /** list_for_each_entry_safe with a body that may delete the current entry: every entry is
      visited once, in order, and exactly the entries not to be deleted remain. */
  method SweepSafe(list: LinkedList, doomed: set<LinkedList>, ghost s: seq<LinkedList>)
    returns (visited: seq<LinkedList>)
    requires Ring(s) && s[0] == list
    modifies s
    ensures visited == s[1..]
    ensures Ring([list] + Kept(s[1..], doomed))
  {
    visited := [];
    ghost var i := 1;
    var entry := list.next;
    assert entry == s[Succ(0, |s|)];
    var tmp := entry.next;
    assert Swept(s, 1, doomed) == s;
    while entry != list
      invariant 1 <= i <= |s| && visited == s[1..i]
      invariant Ring(Swept(s, i, doomed))
      invariant entry == if i == |s| then list else s[i]
      invariant tmp == entry.next
      decreases |s| - i
    {
      visited := visited + [entry];
      SweepOne(entry, doomed, s, i);
      entry := tmp;
      tmp := tmp.next;
      i := i + 1;
    }
    assert s[1..|s|] == s[1..] && s[|s|..] == [];
    assert Swept(s, |s|, doomed) == [list] + Kept(s[1..], doomed);
  }

  lemma NeighboursInRing(s: seq<LinkedList>, k: nat)
    requires Ring(s) && 0 < k < |s|
    ensures s[k].next == s[Succ(k, |s|)] && s[k].next in s
    ensures s[k].prev == s[k - 1] && s[k].prev in s
  {
    assert s[k - 1].next == s[Succ(k - 1, |s|)];
  }

  /** What is swept out and what is kept make up the list. */
  lemma {:induction false} KeptIs(s: seq<LinkedList>, doomed: set<LinkedList>)
    ensures forall i :: 0 <= i < |Kept(s, doomed)| ==> Kept(s, doomed)[i] in s && Kept(s, doomed)[i] !in doomed
    ensures forall i :: 0 <= i < |s| && s[i] !in doomed ==> s[i] in Kept(s, doomed)
    ensures multiset(Kept(s, doomed)) <= multiset(s)
  {
    if s != [] {
      KeptIs(s[..|s| - 1], doomed);
      assert s == s[..|s| - 1] + [s[|s| - 1]];
    }
  }
}
