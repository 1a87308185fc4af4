/** The two-level list of log pages that the monitor and auto-connect daemons keep, and the
    marking and saving that brings a fetched log into it (invalidate_log_pages and
    save_log_pages of src/monitor/daemon.c and src/auto_connect/daemon.c). */
module LogStore {
  import opened DemTypes
  import opened Options

  datatype Status = Valid | Deleted | New

  datatype Page = Page(e: Entry, status: Status)

  datatype Sub = Sub(nqn: string, pages: seq<Page>)

  type Store = seq<Sub>

  // Looking up.

  /** The index of the first subsystem with this NQN, or the length. */
  function FindSub(store: Store, nqn: string): (i: nat)
    ensures i <= |store| && (forall k :: 0 <= k < i ==> store[k].nqn != nqn)
    ensures i < |store| ==> store[i].nqn == nqn
  {
    if store == [] || store[0].nqn == nqn then 0 else 1 + FindSub(store[1..], nqn)
  }

  function FindPage(pages: seq<Page>, key: Key): (i: nat)
    ensures i <= |pages| && (forall k :: 0 <= k < i ==> KeyOf(pages[k].e) != key)
    ensures i < |pages| ==> KeyOf(pages[i].e) == key
  {
    if pages == [] || KeyOf(pages[0].e) == key then 0 else 1 + FindPage(pages[1..], key)
  }

  function PageAt(pages: seq<Page>, key: Key): Option<Page> {
    var j := FindPage(pages, key);
    if j < |pages| then Some(pages[j]) else None
  }

  function Look(store: Store, k: LogKey): Option<Page> {
    var i := FindSub(store, k.0);
    if i < |store| then PageAt(store[i].pages, k.1) else None
  }

  // Well-formed lists.

  ghost predicate PagesOk(nqn: string, pages: seq<Page>) {
    && (forall j :: 0 <= j < |pages| ==> pages[j].e.subnqn == nqn)
    && (forall j, k :: 0 <= j < k < |pages| ==> KeyOf(pages[j].e) != KeyOf(pages[k].e))
  }

  /** No NQN twice, no key twice in a subsystem, no subsystem without pages. */
  ghost predicate WellFormed(store: Store) {
    && (forall i :: 0 <= i < |store| ==> store[i].pages != [] && PagesOk(store[i].nqn, store[i].pages))
    && (forall i, j :: 0 <= i < j < |store| ==> store[i].nqn != store[j].nqn)
  }

  /** No page is marked deleted, as is the case between updates. */
  ghost predicate Clean(store: Store) {
    forall i, j :: 0 <= i < |store| && 0 <= j < |store[i].pages| ==> !store[i].pages[j].status.Deleted?
  }

  // Marking.

  function MarkPages(pages: seq<Page>): seq<Page> {
    seq(|pages|, j requires 0 <= j < |pages| => pages[j].(status := Deleted))
  }

  function Marked(store: Store): Store {
    seq(|store|, i requires 0 <= i < |store| => store[i].(pages := MarkPages(store[i].pages)))
  }

  // Saving.

  /** An entry that is already stored keeps its old contents and becomes valid. */
  function SavePage(pages: seq<Page>, e: Entry): seq<Page> {
    var j := FindPage(pages, KeyOf(e));
    if j < |pages| then pages[j := pages[j].(status := Valid)] else pages + [Page(e, New)]
  }

  function SaveEntry(store: Store, e: Entry): Store {
    var i := FindSub(store, e.subnqn);
    if i < |store| then store[i := store[i].(pages := SavePage(store[i].pages, e))]
    else store + [Sub(e.subnqn, [Page(e, New)])]
  }

  function Save(store: Store, log: seq<Entry>): Store {
    if log == [] then store
    else SaveEntry(Save(store, log[..|log| - 1]), log[|log| - 1])
  }

  /** How often a log lists a key. */
  function Times(log: seq<Entry>, k: LogKey): nat {
    if log == [] then 0
    else Times(log[..|log| - 1], k) + if LogKeyOf(log[|log| - 1]) == k then 1 else 0
  }

  /** The first entry of a log with a key. */
  function First(log: seq<Entry>, k: LogKey): Option<Entry> {
    if log == [] then None
    else
      var e := First(log[..|log| - 1], k);
      if e.None? && LogKeyOf(log[|log| - 1]) == k then Some(log[|log| - 1]) else e
  }

  /** What a log makes of a stored page. */
  function Seen(was: Option<Page>, log: seq<Entry>, k: LogKey): Option<Page> {
    match First(log, k)
    case None => was
    case Some(e) =>
      if was.Some? then Some(Page(was.value.e, Valid))
      else Some(Page(e, if Times(log, k) == 1 then New else Valid))
  }

  // The two lookups are determined by the names they pass.

  lemma SubIs(store: Store, nqn: string, i: nat)
    requires i <= |store| && (forall k :: 0 <= k < i ==> store[k].nqn != nqn)
    requires i < |store| ==> store[i].nqn == nqn
    ensures FindSub(store, nqn) == i
  {
  }

  lemma PageIs(pages: seq<Page>, key: Key, i: nat)
    requires i <= |pages| && (forall k :: 0 <= k < i ==> KeyOf(pages[k].e) != key)
    requires i < |pages| ==> KeyOf(pages[i].e) == key
    ensures FindPage(pages, key) == i
  {
  }

  lemma MarkedLook(store: Store, k: LogKey)
    ensures Look(Marked(store), k) ==
      match Look(store, k) { case None => None case Some(p) => Some(Page(p.e, Deleted)) }
    ensures WellFormed(store) ==> WellFormed(Marked(store))
  {
    var i := FindSub(store, k.0);
    SubIs(Marked(store), k.0, i);
    if i < |store| {
      PageIs(MarkPages(store[i].pages), k.1, FindPage(store[i].pages, k.1));
    }
  }

  lemma SavePageLook(pages: seq<Page>, e: Entry, key: Key)
    requires PagesOk(e.subnqn, pages)
    ensures PagesOk(e.subnqn, SavePage(pages, e))
    ensures PageAt(SavePage(pages, e), key) ==
      if key != KeyOf(e) then PageAt(pages, key)
      else match PageAt(pages, key) { case None => Some(Page(e, New)) case Some(p) => Some(Page(p.e, Valid)) }
  {
    var j := FindPage(pages, key);
    var now := SavePage(pages, e);
    if j == |pages| && key != KeyOf(e) {
      PageIs(now, key, |now|);
    } else {
      PageIs(now, key, j);
    }
  }

  lemma SaveEntryOk(store: Store, e: Entry)
    requires WellFormed(store)
    ensures WellFormed(SaveEntry(store, e))
  {
    var i := FindSub(store, e.subnqn);
    if i < |store| {
      SavePageLook(store[i].pages, e, KeyOf(e));
    }
  }

  lemma SaveEntryLook(store: Store, e: Entry, k: LogKey)
    requires WellFormed(store)
    ensures Look(SaveEntry(store, e), k) ==
      if k != LogKeyOf(e) then Look(store, k)
      else match Look(store, k) { case None => Some(Page(e, New)) case Some(p) => Some(Page(p.e, Valid)) }
  {
    var i, at := FindSub(store, k.0), FindSub(store, e.subnqn);
    var now := SaveEntry(store, e);
    if at < |store| {
      SavePageLook(store[at].pages, e, k.1);
    } else {
      PageIs([Page(e, New)], k.1, if k.1 == KeyOf(e) then 0 else 1);
    }
    SubIs(now, k.0, if i == |store| && k.0 != e.subnqn then |now| else i);
  }

  lemma {:induction false} FirstSeen(log: seq<Entry>, k: LogKey)
    ensures First(log, k).Some? <==> Times(log, k) > 0
    ensures First(log, k).Some? ==> First(log, k).value in log && LogKeyOf(First(log, k).value) == k
  {
    if log != [] {
      FirstSeen(log[..|log| - 1], k);
    }
  }

  /** What a log leaves of every key: a stored one that it lists becomes valid with its old
      entry; a new one is stored with its first entry, and is marked new only when the log
      lists it once. */
  lemma {:induction false} SaveLook(store: Store, log: seq<Entry>, k: LogKey)
    requires WellFormed(store)
    ensures WellFormed(Save(store, log))
    ensures Look(Save(store, log), k) == Seen(Look(store, k), log, k)
  {
    if log != [] {
      var n := |log| - 1;
      SaveLook(store, log[..n], k);
      SaveEntryOk(Save(store, log[..n]), log[n]);
      SaveEntryLook(Save(store, log[..n]), log[n], k);
      FirstSeen(log[..n], k);
    }
  }

  // The list in memory.

  class LogPages {
    var subs: Store

    constructor ()
      ensures subs == []
    {
      subs := [];
    }

    method InvalidateLogPages()
      modifies this
      ensures subs == Marked(old(subs))
    {
      for i := 0 to |subs|
        invariant |subs| == |old(subs)|
        invariant forall k :: 0 <= k < i ==> subs[k] == Marked(old(subs))[k]
        invariant forall k :: i <= k < |subs| ==> subs[k] == old(subs)[k]
      {
        for j := 0 to |subs[i].pages|
          invariant |subs| == |old(subs)| && |subs[i].pages| == |old(subs)[i].pages|
          invariant subs[i].nqn == old(subs)[i].nqn
          invariant forall k :: 0 <= k < j ==> subs[i].pages[k] == old(subs)[i].pages[k].(status := Deleted)
          invariant forall k :: j <= k < |subs[i].pages| ==> subs[i].pages[k] == old(subs)[i].pages[k]
          invariant forall k :: 0 <= k < i ==> subs[k] == Marked(old(subs))[k]
          invariant forall k :: i < k < |subs| ==> subs[k] == old(subs)[k]
        {
          var page := subs[i].pages[j].(status := Deleted);
          subs := subs[i := subs[i].(pages := subs[i].pages[j := page])];
        }
        assert subs[i].pages == MarkPages(old(subs)[i].pages);
      }
    }

    /** Finds the page of an entry, its subsystem if that has no such page, or neither. */
    method Match(e: Entry) returns (i: nat, j: nat)
      ensures i == FindSub(subs, e.subnqn)
      ensures j == if i < |subs| then FindPage(subs[i].pages, KeyOf(e)) else 0
    {
      i, j := 0, 0;
      while i < |subs| && subs[i].nqn != e.subnqn
        invariant i <= |subs| && (forall k :: 0 <= k < i ==> subs[k].nqn != e.subnqn)
      {
        i := i + 1;
      }
      SubIs(subs, e.subnqn, i);
      if i < |subs| {
        while j < |subs[i].pages| && KeyOf(subs[i].pages[j].e) != KeyOf(e)
          invariant j <= |subs[i].pages|
          invariant forall k :: 0 <= k < j ==> KeyOf(subs[i].pages[k].e) != KeyOf(e)
        {
          j := j + 1;
        }
        PageIs(subs[i].pages, KeyOf(e), j);
      }
    }

    method SaveLogPage(e: Entry)
      modifies this
      ensures subs == SaveEntry(old(subs), e)
    {
      var i, j := Match(e);
      if i < |subs| && j < |subs[i].pages| {
        var page := subs[i].pages[j].(status := Valid);
        subs := subs[i := subs[i].(pages := subs[i].pages[j := page])];
      } else {
        if i == |subs| {
          subs := subs + [Sub(e.subnqn, [])];
          assert [] + [Page(e, New)] == [Page(e, New)];
          assert subs[i].pages + [Page(e, New)] == [Page(e, New)];
        }
        subs := subs[i := subs[i].(pages := subs[i].pages + [Page(e, New)])];
      }
    }

    method SaveLogPages(log: seq<Entry>)
      modifies this
      ensures subs == Save(old(subs), log)
    {
      for n := 0 to |log|
        invariant subs == Save(old(subs), log[..n])
      {
        SaveLogPage(log[n]);
        assert log[..n + 1][..n] == log[..n];
      }
      assert log[..|log|] == log;
    }

    /** A fetch that fails leaves the list and its marks alone. */
    method FetchLogPages(fetched: Option<seq<Entry>>)
      modifies this
      ensures fetched.None? ==> subs == old(subs)
      ensures fetched.Some? ==> subs == Save(Marked(old(subs)), fetched.value)
    {
      if fetched.Some? {
        InvalidateLogPages();
        SaveLogPages(fetched.value);
      }
    }
  }
}
