/** The auto-connect daemon: what an update leaves in its list, which pages it holds to be
    connected, and the passes that connect the others one at a time
    (src/auto_connect/daemon.c). */
module AutoConnect {
  import opened CTypes
  import opened DemTypes
  import opened LogStore
  import opened Monitor
  import opened Options

  function TrtypeStr(trtype: U8): string {
    match trtype
    case 1 => "rdma"
    case 2 => "fc"
    case 3 => "tcp"
    case 254 => "loop"
    case _ => "unrecognized"
  }

  /** A controller that the kernel shows: the subsystem it is connected to, and how. */
  datatype Controller = Controller(nqn: string, trtype: string, traddr: string, trsvcid: string)

  /** The address family is not compared. */
  predicate Matches(c: Controller, e: Entry) {
    TrtypeStr(e.trtype) == c.trtype && e.traddr == c.traddr && e.trsvcid == c.trsvcid
  }

  function FirstMatch(pages: seq<Page>, c: Controller): (j: nat)
    ensures j <= |pages| && (forall k :: 0 <= k < j ==> !Matches(c, pages[k].e))
    ensures j < |pages| ==> Matches(c, pages[j].e)
  {
    if pages == [] || Matches(c, pages[0].e) then 0 else 1 + FirstMatch(pages[1..], c)
  }

  /** A list of pages and the keys whose pages are flagged as connected. */
  datatype Marks = Marks(pages: seq<Page>, connected: set<Key>)

  /** What one controller of the subsystem does to its pages. */
  function MarkOne(m: Marks, c: Controller): Marks {
    var j := FirstMatch(m.pages, c);
    if j == |m.pages| then m
    else if m.pages[j].status.Valid? then m.(connected := m.connected + {KeyOf(m.pages[j].e)})
    else if m.pages[j].status.Deleted? then m.(pages := m.pages[..j] + m.pages[j + 1..])
    else m
  }

  function MarkSub(s: Sub, controllers: seq<Controller>): Marks {
    if controllers == [] then Marks(s.pages, {})
    else
      var m, c := MarkSub(s, controllers[..|controllers| - 1]), controllers[|controllers| - 1];
      if c.nqn == s.nqn then MarkOne(m, c) else m
  }

  function MarkedStore(store: Store, controllers: seq<Controller>): Store {
    if store == [] then []
    else [Sub(store[0].nqn, MarkSub(store[0], controllers).pages)] + MarkedStore(store[1..], controllers)
  }

  function Flags(store: Store, controllers: seq<Controller>): set<LogKey> {
    if store == [] then {}
    else SubFlags(store[0].nqn, MarkSub(store[0], controllers).connected) + Flags(store[1..], controllers)
  }

  function SubFlags(nqn: string, connected: set<Key>): set<LogKey> {
    set k | k in connected :: (nqn, k)
  }

  lemma {:induction false} MarkedAppend(store: Store, s: Sub, controllers: seq<Controller>)
    ensures MarkedStore(store + [s], controllers) ==
      MarkedStore(store, controllers) + [Sub(s.nqn, MarkSub(s, controllers).pages)]
    ensures Flags(store + [s], controllers) ==
      Flags(store, controllers) + SubFlags(s.nqn, MarkSub(s, controllers).connected)
  {
    if store == [] {
      assert store + [s] == [s];
    } else {
      assert (store + [s])[1..] == store[1..] + [s];
      MarkedAppend(store[1..], s, controllers);
    }
  }

  lemma Advance<T>(done: seq<T>, all: seq<T>, i: nat, now: T)
    requires |done| == i < |all|
    ensures (done + all[i..])[i] == all[i] && all[..i] + [all[i]] == all[..i + 1]
    ensures (done + all[i..])[i := now] == (done + [now]) + all[i + 1..]
  {
  }

  // The list after an update.

  lemma {:induction false} KeptSplit(a: seq<Page>, b: seq<Page>)
    ensures KeptPages(a + b) == KeptPages(a) + KeptPages(b)
  {
    if a == [] {
      assert a + b == b;
    } else {
      assert (a + b)[1..] == a[1..] + b;
      KeptSplit(a[1..], b);
    }
  }

  lemma MarkOneKeeps(m: Marks, c: Controller)
    ensures KeptPages(MarkOne(m, c).pages) == KeptPages(m.pages)
  {
    var j := FirstMatch(m.pages, c);
    if j < |m.pages| && m.pages[j].status.Deleted? {
      KeptSplit(m.pages[..j], m.pages[j..]);
      KeptSplit(m.pages[..j], m.pages[j + 1..]);
      assert m.pages == m.pages[..j] + m.pages[j..];
      assert m.pages[j..][1..] == m.pages[j + 1..];
      assert KeptPages(m.pages[j..]) == KeptPages(m.pages[j + 1..]);
    }
  }

  lemma {:induction false} MarkSubKeeps(s: Sub, controllers: seq<Controller>)
    ensures KeptPages(MarkSub(s, controllers).pages) == KeptPages(s.pages)
  {
    if controllers != [] {
      var n := |controllers| - 1;
      MarkSubKeeps(s, controllers[..n]);
      MarkOneKeeps(MarkSub(s, controllers[..n]), controllers[n]);
    }
  }

  /** Whatever the kernel is connected to, the list after the sweep is that of the monitor:
      the deleted pages are gone, with the subsystems that have no others. */
  lemma {:induction false} SweepIgnoresMarks(store: Store, controllers: seq<Controller>)
    ensures Kept(MarkedStore(store, controllers)) == Kept(store)
  {
    if store != [] {
      SweepIgnoresMarks(store[1..], controllers);
      MarkSubKeeps(store[0], controllers);
      assert MarkedStore(store, controllers)[1..] == MarkedStore(store[1..], controllers);
    }
  }

  // The flags.

  /** A controller of the subsystem connects a page: it is the first one that matches, and it
      was stored before this update. */
  predicate Connects(nqn: string, pages: seq<Page>, c: Controller, key: Key) {
    var j := FirstMatch(pages, c);
    c.nqn == nqn && j < |pages| && pages[j].status.Valid? && KeyOf(pages[j].e) == key
  }

  /** The controller would take no page off the list. */
  predicate Spares(nqn: string, pages: seq<Page>, c: Controller) {
    c.nqn == nqn ==> forall p <- pages :: p.status.Deleted? ==> !Matches(c, p.e)
  }

  /** With no deleted page that a controller matches, the flags are exactly the pages that a
      controller connects. */
  lemma {:induction false} FlagsWithoutDeleted(s: Sub, controllers: seq<Controller>, key: Key)
    requires forall c <- controllers :: Spares(s.nqn, s.pages, c)
    ensures MarkSub(s, controllers).pages == s.pages
    ensures key in MarkSub(s, controllers).connected <==>
      exists c <- controllers :: Connects(s.nqn, s.pages, c, key)
  {
    if controllers != [] {
      var n := |controllers| - 1;
      var c := controllers[n];
      assert controllers == controllers[..n] + [c];
      FlagsWithoutDeleted(s, controllers[..n], key);
      if c.nqn == s.nqn {
        MarkSpared(MarkSub(s, controllers[..n]), s.nqn, c, key);
      }
    }
  }

  lemma MarkSpared(m: Marks, nqn: string, c: Controller, key: Key)
    requires Spares(nqn, m.pages, c) && c.nqn == nqn
    ensures MarkOne(m, c).pages == m.pages
    ensures key in MarkOne(m, c).connected <==> key in m.connected || Connects(nqn, m.pages, c, key)
  {
    var j := FirstMatch(m.pages, c);
    assert j < |m.pages| ==> m.pages[j] in m.pages;
  }

  /** A page that a controller cannot tell from one with this key. */
  predicate Like(e: Entry, key: Key) {
    TrtypeStr(e.trtype) == TrtypeStr(key.trtype) && e.traddr == key.traddr && e.trsvcid == key.trsvcid
  }

  function PagesLike(pages: seq<Page>, key: Key): seq<Page> {
    if pages == [] then []
    else (if Like(pages[0].e, key) then [pages[0]] else []) + PagesLike(pages[1..], key)
  }

  /** A controller of the subsystem with the address of this key. */
  predicate Hits(nqn: string, c: Controller, key: Key) {
    c.nqn == nqn && c.trtype == TrtypeStr(key.trtype) && c.traddr == key.traddr && c.trsvcid == key.trsvcid
  }

  function Times(nqn: string, controllers: seq<Controller>, key: Key): nat {
    if controllers == [] then 0
    else
      var n := |controllers| - 1;
      Times(nqn, controllers[..n], key) + if Hits(nqn, controllers[n], key) then 1 else 0
  }

  /** Each hit takes one deleted page off the front. */
  function Taken(pages: seq<Page>, times: nat): seq<Page> {
    if times == 0 || pages == [] || !pages[0].status.Deleted? then pages else Taken(pages[1..], times - 1)
  }

  predicate InFront(pages: seq<Page>, key: Key) {
    pages != [] && pages[0].status.Valid? && KeyOf(pages[0].e) == key
  }

  lemma {:induction false} LikeSplit(a: seq<Page>, b: seq<Page>, key: Key)
    ensures PagesLike(a + b, key) == PagesLike(a, key) + PagesLike(b, key)
  {
    if a == [] {
      assert a + b == b;
    } else {
      assert (a + b)[1..] == a[1..] + b;
      LikeSplit(a[1..], b, key);
    }
  }

  lemma {:induction false} NoneLike(pages: seq<Page>, key: Key)
    requires forall k :: 0 <= k < |pages| ==> !Like(pages[k].e, key)
    ensures PagesLike(pages, key) == []
  {
    if pages != [] {
      NoneLike(pages[1..], key);
    }
  }

  lemma {:induction false} TakenMore(pages: seq<Page>, times: nat)
    ensures Taken(pages, times + 1) == Taken(Taken(pages, times), 1)
    decreases times
  {
    if times > 0 && pages != [] && pages[0].status.Deleted? {
      TakenMore(pages[1..], times - 1);
    }
  }

  lemma Unfolded(pages: seq<Page>, key: Key, j: nat)
    requires j < |pages|
    ensures PagesLike(pages, key) == PagesLike(pages[..j], key) + PagesLike(pages[j..], key)
    ensures PagesLike(pages[j..], key) ==
      (if Like(pages[j].e, key) then [pages[j]] else []) + PagesLike(pages[j + 1..], key)
    ensures PagesLike(pages[..j] + pages[j + 1..], key) == PagesLike(pages[..j], key) + PagesLike(pages[j + 1..], key)
  {
    assert pages == pages[..j] + pages[j..];
    LikeSplit(pages[..j], pages[j..], key);
    LikeSplit(pages[..j], pages[j + 1..], key);
    assert pages[j..][1..] == pages[j + 1..];
  }

  /** The first page that a controller matches stands in front of the pages like it. */
  lemma FirstLike(pages: seq<Page>, c: Controller, key: Key)
    requires Hits(c.nqn, c, key)
    ensures var j := FirstMatch(pages, c);
      && (j == |pages| ==> PagesLike(pages, key) == [])
      && (j < |pages| ==>
           PagesLike(pages, key) == [pages[j]] + PagesLike(pages[j + 1..], key) &&
           PagesLike(pages[..j] + pages[j + 1..], key) == PagesLike(pages[j + 1..], key))
  {
    var j := FirstMatch(pages, c);
    NoneLike(pages[..j], key);
    if j < |pages| {
      Unfolded(pages, key, j);
    } else {
      assert pages[..j] == pages;
    }
  }

  lemma MarkHit(m: Marks, c: Controller, key: Key)
    requires Hits(c.nqn, c, key)
    ensures PagesLike(MarkOne(m, c).pages, key) == Taken(PagesLike(m.pages, key), 1)
    ensures key in MarkOne(m, c).connected <==>
      key in m.connected || InFront(PagesLike(m.pages, key), key)
  {
    FirstLike(m.pages, c, key);
  }

  lemma MarkMiss(m: Marks, c: Controller, key: Key)
    requires !Hits(c.nqn, c, key)
    ensures PagesLike(MarkOne(m, c).pages, key) == PagesLike(m.pages, key)
    ensures key in MarkOne(m, c).connected <==> key in m.connected
  {
    var j := FirstMatch(m.pages, c);
    if j < |m.pages| {
      assert !Like(m.pages[j].e, key);
      Unfolded(m.pages, key, j);
    }
  }

  /** Whatever the list: of the pages that look like one key to a controller, each hit takes a
      deleted one off the front; and a key is flagged if and only if there is a hit, and when
      all but one have been, the page in front is a valid one with that key. */
  lemma {:induction false} FlagsExactly(s: Sub, controllers: seq<Controller>, key: Key)
    ensures var m, n, pages := MarkSub(s, controllers), Times(s.nqn, controllers, key), PagesLike(s.pages, key);
      && PagesLike(m.pages, key) == Taken(pages, n)
      && (key in m.connected <==> n > 0 && InFront(Taken(pages, n - 1), key))
  {
    if controllers != [] {
      var last := |controllers| - 1;
      var m, c := MarkSub(s, controllers[..last]), controllers[last];
      var n, pages := Times(s.nqn, controllers[..last], key), PagesLike(s.pages, key);
      FlagsExactly(s, controllers[..last], key);
      if c.nqn == s.nqn {
        if Hits(s.nqn, c, key) {
          MarkHit(m, c, key);
          TakenMore(pages, n);
          FrontStays(pages, n, key);
        } else {
          MarkMiss(m, c, key);
        }
      }
    }
  }

  /** A valid page is not taken off. */
  lemma FrontStays(pages: seq<Page>, n: nat, key: Key)
    ensures n > 0 && InFront(Taken(pages, n - 1), key) ==> InFront(Taken(pages, n), key)
  {
    if n > 0 {
      TakenMore(pages, n - 1);
    }
  }

  /** A page that is new is not flagged, even when the kernel is already connected to it. */
  lemma NewPageNotFlagged(e: Entry)
    ensures var c := Controller(e.subnqn, TrtypeStr(e.trtype), e.traddr, e.trsvcid);
      MarkSub(Sub(e.subnqn, [Page(e, New)]), [c]) == Marks([Page(e, New)], {})
  {
    var c := Controller(e.subnqn, TrtypeStr(e.trtype), e.traddr, e.trsvcid);
    var s := Sub(e.subnqn, [Page(e, New)]);
    assert [c][..0] == [];
    assert MarkSub(s, []) == Marks(s.pages, {});
  }

  // Connecting.

  /** The unflagged pages of the list, in order. */
  function PendingPages(nqn: string, pages: seq<Page>, flags: set<LogKey>): seq<LogKey> {
    if pages == [] then []
    else
      var k := (nqn, KeyOf(pages[0].e));
      (if k in flags then [] else [k]) + PendingPages(nqn, pages[1..], flags)
  }

  function Pending(store: Store, flags: set<LogKey>): seq<LogKey> {
    if store == [] then []
    else PendingPages(store[0].nqn, store[0].pages, flags) + Pending(store[1..], flags)
  }

  lemma {:induction false} PendingPagesAbsent(nqn: string, pages: seq<Page>, flags: set<LogKey>, k: LogKey)
    requires k.0 != nqn || forall j :: 0 <= j < |pages| ==> KeyOf(pages[j].e) != k.1
    ensures PendingPages(nqn, pages, flags + {k}) == PendingPages(nqn, pages, flags)
    decreases |pages|
  {
    if pages != [] {
      PendingPagesAbsent(nqn, pages[1..], flags, k);
    }
  }

  lemma {:induction false} PendingAbsent(store: Store, flags: set<LogKey>, k: LogKey)
    requires forall i :: 0 <= i < |store| ==> store[i].nqn != k.0
    ensures Pending(store, flags + {k}) == Pending(store, flags)
  {
    if store != [] {
      PendingPagesAbsent(store[0].nqn, store[0].pages, flags, k);
      PendingAbsent(store[1..], flags, k);
    }
  }

  lemma {:induction false} PendingPagesNext(nqn: string, pages: seq<Page>, flags: set<LogKey>)
    requires PagesOk(nqn, pages) && PendingPages(nqn, pages, flags) != []
    ensures var p := PendingPages(nqn, pages, flags);
      PendingPages(nqn, pages, flags + {p[0]}) == p[1..] && p[0].0 == nqn
    decreases |pages|
  {
    var k, p := (nqn, KeyOf(pages[0].e)), PendingPages(nqn, pages, flags);
    if k in flags {
      assert p == PendingPages(nqn, pages[1..], flags);
      PendingPagesNext(nqn, pages[1..], flags);
    } else {
      assert p[0] == k && p[1..] == PendingPages(nqn, pages[1..], flags);
      PendingPagesAbsent(nqn, pages[1..], flags, k);
    }
  }

  lemma OthersNamed(store: Store)
    requires WellFormed(store) && store != []
    ensures forall i :: 0 <= i < |store[1..]| ==> store[1..][i].nqn != store[0].nqn
  {
  }

  lemma PendingNextHere(store: Store, flags: set<LogKey>)
    requires store != [] && PagesOk(store[0].nqn, store[0].pages)
    requires forall i :: 0 <= i < |store[1..]| ==> store[1..][i].nqn != store[0].nqn
    requires PendingPages(store[0].nqn, store[0].pages, flags) != []
    ensures var first := PendingPages(store[0].nqn, store[0].pages, flags);
      Pending(store, flags + {first[0]}) == first[1..] + Pending(store[1..], flags)
  {
    var s := store[0];
    var k := PendingPages(s.nqn, s.pages, flags)[0];
    PendingPagesNext(s.nqn, s.pages, flags);
    PendingAbsent(store[1..], flags, k);
  }

  /** Flagging the first pending page leaves exactly the others pending, in their order. */
  lemma {:induction false} PendingNext(store: Store, flags: set<LogKey>)
    requires WellFormed(store) && Pending(store, flags) != []
    ensures Pending(store, flags + {Pending(store, flags)[0]}) == Pending(store, flags)[1..]
  {
    var s := store[0];
    var first, rest := PendingPages(s.nqn, s.pages, flags), Pending(store[1..], flags);
    if first != [] {
      OthersNamed(store);
      PendingNextHere(store, flags);
      assert (first + rest)[1..] == first[1..] + rest;
    } else {
      var k := rest[0];
      assert Pending(store, flags) == rest;
      StoreRest(store, k);
      PendingNext(store[1..], flags);
      PendingSomewhere(store[1..], flags);
      PendingPagesAbsent(s.nqn, s.pages, flags, k);
    }
  }

  lemma {:induction false} PendingSomewhere(store: Store, flags: set<LogKey>)
    requires WellFormed(store) && Pending(store, flags) != []
    ensures exists i :: 0 <= i < |store| && store[i].nqn == Pending(store, flags)[0].0
  {
    var s := store[0];
    var first := PendingPages(s.nqn, s.pages, flags);
    if first != [] {
      PendingPagesNext(s.nqn, s.pages, flags);
      assert store[0].nqn == Pending(store, flags)[0].0;
    } else {
      assert Pending(store, flags) == Pending(store[1..], flags);
      StoreRest(store, Pending(store, flags)[0]);
      PendingSomewhere(store[1..], flags);
      var i :| 0 <= i < |store[1..]| && store[1..][i].nqn == Pending(store, flags)[0].0;
      assert store[i + 1].nqn == Pending(store, flags)[0].0;
    }
  }

  /** One pass: the first unflagged page is connected, when the fabrics device opens. */
  function ConnectOne(store: Store, flags: set<LogKey>, opens: bool): (set<LogKey>, seq<LogKey>) {
    var p := Pending(store, flags);
    if p == [] || !opens then (flags, []) else (flags + {p[0]}, [p[0]])
  }

  function Passes(store: Store, flags: set<LogKey>, opens: seq<bool>): (set<LogKey>, seq<LogKey>) {
    if opens == [] then (flags, [])
    else
      var (f, made) := Passes(store, flags, opens[..|opens| - 1]);
      var (g, one) := ConnectOne(store, f, opens[|opens| - 1]);
      (g, made + one)
  }

  function Count(opens: seq<bool>): nat {
    if opens == [] then 0 else Count(opens[..|opens| - 1]) + if opens[|opens| - 1] then 1 else 0
  }

  /** After any number of passes, exactly the first pending pages are connected, in list order
      and each once: as many as the device opened, or all of them. */
  lemma {:induction false} ConnectedInOrder(store: Store, flags: set<LogKey>, opens: seq<bool>)
    requires WellFormed(store)
    ensures var p := Pending(store, flags);
      var n := if Count(opens) <= |p| then Count(opens) else |p|;
      var (f, made) := Passes(store, flags, opens);
      made == p[..n] && Pending(store, f) == p[n..]
  {
    if opens != [] {
      var p, last := Pending(store, flags), opens[|opens| - 1];
      var before := opens[..|opens| - 1];
      ConnectedInOrder(store, flags, before);
      var (f, made) := Passes(store, flags, before);
      var n := if Count(before) <= |p| then Count(before) else |p|;
      if last && n < |p| {
        PendingNext(store, f);
        assert p[n..][0] == p[n] && p[n..][1..] == p[n + 1..];
        assert p[..n] + [p[n]] == p[..n + 1];
      } else {
        assert made + [] == made;
      }
    }
  }

  // The daemon's list.

  /** The pages of one subsystem against the controllers of the kernel, in directory order. */
  method MarkConnected(s: Sub, controllers: seq<Controller>) returns (pages: seq<Page>, connected: set<Key>)
    ensures Marks(pages, connected) == MarkSub(s, controllers)
  {
    pages, connected := s.pages, {};
    for n := 0 to |controllers|
      invariant Marks(pages, connected) == MarkSub(s, controllers[..n])
    {
      assert controllers[..n + 1][..n] == controllers[..n];
      var c := controllers[n];
      if c.nqn != s.nqn {
        continue;
      }
      var j := 0;
      while j < |pages| && !Matches(c, pages[j].e)
        invariant j <= |pages| && forall k :: 0 <= k < j ==> !Matches(c, pages[k].e)
      {
        j := j + 1;
      }
      FirstMatchIs(pages, c, j);
      if j < |pages| {
        if pages[j].status.Valid? {
          connected := connected + {KeyOf(pages[j].e)};
        } else if pages[j].status.Deleted? {
          pages := pages[..j] + pages[j + 1..];
        }
      }
    }
    assert controllers[..|controllers|] == controllers;
  }

  lemma FirstMatchIs(pages: seq<Page>, c: Controller, j: nat)
    requires j <= |pages| && (forall k :: 0 <= k < j ==> !Matches(c, pages[k].e))
    requires j < |pages| ==> Matches(c, pages[j].e)
    ensures FirstMatch(pages, c) == j
  {
  }

  /** One pass over the list. */
  method ConnectOneSubsystem(store: Store, flags: set<LogKey>, opens: bool) returns (now: set<LogKey>, made: seq<LogKey>)
    ensures (now, made) == ConnectOne(store, flags, opens)
  {
    now, made := flags, [];
    ghost var all := Pending(store, flags);
    for i := 0 to |store|
      invariant opens ==> all == Pending(store[i..], flags)
    {
      var s := store[i];
      assert store[i..][0] == s && store[i..][1..] == store[i + 1..];
      for j := 0 to |s.pages|
        invariant opens ==> all == PendingPages(s.nqn, s.pages[j..], flags) + Pending(store[i + 1..], flags)
      {
        assert s.pages[j..][0] == s.pages[j] && s.pages[j..][1..] == s.pages[j + 1..];
        var k := (s.nqn, KeyOf(s.pages[j].e));
        if k in flags {
          continue;
        }
        if !opens {
          continue;
        }
        assert all[0] == k;
        return flags + {k}, [k];
      }
    }
  }

  class Daemon {
    const target: LogPages
    var flags: set<LogKey>

    constructor (t: LogPages)
      ensures target == t && flags == {}
    {
      target, flags := t, {};
    }

    method MarkConnectedSubsystems(controllers: seq<Controller>)
      modifies this, target
      ensures target.subs == MarkedStore(old(target.subs), controllers)
      ensures flags == Flags(old(target.subs), controllers)
    {
      flags := {};
      ghost var all := target.subs;
      for i := 0 to |target.subs|
        invariant |all| == |target.subs| && |MarkedStore(all[..i], controllers)| == i
        invariant target.subs == MarkedStore(all[..i], controllers) + all[i..]
        invariant flags == Flags(all[..i], controllers)
      {
        var s := target.subs[i];
        Advance(MarkedStore(all[..i], controllers), all, i, Sub(s.nqn, MarkSub(s, controllers).pages));
        MarkedAppend(all[..i], s, controllers);
        var pages, connected := MarkConnected(s, controllers);
        target.subs := target.subs[i := Sub(s.nqn, pages)];
        flags := flags + SubFlags(s.nqn, connected);
      }
      assert all[..|all|] == all;
    }

    method CleanupLogPages()
      modifies target
      ensures target.subs == Kept(old(target.subs))
    {
      ghost var rest := target.subs;
      var i := 0;
      while i < |target.subs|
        invariant i <= |target.subs| && target.subs[i..] == rest
        invariant target.subs[..i] + Kept(rest) == Kept(old(target.subs))
        decreases |rest|
      {
        var s := target.subs[i];
        assert s == rest[0];
        var left := SweepPages(s.pages);
        StoreStep(target.subs, i, rest, Sub(s.nqn, left));
        if left == [] {
          target.subs := target.subs[..i] + target.subs[i + 1..];
        } else {
          target.subs := target.subs[i := Sub(s.nqn, left)];
          i := i + 1;
        }
        rest := rest[1..];
      }
      assert target.subs[..i] == target.subs && rest == [];
    }

    /** An update leaves the pages of the log, whatever the kernel is connected to. */
    method ProcessUpdates(fetched: Option<seq<Entry>>, controllers: seq<Controller>)
      modifies this, target
      ensures target.subs == Kept(if fetched.Some? then AfterFetch(old(target.subs), fetched.value) else old(target.subs))
      ensures flags == Flags(if fetched.Some? then AfterFetch(old(target.subs), fetched.value) else old(target.subs), controllers)
    {
      target.FetchLogPages(fetched);
      SweepIgnoresMarks(target.subs, controllers);
      MarkConnectedSubsystems(controllers);
      CleanupLogPages();
    }
  }
}
