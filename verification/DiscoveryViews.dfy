/** What a host is shown, said of the lists in memory alone: which pages, in which order, how
    often, and through which groups. */
module DiscoveryViews {
  import opened DemTypes
  import opened Discovery

  /** The place of a page: target, subsystem and page. */
  type Place = (nat, nat, nat)

  predicate InMemory(m: Memory, p: Place) {
    p.0 < |m.targets| && p.1 < |m.targets[p.0].subsystems| && p.2 < |m.targets[p.0].subsystems[p.1].logpages|
  }

  function PageOf(m: Memory, p: Place): LogPage
    requires InMemory(m, p)
  {
    m.targets[p.0].subsystems[p.1].logpages[p.2]
  }

  /** What the fabric goes by: the NQN of the host among the allowed hosts and the group links. */
  ghost predicate AllowedByNqn(s: Subsystem, nqn: string) {
    s.access != 0 || exists h <- s.hosts :: h.nqn == nqn
  }

  ghost predicate ReachedByNqn(m: Memory, t: nat, nqn: string)
    requires MemoryOk(m) && t < |m.targets|
  {
    !m.targets[t].groupMember ||
    exists k, j ::
      0 <= k < |m.groupHosts| && m.groupHosts[k].nqn == nqn &&
      0 <= j < |m.groupTargets[m.groupHosts[k].group]| && m.groupTargets[m.groupHosts[k].group][j] == t
  }

  /** What REST goes by: the alias. */
  ghost predicate AllowedByAlias(s: Subsystem, alias: string) {
    s.access != 0 || exists h <- s.hosts :: h.alias == alias
  }

  ghost predicate ReachedByAlias(m: Memory, t: nat, alias: string)
    requires MemoryOk(m) && t < |m.targets|
  {
    !m.targets[t].groupMember ||
    exists k, j ::
      0 <= k < |m.groupHosts| && m.groupHosts[k].alias == alias &&
      0 <= j < |m.groupTargets[m.groupHosts[k].group]| && m.groupTargets[m.groupHosts[k].group][j] == t
  }

  lemma SeesExactly(s: Subsystem, name: string)
    ensures Sees(s, ByNqn(name)) <==> AllowedByNqn(s, name)
    ensures Sees(s, ByAlias(name)) <==> AllowedByAlias(s, name)
  {
    if h :| h in s.hosts && h.nqn == name {
      var k :| 0 <= k < |s.hosts| && s.hosts[k] == h;
      assert IsHost(s.hosts[k], ByNqn(name));
    }
    if h :| h in s.hosts && h.alias == name {
      var k :| 0 <= k < |s.hosts| && s.hosts[k] == h;
      assert IsHost(s.hosts[k], ByAlias(name));
    }
  }

  /** The fabric shows a host an entry if and only if it is a valid page of a subsystem that is
      open or lists the host's NQN, on a target that is in no group or that a group of the
      host's links to. */
  lemma ShownByNqn(m: Memory, nqn: string, e: Entry)
    requires MemoryOk(m)
    ensures e in View(m, ByNqn(nqn)) <==>
      exists p: Place ::
        && InMemory(m, p) && PageOf(m, p) == LogPage(e, true)
        && AllowedByNqn(m.targets[p.0].subsystems[p.1], nqn) && ReachedByNqn(m, p.0, nqn)
  {
    ShownAt(m, ByNqn(nqn), e);
    forall p: Place | InMemory(m, p)
      ensures Shows(m, ByNqn(nqn), p, e) <==>
        PageOf(m, p) == LogPage(e, true) && AllowedByNqn(m.targets[p.0].subsystems[p.1], nqn) && ReachedByNqn(m, p.0, nqn)
    {
      SeesExactly(m.targets[p.0].subsystems[p.1], nqn);
      SharedExactly(m, p.0, nqn);
    }
  }

  /** REST does the same with the alias. */
  lemma ShownByAlias(m: Memory, alias: string, e: Entry)
    requires MemoryOk(m)
    ensures e in View(m, ByAlias(alias)) <==>
      exists p: Place ::
        && InMemory(m, p) && PageOf(m, p) == LogPage(e, true)
        && AllowedByAlias(m.targets[p.0].subsystems[p.1], alias) && ReachedByAlias(m, p.0, alias)
  {
    ShownAt(m, ByAlias(alias), e);
    forall p: Place | InMemory(m, p)
      ensures Shows(m, ByAlias(alias), p, e) <==>
        PageOf(m, p) == LogPage(e, true) && AllowedByAlias(m.targets[p.0].subsystems[p.1], alias) && ReachedByAlias(m, p.0, alias)
    {
      SeesExactly(m.targets[p.0].subsystems[p.1], alias);
      SharedExactly(m, p.0, alias);
    }
  }

  /** A host that no group links to is shown pages of targets outside all groups only. */
  lemma HostOfNoGroup(m: Memory, name: string, e: Entry)
    requires MemoryOk(m)
    ensures (forall h <- m.groupHosts :: h.nqn != name) && e in View(m, ByNqn(name)) ==>
      exists p: Place :: InMemory(m, p) && PageOf(m, p) == LogPage(e, true) && !m.targets[p.0].groupMember
    ensures (forall h <- m.groupHosts :: h.alias != name) && e in View(m, ByAlias(name)) ==>
      exists p: Place :: InMemory(m, p) && PageOf(m, p) == LogPage(e, true) && !m.targets[p.0].groupMember
  {
    ShownByNqn(m, name, e);
    ShownByAlias(m, name, e);
    assert forall k :: 0 <= k < |m.groupHosts| ==> m.groupHosts[k] in m.groupHosts;
  }

  // The order, and how often.

  predicate Before(a: Place, b: Place) {
    a.0 < b.0 || (a.0 == b.0 && (a.1 < b.1 || (a.1 == b.1 && a.2 < b.2)))
  }

  function PlacesOfPages(t: nat, s: nat, pages: seq<LogPage>): seq<Place> {
    if pages == [] then []
    else
      var p := |pages| - 1;
      PlacesOfPages(t, s, pages[..p]) + if pages[p].valid then [(t, s, p)] else []
  }

  function PlacesOfSubs(t: nat, subs: seq<Subsystem>, who: Who): seq<Place> {
    if subs == [] then []
    else
      var s := |subs| - 1;
      PlacesOfSubs(t, subs[..s], who) + if Sees(subs[s], who) then PlacesOfPages(t, s, subs[s].logpages) else []
  }

  function PlacesTo(m: Memory, who: Who, n: nat): seq<Place>
    requires MemoryOk(m) && n <= |m.targets|
  {
    if n == 0 then []
    else
      PlacesTo(m, who, n - 1) +
        if Reachable(m, n - 1, who) then PlacesOfSubs(n - 1, m.targets[n - 1].subsystems, who) else []
  }

  ghost predicate Sorted(places: seq<Place>) {
    forall i, j :: 0 <= i < j < |places| ==> Before(places[i], places[j])
  }

  lemma SortedAppend(a: seq<Place>, b: seq<Place>)
    requires Sorted(a) && Sorted(b) && forall x <- a, y <- b :: Before(x, y)
    ensures Sorted(a + b)
  {
    forall i, j | 0 <= i < j < |a + b|
      ensures Before((a + b)[i], (a + b)[j])
    {
      if i < |a| <= j {
        assert a[i] in a && b[j - |a|] in b;
      }
    }
  }

  lemma {:induction false} PagesInOrder(t: nat, s: nat, pages: seq<LogPage>)
    ensures var places := PlacesOfPages(t, s, pages);
      && Sorted(places) && |places| == |PagesView(pages)|
      && (forall i :: 0 <= i < |places| ==>
           places[i].0 == t && places[i].1 == s && places[i].2 < |pages| &&
           pages[places[i].2] == LogPage(PagesView(pages)[i], true))
      && (forall p: nat :: p < |pages| && pages[p].valid ==> (t, s, p) in places)
  {
    if pages != [] {
      var n := |pages| - 1;
      PagesInOrder(t, s, pages[..n]);
      var front := PlacesOfPages(t, s, pages[..n]);
      if pages[n].valid {
        SortedAppend(front, [(t, s, n)]);
      }
      assert forall p: nat :: p < n ==> pages[..n][p] == pages[p];
    }
  }

  lemma {:induction false} SubsInOrder(t: nat, subs: seq<Subsystem>, who: Who)
    ensures var places := PlacesOfSubs(t, subs, who);
      && Sorted(places) && |places| == |SubsView(subs, who)|
      && (forall i :: 0 <= i < |places| ==>
           places[i].0 == t && places[i].1 < |subs| && Sees(subs[places[i].1], who) &&
           places[i].2 < |subs[places[i].1].logpages| &&
           subs[places[i].1].logpages[places[i].2] == LogPage(SubsView(subs, who)[i], true))
      && (forall s: nat, p: nat :: s < |subs| && p < |subs[s].logpages| && Sees(subs[s], who) && subs[s].logpages[p].valid ==>
           (t, s, p) in places)
  {
    if subs != [] {
      var n := |subs| - 1;
      SubsInOrder(t, subs[..n], who);
      var front := PlacesOfSubs(t, subs[..n], who);
      assert forall s: nat :: s < n ==> subs[..n][s] == subs[s];
      if Sees(subs[n], who) {
        PagesInOrder(t, n, subs[n].logpages);
        SortedAppend(front, PlacesOfPages(t, n, subs[n].logpages));
      }
    }
  }

  /** A page that a host may see. */
  predicate MaySee(m: Memory, who: Who, p: Place)
    requires MemoryOk(m)
  {
    InMemory(m, p) && Reachable(m, p.0, who) && Sees(m.targets[p.0].subsystems[p.1], who) && PageOf(m, p).valid
  }

  predicate Shows(m: Memory, who: Who, p: Place, e: Entry)
    requires MemoryOk(m)
  {
    MaySee(m, who, p) && PageOf(m, p).e == e
  }

  /** The places of a view's entries: those of the first n targets, in order. */
  ghost predicate PlacesAre(m: Memory, who: Who, n: nat, places: seq<Place>, view: seq<Entry>)
    requires MemoryOk(m)
  {
    && Sorted(places) && |places| == |view|
    && (forall i :: 0 <= i < |places| ==> Shows(m, who, places[i], view[i]) && places[i].0 < n)
    && (forall p: Place :: MaySee(m, who, p) && p.0 < n ==> p in places)
  }

  lemma PlacesGrow(m: Memory, who: Who, n: nat, a: seq<Place>, va: seq<Entry>, b: seq<Place>, vb: seq<Entry>)
    requires MemoryOk(m) && PlacesAre(m, who, n, a, va) && Sorted(b) && |b| == |vb|
    requires forall i :: 0 <= i < |b| ==> Shows(m, who, b[i], vb[i]) && b[i].0 == n
    requires forall p: Place :: MaySee(m, who, p) && p.0 == n ==> p in b
    ensures PlacesAre(m, who, n + 1, a + b, va + vb)
  {
    SortedAppend(a, b);
  }

  lemma PlacesOfTarget(m: Memory, who: Who, t: nat)
    requires MemoryOk(m) && t < |m.targets| && Reachable(m, t, who)
    ensures var places, view := PlacesOfSubs(t, m.targets[t].subsystems, who), SubsView(m.targets[t].subsystems, who);
      && Sorted(places) && |places| == |view|
      && (forall i :: 0 <= i < |places| ==> Shows(m, who, places[i], view[i]) && places[i].0 == t)
      && (forall p: Place :: MaySee(m, who, p) && p.0 == t ==> p in places)
  {
    SubsInOrder(t, m.targets[t].subsystems, who);
  }

  lemma PlacesSkip(m: Memory, who: Who, n: nat, a: seq<Place>, va: seq<Entry>)
    requires MemoryOk(m) && PlacesAre(m, who, n, a, va) && n < |m.targets| && !Reachable(m, n, who)
    ensures PlacesAre(m, who, n + 1, a, va)
  {
  }

  lemma {:induction false} TargetsInOrder(m: Memory, who: Who, n: nat)
    requires MemoryOk(m) && n <= |m.targets|
    ensures PlacesAre(m, who, n, PlacesTo(m, who, n), ViewTo(m, who, n))
  {
    if n > 0 {
      var t := n - 1;
      TargetsInOrder(m, who, t);
      var a, va := PlacesTo(m, who, t), ViewTo(m, who, t);
      if Reachable(m, t, who) {
        var b, vb := PlacesOfSubs(t, m.targets[t].subsystems, who), SubsView(m.targets[t].subsystems, who);
        PlacesOfTarget(m, who, t);
        PlacesGrow(m, who, t, a, va, b, vb);
        assert PlacesTo(m, who, n) == a + b && ViewTo(m, who, n) == va + vb;
      } else {
        PlacesSkip(m, who, t, a, va);
        assert PlacesTo(m, who, n) == a && ViewTo(m, who, n) == va;
      }
    }
  }

  lemma PlacedIn(m: Memory, who: Who, n: nat, places: seq<Place>, view: seq<Entry>, e: Entry)
    requires MemoryOk(m) && PlacesAre(m, who, n, places, view)
    ensures e in view <==> exists p: Place :: Shows(m, who, p, e) && p.0 < n
  {
    if e in view {
      var i :| 0 <= i < |view| && view[i] == e;
      assert Shows(m, who, places[i], e);
    }
    if p: Place :| Shows(m, who, p, e) && p.0 < n {
      var i :| 0 <= i < |places| && places[i] == p;
      assert Shows(m, who, places[i], view[i]);
    }
  }

  lemma ShownAt(m: Memory, who: Who, e: Entry)
    requires MemoryOk(m)
    ensures e in View(m, who) <==> exists p: Place :: Shows(m, who, p, e)
  {
    TargetsInOrder(m, who, |m.targets|);
    PlacedIn(m, who, |m.targets|, PlacesTo(m, who, |m.targets|), View(m, who), e);
  }

  /** The entries are shown in the order of targets, subsystems and pages, and each page that a
      host may see exactly once. */
  lemma ShownInOrder(m: Memory, nqn: string) returns (places: seq<Place>)
    requires MemoryOk(m)
    ensures Sorted(places) && |places| == |View(m, ByNqn(nqn))|
    ensures forall i :: 0 <= i < |places| ==> InMemory(m, places[i]) && PageOf(m, places[i]) == LogPage(View(m, ByNqn(nqn))[i], true)
    ensures forall p: Place :: InMemory(m, p) ==>
      (p in places <==> PageOf(m, p).valid && AllowedByNqn(m.targets[p.0].subsystems[p.1], nqn) && ReachedByNqn(m, p.0, nqn))
  {
    var n := |m.targets|;
    places := PlacesTo(m, ByNqn(nqn), n);
    TargetsInOrder(m, ByNqn(nqn), n);
    forall p: Place | InMemory(m, p)
      ensures p in places <==> PageOf(m, p).valid && AllowedByNqn(m.targets[p.0].subsystems[p.1], nqn) && ReachedByNqn(m, p.0, nqn)
    {
      SeesExactly(m.targets[p.0].subsystems[p.1], nqn);
      SharedExactly(m, p.0, nqn);
    }
  }

  // The lists of subsystems.

  lemma {:induction false} SeenSubsHas(alias: string, subs: seq<Subsystem>, who: Who, open: bool, x: (string, string))
    ensures x in SeenSubs(alias, subs, who, open) <==>
      exists s :: 0 <= s < |subs| && x == (alias, subs[s].nqn) && Sees(subs[s], who) && (open <==> subs[s].access != 0)
    decreases |subs|
  {
    if subs != [] {
      var n := |subs| - 1;
      SeenSubsHas(alias, subs[..n], who, open, x);
      assert forall s :: 0 <= s < n ==> subs[..n][s] == subs[s];
    }
  }

  lemma {:induction false} SeenToHas(m: Memory, who: Who, open: bool, n: nat, x: (string, string))
    requires MemoryOk(m) && n <= |m.targets|
    ensures x in SeenTo(m, who, open, n) <==>
      exists t, s :: 0 <= t < n && 0 <= s < |m.targets[t].subsystems| &&
        x == (m.targets[t].alias, m.targets[t].subsystems[s].nqn) && Reachable(m, t, who) &&
        Sees(m.targets[t].subsystems[s], who) && (open <==> m.targets[t].subsystems[s].access != 0)
  {
    if n > 0 {
      SeenToHas(m, who, open, n - 1, x);
      SeenSubsHas(m.targets[n - 1].alias, m.targets[n - 1].subsystems, who, open, x);
    }
  }

  /** Of the open or of the restricted subsystems, a host sees exactly those that it may use, on
      targets that it reaches. */
  lemma SeenExactly(m: Memory, nqn: string, open: bool, x: (string, string))
    requires MemoryOk(m)
    ensures x in SeenTo(m, ByNqn(nqn), open, |m.targets|) <==>
      exists t, s :: 0 <= t < |m.targets| && 0 <= s < |m.targets[t].subsystems| &&
        x == (m.targets[t].alias, m.targets[t].subsystems[s].nqn) && ReachedByNqn(m, t, nqn) &&
        (if open then m.targets[t].subsystems[s].access != 0
         else m.targets[t].subsystems[s].access == 0 && exists h <- m.targets[t].subsystems[s].hosts :: h.nqn == nqn)
  {
    SeenToHas(m, ByNqn(nqn), open, |m.targets|, x);
    forall t, s | 0 <= t < |m.targets| && 0 <= s < |m.targets[t].subsystems|
      ensures Sees(m.targets[t].subsystems[s], ByNqn(nqn)) == AllowedByNqn(m.targets[t].subsystems[s], nqn)
      ensures Reachable(m, t, ByNqn(nqn)) == ReachedByNqn(m, t, nqn)
    {
      SeesExactly(m.targets[t].subsystems[s], nqn);
      SharedExactly(m, t, nqn);
    }
  }
}
