/** Deleting a host as a request (del_host of src/dem/config.c): after the document's own
    deletion, the host is taken from the restricted subsystems of the targets in memory, and
    from their entries in the document. */
module DeleteHost {
  import opened CTypes
  import opened DemTypes
  import opened Options
  import opened Document
  import opened DocumentRefs
  import DocumentStore

  function Aliases(hosts: seq<Host>): (r: seq<string>)
    ensures |r| == |hosts|
  {
    seq(|hosts|, i requires 0 <= i < |hosts| => hosts[i].alias)
  }

  /** The targets in memory are those of the document. */
  ghost predicate Mirrors(d: Doc, mem: seq<Target>) {
    && |mem| == |d.targets|
    && (forall i :: 0 <= i < |mem| ==> mem[i].alias == d.targets[i].alias && MirrorsSubs(d.targets[i], mem[i].subsystems))
  }

  ghost predicate MirrorsSubs(t: TargetObj, subs: seq<Subsystem>) {
    && |subs| == |t.subsystems|
    && (forall j :: 0 <= j < |subs| ==> subs[j].nqn == t.subsystems[j].nqn && Aliases(subs[j].hosts) == t.subsystems[j].hosts)
  }

  /** Whether the pass over the memory takes the host from this subsystem. */
  predicate Takes(s: Subsystem, host: string) {
    IsRestricted(s) && host in Aliases(s.hosts)
  }

  function PurgeSubs(d: Doc, alias: string, subs: seq<Subsystem>, host: string): Doc
    decreases |subs|
  {
    if subs == [] then d
    else
      var e := PurgeSubs(d, alias, subs[..|subs| - 1], host);
      var s := subs[|subs| - 1];
      if Takes(s, host) then StepDelAcl(e, alias, s.nqn, host).0 else e
  }

  function Purge(d: Doc, mem: seq<Target>, host: string): Doc
    decreases |mem|
  {
    if mem == [] then d
    else
      var t := mem[|mem| - 1];
      PurgeSubs(Purge(d, mem[..|mem| - 1], host), t.alias, t.subsystems, host)
  }

  function DelHostRequest(d: Doc, mem: seq<Target>, alias: string): (Doc, Code) {
    var (e, code) := StepDelHost(d, alias);
    if code.Ok? then (Purge(e, mem, alias), Ok) else (e, code)
  }

  /** The memory after the request: what the pass takes, it takes here too. */
  function PurgedHosts(hosts: seq<Host>, alias: string): seq<Host> {
    var k := IndexOf(Aliases(hosts), alias);
    if k < |hosts| then Removed(hosts, k) else hosts
  }

  function PurgedMemorySub(s: Subsystem, alias: string): Subsystem {
    if IsRestricted(s) then s.(hosts := PurgedHosts(s.hosts, alias)) else s
  }

  function PurgedMemoryTarget(t: Target, alias: string): Target {
    t.(subsystems := seq(|t.subsystems|, j requires 0 <= j < |t.subsystems| =>
      PurgedMemorySub(t.subsystems[j], alias)))
  }

  function PurgedMemory(mem: seq<Target>, alias: string): (r: seq<Target>)
    ensures |r| == |mem|
  {
    seq(|mem|, i requires 0 <= i < |mem| => PurgedMemoryTarget(mem[i], alias))
  }

  // What the pass makes of the document, whatever the document's own deletion has left of it.

  function MemNames(subs: seq<Subsystem>): (r: seq<string>)
    ensures |r| == |subs|
  {
    seq(|subs|, j requires 0 <= j < |subs| => subs[j].nqn)
  }

  /** Whether the pass asks for the host to be taken from the subsystem of this name. */
  predicate TakesFrom(subs: seq<Subsystem>, nqn: string, host: string) {
    exists j :: 0 <= j < |subs| && subs[j].nqn == nqn && Takes(subs[j], host)
  }

  function PurgedSub(s: SubsysObj, subs: seq<Subsystem>, host: string): SubsysObj {
    if TakesFrom(subs, s.nqn, host) then s.(hosts := Without(s.hosts, host)) else s
  }

  function PurgedTarget(t: TargetObj, subs: seq<Subsystem>, host: string): TargetObj {
    t.(subsystems := seq(|t.subsystems|, j requires 0 <= j < |t.subsystems| =>
      PurgedSub(t.subsystems[j], subs, host)))
  }

  function PurgedTargets(targets: seq<TargetObj>, mem: seq<Target>, host: string): (r: seq<TargetObj>)
    requires |mem| <= |targets|
    ensures |r| == |targets|
  {
    seq(|targets|, i requires 0 <= i < |targets| =>
      if i < |mem| then PurgedTarget(targets[i], mem[i].subsystems, host) else targets[i])
  }

  lemma PurgedNames(t: TargetObj, subs: seq<Subsystem>, host: string)
    ensures SubNames(PurgedTarget(t, subs, host).subsystems) == SubNames(t.subsystems)
  {
  }

  /** One deletion, where there may be no such subsystem or no such host. */
  lemma DelAclIs(e: Doc, n: nat, nqn: string, host: string)
    requires NoDup(TargetNames(e.targets)) && n < |e.targets|
    ensures var t := e.targets[n];
      var k := FindSub(t, nqn);
      StepDelAcl(e, t.alias, nqn, host).0 ==
        if k == |t.subsystems| then e
        else WithSub(e, n, k, t.subsystems[k].(hosts := Without(t.subsystems[k].hosts, host)))
  {
    assert TargetNames(e.targets)[n] == e.targets[n].alias;
    var t := e.targets[n];
    var k := FindSub(t, nqn);
    if k < |t.subsystems| && host !in t.subsystems[k].hosts {
      assert t.subsystems[k := t.subsystems[k]] == t.subsystems;
      assert e.targets[n := t] == e.targets;
    }
  }

  lemma TakesMore(subs: seq<Subsystem>, k: nat, nqn: string, host: string)
    requires k < |subs|
    ensures TakesFrom(subs[..k + 1], nqn, host) <==>
      TakesFrom(subs[..k], nqn, host) || (subs[k].nqn == nqn && Takes(subs[k], host))
  {
    if TakesFrom(subs[..k], nqn, host) {
      var j :| 0 <= j < k && subs[..k][j].nqn == nqn && Takes(subs[..k][j], host);
      assert subs[..k + 1][j] == subs[..k][j];
    }
    assert subs[..k + 1][k] == subs[k];
    assert forall j :: 0 <= j < k ==> subs[..k + 1][j] == subs[..k][j];
  }

  /** The next subsystem of the memory, with a name of its own, changes the one of that name. */
  lemma PurgedMore(t: TargetObj, subs: seq<Subsystem>, k: nat, host: string)
    requires NoDup(SubNames(t.subsystems)) && NoDup(MemNames(subs)) && k < |subs|
    ensures var was, now := PurgedTarget(t, subs[..k], host).subsystems, PurgedTarget(t, subs[..k + 1], host).subsystems;
      var j := FindSub(t, subs[k].nqn);
      now == if Takes(subs[k], host) && j < |t.subsystems|
             then was[j := was[j].(hosts := Without(was[j].hosts, host))] else was
  {
    var was, now := PurgedTarget(t, subs[..k], host).subsystems, PurgedTarget(t, subs[..k + 1], host).subsystems;
    var j := FindSub(t, subs[k].nqn);
    forall n | 0 <= n < |t.subsystems|
      ensures now[n] == if Takes(subs[k], host) && n == j then was[n].(hosts := Without(was[n].hosts, host)) else was[n]
    {
      var nqn := t.subsystems[n].nqn;
      assert SubNames(t.subsystems)[n] == nqn;
      TakesMore(subs, k, nqn, host);
      if nqn == subs[k].nqn {
        forall i | 0 <= i < k
          ensures subs[i].nqn != nqn
        {
          assert MemNames(subs)[i] != MemNames(subs)[k];
        }
        assert !TakesFrom(subs[..k], nqn, host);
      }
    }
  }

  lemma {:induction false} PurgeSubsIs(d: Doc, n: nat, subs: seq<Subsystem>, host: string)
    requires NoDup(TargetNames(d.targets)) && n < |d.targets|
    requires NoDup(SubNames(d.targets[n].subsystems)) && NoDup(MemNames(subs))
    ensures PurgeSubs(d, d.targets[n].alias, subs, host) ==
      d.(targets := d.targets[n := PurgedTarget(d.targets[n], subs, host)])
    decreases |subs|
  {
    var t := d.targets[n];
    if subs == [] {
      assert PurgedTarget(t, subs, host).subsystems == t.subsystems;
      assert d.targets[n := t] == d.targets;
    } else {
      var k := |subs| - 1;
      assert MemNames(subs[..k]) == MemNames(subs)[..k];
      PurgeSubsIs(d, n, subs[..k], host);
      var e := PurgeSubs(d, t.alias, subs[..k], host);
      var was := PurgedTarget(t, subs[..k], host);
      assert e.targets[n] == was;
      assert TargetNames(e.targets) == TargetNames(d.targets);
      PurgedNames(t, subs[..k], host);
      PurgedMore(t, subs, k, host);
      assert subs[..k + 1] == subs;
      DelAclIs(e, n, subs[k].nqn, host);
      assert PurgedTarget(t, subs, host) == was.(subsystems := PurgedTarget(t, subs, host).subsystems);
    }
  }

  /** Each target of the memory stands for the target of the document at its place. */
  ghost predicate SameTargets(d: Doc, mem: seq<Target>) {
    && |mem| <= |d.targets|
    && (forall i :: 0 <= i < |mem| ==> mem[i].alias == d.targets[i].alias && NoDup(MemNames(mem[i].subsystems)))
  }

  ghost predicate UniqueNames(d: Doc) {
    && NoDup(TargetNames(d.targets))
    && forall i :: 0 <= i < |d.targets| ==> NoDup(SubNames(d.targets[i].subsystems))
  }

  lemma {:induction false} PurgeIs(d: Doc, mem: seq<Target>, host: string)
    requires UniqueNames(d) && SameTargets(d, mem)
    ensures Purge(d, mem, host) == d.(targets := PurgedTargets(d.targets, mem, host))
    decreases |mem|
  {
    if mem == [] {
      assert PurgedTargets(d.targets, mem, host) == d.targets;
    } else {
      var n := |mem| - 1;
      PurgeIs(d, mem[..n], host);
      var e := Purge(d, mem[..n], host);
      assert e.targets[n] == d.targets[n];
      assert TargetNames(e.targets) == TargetNames(d.targets);
      PurgeSubsIs(e, n, mem[n].subsystems, host);
      assert PurgedTargets(d.targets, mem, host) ==
        e.targets[n := PurgedTarget(d.targets[n], mem[n].subsystems, host)];
    }
  }

  // The request, from a memory that mirrors the document.

  /** Whether the memory restricts the subsystem of this name. */
  predicate Restricts(subs: seq<Subsystem>, nqn: string) {
    exists j :: 0 <= j < |subs| && subs[j].nqn == nqn && IsRestricted(subs[j])
  }

  lemma MirrorNames(t: TargetObj, subs: seq<Subsystem>)
    requires MirrorsSubs(t, subs)
    ensures MemNames(subs) == SubNames(t.subsystems)
  {
  }

  lemma MirrorTakes(t: TargetObj, subs: seq<Subsystem>, s: SubsysObj, host: string)
    requires MirrorsSubs(t, subs) && NoDup(SubNames(t.subsystems)) && s in t.subsystems
    ensures TakesFrom(subs, s.nqn, host) <==> Restricts(subs, s.nqn) && host in s.hosts
  {
    var n := SomeIndex(t.subsystems, s);
    forall j | 0 <= j < |subs| && subs[j].nqn == s.nqn
      ensures j == n
    {
      assert SubNames(t.subsystems)[j] == SubNames(t.subsystems)[n];
    }
  }

  /** What the document's own deletion leaves of a target. */
  function Left(d: Doc, i: nat, alias: string): TargetObj
    requires i < |d.targets|
  {
    DelInTarget(d.targets[i], i, alias)
  }

  lemma LeftOk(d: Doc, i: nat, alias: string)
    requires Inv(d) && i < |d.targets|
    ensures NoDup(SubNames(Left(d, i, alias).subsystems))
    ensures forall s <- Left(d, i, alias).subsystems :: s in d.targets[i].subsystems && SubOk(HostNames(d.hosts), s)
  {
    var t := d.targets[i];
    VisitsLeave(t.subsystems, i, alias, |t.subsystems|);
    forall s <- Left(d, i, alias).subsystems
      ensures SubOk(HostNames(d.hosts), s)
    {
      var n := SomeIndex(t.subsystems, s);
    }
  }

  /** After the request, each target has the subsystems that the document's own deletion left
      it, and of these the restricted ones no longer list the host. */
  lemma DelHostRequestIs(d: Doc, mem: seq<Target>, alias: string)
    requires Inv(d) && Mirrors(d, mem) && alias in HostNames(d.hosts)
    ensures var e := DelHostRequest(d, mem, alias).0;
      && e.hosts == Removed(d.hosts, FindHost(d, alias)) && e.groups == DelFromGroups(d.groups, HostMember, alias)
      && |e.targets| == |d.targets|
      && (forall i :: 0 <= i < |d.targets| ==>
           var left := Left(d, i, alias);
           e.targets[i] == left.(subsystems := e.targets[i].subsystems) &&
           |e.targets[i].subsystems| == |left.subsystems| &&
           forall j :: 0 <= j < |left.subsystems| ==>
             var s := left.subsystems[j];
             e.targets[i].subsystems[j] ==
               if Restricts(mem[i].subsystems, s.nqn) then s.(hosts := Without(s.hosts, alias)) else s)
  {
    var f := StepDelHost(d, alias).0;
    assert TargetNames(f.targets) == TargetNames(d.targets);
    forall i | 0 <= i < |d.targets|
      ensures f.targets[i] == Left(d, i, alias) && NoDup(SubNames(f.targets[i].subsystems))
      ensures mem[i].alias == f.targets[i].alias && NoDup(MemNames(mem[i].subsystems))
    {
      LeftOk(d, i, alias);
      MirrorNames(d.targets[i], mem[i].subsystems);
    }
    PurgeIs(f, mem, alias);
    var e := DelHostRequest(d, mem, alias).0;
    forall i, j | 0 <= i < |d.targets| && 0 <= j < |Left(d, i, alias).subsystems|
      ensures var s := Left(d, i, alias).subsystems[j];
        e.targets[i].subsystems[j] ==
          if Restricts(mem[i].subsystems, s.nqn) then s.(hosts := Without(s.hosts, alias)) else s
    {
      var s := Left(d, i, alias).subsystems[j];
      LeftOk(d, i, alias);
      assert s in Left(d, i, alias).subsystems;
      MirrorTakes(d.targets[i], mem[i].subsystems, s, alias);
      if alias !in s.hosts {
        assert Without(s.hosts, alias) == s.hosts;
      }
    }
  }

  /** The subsystem is open, lists the host, and is not among those that the deletion removes. */
  predicate StaysListed(d: Doc, mem: seq<Target>, alias: string, i: nat, s: SubsysObj)
    requires i < |d.targets| && i < |mem|
  {
    s in Left(d, i, alias).subsystems && alias in s.hosts && !Restricts(mem[i].subsystems, s.nqn)
  }

  /** The request keeps the references valid if and only if every open subsystem that lists the
      host is among those that the document's own deletion removes. */
  lemma DelHostRequestKeeps(d: Doc, mem: seq<Target>, alias: string)
    requires Inv(d) && Mirrors(d, mem)
    ensures Inv(DelHostRequest(d, mem, alias).0) <==>
      (alias in HostNames(d.hosts) ==>
        forall i, s :: 0 <= i < |d.targets| && s in d.targets[i].subsystems ==> !StaysListed(d, mem, alias, i, s))
  {
    if alias in HostNames(d.hosts) {
      var e := DelHostRequest(d, mem, alias).0;
      DelHostRequestIs(d, mem, alias);
      assert d.hosts[FindHost(d, alias)].alias == HostNames(d.hosts)[FindHost(d, alias)];
      DelHostGroups(d, FindHost(d, alias));
      assert TargetNames(e.targets) == TargetNames(d.targets);
      forall i | 0 <= i < |d.targets|
        ensures TargetOk(HostNames(e.hosts), e.targets[i]) <==>
          forall s <- d.targets[i].subsystems :: !StaysListed(d, mem, alias, i, s)
      {
        DelHostTargetKeeps(d, mem, alias, HostNames(e.hosts), i, e.targets[i]);
      }
    }
  }

  lemma DelHostTargetKeeps(d: Doc, mem: seq<Target>, alias: string, names: seq<string>, i: nat, now: TargetObj)
    requires Inv(d) && Mirrors(d, mem) && i < |d.targets|
    requires forall x :: x in names <==> x in HostNames(d.hosts) && x != alias
    requires now.ports == d.targets[i].ports && |now.subsystems| == |Left(d, i, alias).subsystems|
    requires forall j :: 0 <= j < |now.subsystems| ==>
      var s := Left(d, i, alias).subsystems[j];
      now.subsystems[j] == if Restricts(mem[i].subsystems, s.nqn) then s.(hosts := Without(s.hosts, alias)) else s
    ensures TargetOk(names, now) <==> forall s <- d.targets[i].subsystems :: !StaysListed(d, mem, alias, i, s)
  {
    var left := Left(d, i, alias).subsystems;
    LeftOk(d, i, alias);
    assert SubNames(now.subsystems) == SubNames(left);
    forall j | 0 <= j < |left|
      ensures SubOk(names, now.subsystems[j]) <==> !StaysListed(d, mem, alias, i, left[j])
    {
      assert left[j] in left;
      SubWithout(HostNames(d.hosts), left[j], names, alias);
    }
    if TargetOk(names, now) {
      forall s <- d.targets[i].subsystems
        ensures !StaysListed(d, mem, alias, i, s)
      {
        if s in left {
          var j := SomeIndex(left, s);
          assert SubOk(names, now.subsystems[j]);
        }
      }
    } else {
      var j :| 0 <= j < |left| && !SubOk(names, now.subsystems[j]);
      assert left[j] in d.targets[i].subsystems;
    }
  }

  predicate AllRestricted(t: TargetObj, subs: seq<Subsystem>, alias: string) {
    forall s <- t.subsystems :: alias in s.hosts ==> Restricts(subs, s.nqn)
  }

  /** The request does what it is for, and no subsystem is lost over it, if and only if in each
      target the subsystem at the target's index does not list the host at the place of a
      subsystem, and all that list the host are restricted. */
  lemma DelHostRequestMeetsIntent(d: Doc, mem: seq<Target>, alias: string)
    requires Inv(d) && Mirrors(d, mem) && alias in HostNames(d.hosts)
    ensures var e := DelHostRequest(d, mem, alias).0;
      Inv(e) && |e.targets| == |d.targets| &&
      (forall i :: 0 <= i < |d.targets| ==> |e.targets[i].subsystems| == |d.targets[i].subsystems|) <==>
        NoneLost(d, alias) && forall i :: 0 <= i < |d.targets| ==> AllRestricted(d.targets[i], mem[i].subsystems, alias)
  {
    DelHostRequestIs(d, mem, alias);
    DelHostRequestKeeps(d, mem, alias);
    var e := DelHostRequest(d, mem, alias).0;
    forall i | 0 <= i < |d.targets|
      ensures |e.targets[i].subsystems| == |d.targets[i].subsystems| <==> !Loses(d.targets[i].subsystems, i, alias)
      ensures !Loses(d.targets[i].subsystems, i, alias) ==> Left(d, i, alias).subsystems == d.targets[i].subsystems
    {
      var subs := d.targets[i].subsystems;
      VisitsLeave(subs, i, alias, |subs|);
      if !Loses(subs, i, alias) {
        VisitsStuck(subs, i, alias, |subs|);
      }
    }
    if NoneLost(d, alias) {
      forall i | 0 <= i < |d.targets|
        ensures AllRestricted(d.targets[i], mem[i].subsystems, alias) <==>
          forall s <- d.targets[i].subsystems :: !StaysListed(d, mem, alias, i, s)
      {
      }
    }
  }

  /** Where every subsystem that lists the host is restricted, the references stay valid; but
      subsystems may be lost. */
  lemma DelHostRequestRestricted(d: Doc, mem: seq<Target>, alias: string)
    requires Inv(d) && Mirrors(d, mem)
    requires forall i :: 0 <= i < |d.targets| ==> AllRestricted(d.targets[i], mem[i].subsystems, alias)
    ensures Inv(DelHostRequest(d, mem, alias).0)
  {
    DelHostRequestKeeps(d, mem, alias);
  }

  lemma PurgedAliases(hosts: seq<Host>, alias: string)
    ensures Aliases(PurgedHosts(hosts, alias)) == Without(Aliases(hosts), alias)
  {
  }

  /** The memory goes on mirroring the document if and only if no subsystem was lost from it. */
  lemma DelHostRequestMirrors(d: Doc, mem: seq<Target>, alias: string)
    requires Inv(d) && Mirrors(d, mem) && alias in HostNames(d.hosts)
    ensures Mirrors(DelHostRequest(d, mem, alias).0, PurgedMemory(mem, alias)) <==> NoneLost(d, alias)
  {
    DelHostRequestIs(d, mem, alias);
    var e, now := DelHostRequest(d, mem, alias).0, PurgedMemory(mem, alias);
    forall i | 0 <= i < |d.targets|
      ensures MirrorsSubs(e.targets[i], now[i].subsystems) <==> !Loses(d.targets[i].subsystems, i, alias)
    {
      DelHostTargetMirrors(d, mem, alias, i, e.targets[i]);
    }
  }

  lemma DelHostTargetMirrors(d: Doc, mem: seq<Target>, alias: string, i: nat, now: TargetObj)
    requires Inv(d) && Mirrors(d, mem) && i < |d.targets|
    requires |now.subsystems| == |Left(d, i, alias).subsystems|
    requires forall j :: 0 <= j < |now.subsystems| ==>
      var s := Left(d, i, alias).subsystems[j];
      now.subsystems[j] == if Restricts(mem[i].subsystems, s.nqn) then s.(hosts := Without(s.hosts, alias)) else s
    ensures MirrorsSubs(now, PurgedMemoryTarget(mem[i], alias).subsystems) <==>
      !Loses(d.targets[i].subsystems, i, alias)
  {
    var subs, purged := d.targets[i].subsystems, PurgedMemoryTarget(mem[i], alias).subsystems;
    if Loses(subs, i, alias) {
      VisitsLeave(subs, i, alias, |subs|);
    } else {
      VisitsStuck(subs, i, alias, |subs|);
      forall j | 0 <= j < |subs|
        ensures purged[j].nqn == now.subsystems[j].nqn && Aliases(purged[j].hosts) == now.subsystems[j].hosts
      {
        PurgedAliases(mem[i].subsystems[j].hosts, alias);
        RestrictsAt(d.targets[i], mem[i].subsystems, j);
      }
    }
  }

  lemma RestrictsAt(t: TargetObj, subs: seq<Subsystem>, n: nat)
    requires MirrorsSubs(t, subs) && NoDup(SubNames(t.subsystems)) && n < |subs|
    ensures Restricts(subs, t.subsystems[n].nqn) <==> IsRestricted(subs[n])
  {
    forall j | 0 <= j < |subs| && subs[j].nqn == subs[n].nqn
      ensures j == n
    {
      assert SubNames(t.subsystems)[j] == SubNames(t.subsystems)[n];
    }
  }

  // The loops.

  lemma PurgeSubsNext(d: Doc, alias: string, subs: seq<Subsystem>, j: nat, host: string)
    requires j < |subs|
    ensures var e := PurgeSubs(d, alias, subs[..j], host);
      PurgeSubs(d, alias, subs[..j + 1], host) ==
        if Takes(subs[j], host) then StepDelAcl(e, alias, subs[j].nqn, host).0 else e
  {
    assert subs[..j + 1][..j] == subs[..j];
  }

  /** One subsystem of del_host. */
  method PurgeSubsystem(doc: DocumentStore.JsonDocument, alias: string, s: Subsystem, host: string) returns (now: Subsystem)
    modifies doc
    ensures doc.Root() ==
      if Takes(s, host) then StepDelAcl(old(doc.Root()), alias, s.nqn, host).0 else old(doc.Root())
    ensures now == PurgedMemorySub(s, host)
  {
    now := s;
    if !IsRestricted(s) {
      return;
    }
    var k := DocumentStore.FindArray(Aliases(s.hosts), host);
    if k < |s.hosts| {
      now := s.(hosts := Removed(s.hosts, k));
      var _ := doc.DelAcl(alias, s.nqn, host);
    }
  }

  /** The inner loop of del_host, over the subsystems of one target. */
  method PurgeSubsystems(doc: DocumentStore.JsonDocument, t: Target, alias: string) returns (subs: seq<Subsystem>)
    modifies doc
    ensures doc.Root() == PurgeSubs(old(doc.Root()), t.alias, t.subsystems, alias)
    ensures subs == PurgedMemoryTarget(t, alias).subsystems
  {
    subs := t.subsystems;
    for j := 0 to |t.subsystems|
      invariant |subs| == |t.subsystems|
      invariant doc.Root() == PurgeSubs(old(doc.Root()), t.alias, t.subsystems[..j], alias)
      invariant forall k :: 0 <= k < j ==> subs[k] == PurgedMemorySub(t.subsystems[k], alias)
      invariant forall k :: j <= k < |subs| ==> subs[k] == t.subsystems[k]
    {
      PurgeSubsNext(old(doc.Root()), t.alias, t.subsystems, j, alias);
      var s := PurgeSubsystem(doc, t.alias, subs[j], alias);
      subs := subs[j := s];
    }
    assert t.subsystems[..|t.subsystems|] == t.subsystems;
  }

  /** del_host: the document first, and then the memory with the document's access lists. */
  method DelHostFrom(doc: DocumentStore.JsonDocument, mem: seq<Target>, alias: string)
    returns (code: Code, now: seq<Target>)
    modifies doc
    ensures (doc.Root(), code) == DelHostRequest(old(doc.Root()), mem, alias)
    ensures now == if code.Ok? then PurgedMemory(mem, alias) else mem
  {
    now := mem;
    code := doc.DelHost(alias);
    if !code.Ok? {
      return;
    }
    ghost var left := doc.Root();
    for i := 0 to |mem|
      invariant |now| == |mem| && doc.Root() == Purge(left, mem[..i], alias)
      invariant forall k :: 0 <= k < |mem| ==> now[k] == if k < i then PurgedMemoryTarget(mem[k], alias) else mem[k]
    {
      assert mem[..i + 1][..i] == mem[..i];
      var subs := PurgeSubsystems(doc, mem[i], alias);
      now := now[i := mem[i].(subsystems := subs)];
    }
    assert mem[..|mem|] == mem;
  }
}
