/** Which hosts are told of a change, and what becomes of their pending event requests (the
    notification functions of src/dem/config.c). */
module Notifications {
  import opened DemTypes
  import opened Discovery

  /** A pending asynchronous event request. The id stands for the address of the list entry. */
  datatype Req = Req(id: nat, nqn: string, ep: nat)

  datatype Notice = Notice(req: Req, valid: bool)

  type Notices = seq<Notice>

  /** What changed. */
  datatype Event =
    | SubsysChange(s: Subsystem)
    | GroupChange(links: seq<GroupHost>, group: nat, t: Target)
    | TargetChange(t: Target)
    | HostChange(nqn: string)

  // Building the list.

  predicate InList(list: Notices, nqn: string) {
    exists i :: 0 <= i < |list| && list[i].req.nqn == nqn
  }

  /** One entry for each NQN: its first pending request. */
  function Created(reqs: seq<Req>): Notices {
    if reqs == [] then []
    else
      var list, r := Created(reqs[..|reqs| - 1]), reqs[|reqs| - 1];
      if InList(list, r.nqn) then list else list + [Notice(r, false)]
  }

  /** An allowed host with an NQN other than the entry's flags the entry. */
  predicate FlaggedByHosts(hosts: seq<Host>, nqn: string) {
    exists k :: 0 <= k < |hosts| && hosts[k].nqn != nqn
  }

  predicate FlaggedByGroup(links: seq<GroupHost>, group: nat, nqn: string) {
    exists k :: 0 <= k < |links| && links[k].group == group && links[k].nqn != nqn
  }

  function FlagByHosts(hosts: seq<Host>, list: Notices): (r: Notices)
    ensures |r| == |list|
  {
    seq(|list|, i requires 0 <= i < |list| =>
      list[i].(valid := list[i].valid || FlaggedByHosts(hosts, list[i].req.nqn)))
  }

  function FlagByGroup(links: seq<GroupHost>, group: nat, list: Notices): (r: Notices)
    ensures |r| == |list|
  {
    seq(|list|, i requires 0 <= i < |list| =>
      list[i].(valid := list[i].valid || FlaggedByGroup(links, group, list[i].req.nqn)))
  }

  function FlagBySubsystems(subs: seq<Subsystem>, list: Notices): (r: Notices)
    ensures |r| == |list|
  {
    if subs == [] then list
    else FlagByHosts(subs[|subs| - 1].hosts, FlagBySubsystems(subs[..|subs| - 1], list))
  }

  function EnableAll(list: Notices): (r: Notices)
    ensures |r| == |list|
  {
    seq(|list|, i requires 0 <= i < |list| => list[i].(valid := true))
  }

  function Pruned(list: Notices): Notices {
    if list == [] then []
    else Pruned(list[..|list| - 1]) + if list[|list| - 1].valid then [list[|list| - 1]] else []
  }

  predicate AnyOpen(subs: seq<Subsystem>) {
    exists s :: 0 <= s < |subs| && !IsRestricted(subs[s])
  }

  function ForTarget(t: Target, list: Notices): Notices {
    if AnyOpen(t.subsystems) then EnableAll(list) else Pruned(FlagBySubsystems(t.subsystems, list))
  }

  function Notified(e: Event, reqs: seq<Req>): Notices {
    match e
    case SubsysChange(s) =>
      if !IsRestricted(s) then EnableAll(Created(reqs)) else Pruned(FlagByHosts(s.hosts, Created(reqs)))
    case GroupChange(links, group, t) => ForTarget(t, Pruned(FlagByGroup(links, group, Created(reqs))))
    case TargetChange(t) => ForTarget(t, Created(reqs))
    case HostChange(nqn) =>
      var i := FirstReq(reqs, nqn);
      if i < |reqs| then [Notice(reqs[i], false)] else []
  }

  /** The first request of an NQN, or the length. */
  function FirstReq(reqs: seq<Req>, nqn: string): (i: nat)
    ensures i <= |reqs| && (forall k :: 0 <= k < i ==> reqs[k].nqn != nqn)
    ensures i < |reqs| ==> reqs[i].nqn == nqn
  {
    if reqs == [] || reqs[0].nqn == nqn then 0 else 1 + FirstReq(reqs[1..], nqn)
  }

  // What every list satisfies.

  predicate Distinct(reqs: seq<Req>) {
    forall i, j :: 0 <= i < j < |reqs| ==> reqs[i].id != reqs[j].id
  }

  /** The entry is for the first pending request of its NQN. */
  predicate IsFirst(reqs: seq<Req>, e: Notice) {
    var i := FirstReq(reqs, e.req.nqn);
    i < |reqs| && reqs[i] == e.req
  }

  /** At most one entry per NQN, each for the first pending request of its NQN. */
  ghost predicate Sound(reqs: seq<Req>, list: Notices) {
    && (forall i :: 0 <= i < |list| ==> IsFirst(reqs, list[i]))
    && (forall i, j :: 0 <= i < j < |list| ==> list[i].req.nqn != list[j].req.nqn)
  }

  lemma FirstReqIs(reqs: seq<Req>, nqn: string, i: nat)
    requires i <= |reqs| && (forall k :: 0 <= k < i ==> reqs[k].nqn != nqn)
    requires i < |reqs| ==> reqs[i].nqn == nqn
    ensures FirstReq(reqs, nqn) == i
  {
  }

  lemma StaysFirst(reqs: seq<Req>, n: nat, e: Notice)
    requires n <= |reqs| && IsFirst(reqs[..n], e)
    ensures IsFirst(reqs, e)
  {
    FirstReqIs(reqs, e.req.nqn, FirstReq(reqs[..n], e.req.nqn));
  }

  lemma {:induction false} CreatedCovers(reqs: seq<Req>)
    ensures forall k :: 0 <= k < |reqs| ==> InList(Created(reqs), reqs[k].nqn)
  {
    if reqs != [] {
      var n := |reqs| - 1;
      var before, list := Created(reqs[..n]), Created(reqs);
      CreatedCovers(reqs[..n]);
      forall k | 0 <= k < |reqs|
        ensures InList(list, reqs[k].nqn)
      {
        if k < n {
          assert InList(before, reqs[..n][k].nqn);
        }
        if InList(before, reqs[k].nqn) {
          var i :| 0 <= i < |before| && before[i].req.nqn == reqs[k].nqn;
          assert list[i].req.nqn == reqs[k].nqn;
        } else {
          assert list[|before|].req.nqn == reqs[k].nqn;
        }
      }
    }
  }

  lemma SoundGrows(reqs: seq<Req>, n: nat, list: Notices)
    requires n <= |reqs| && Sound(reqs[..n], list)
    ensures Sound(reqs, list)
  {
    forall i | 0 <= i < |list|
      ensures IsFirst(reqs, list[i])
    {
      StaysFirst(reqs, n, list[i]);
    }
  }

  lemma SoundAdd(reqs: seq<Req>, list: Notices, e: Notice)
    requires Sound(reqs, list) && IsFirst(reqs, e) && !InList(list, e.req.nqn)
    ensures Sound(reqs, list + [e])
  {
  }

  lemma {:induction false} CreatedIs(reqs: seq<Req>)
    ensures Sound(reqs, Created(reqs))
    ensures forall i :: 0 <= i < |Created(reqs)| ==> !Created(reqs)[i].valid
  {
    if reqs != [] {
      var n := |reqs| - 1;
      var before, r := Created(reqs[..n]), reqs[n];
      CreatedIs(reqs[..n]);
      SoundGrows(reqs, n, before);
      if !InList(before, r.nqn) {
        NewIsFirst(reqs);
        SoundAdd(reqs, before, Notice(r, false));
      }
    }
  }

  /** A request whose NQN has no entry yet is the first of its NQN. */
  lemma NewIsFirst(reqs: seq<Req>)
    requires reqs != []
    requires var n := |reqs| - 1; !InList(Created(reqs[..n]), reqs[n].nqn)
    ensures IsFirst(reqs, Notice(reqs[|reqs| - 1], false))
  {
    var n := |reqs| - 1;
    CreatedCovers(reqs[..n]);
    forall k | 0 <= k < n
      ensures reqs[k].nqn != reqs[n].nqn
    {
      assert InList(Created(reqs[..n]), reqs[..n][k].nqn);
    }
    FirstReqIs(reqs, reqs[n].nqn, n);
  }

  lemma {:induction false} PrunedIs(reqs: seq<Req>, list: Notices)
    requires Sound(reqs, list)
    ensures Sound(reqs, Pruned(list))
    ensures forall e :: e in Pruned(list) <==> e in list && e.valid
  {
    if list != [] {
      var n := |list| - 1;
      PrunedIs(reqs, list[..n]);
      assert list == list[..n] + [list[n]];
      forall i | 0 <= i < |Pruned(list[..n])|
        ensures Pruned(list[..n])[i].req.nqn != list[n].req.nqn
      {
        assert Pruned(list[..n])[i] in list[..n];
      }
    }
  }

  lemma {:induction false} FlagBySubsystemsIs(subs: seq<Subsystem>, list: Notices)
    ensures forall i :: 0 <= i < |list| ==>
      FlagBySubsystems(subs, list)[i] == list[i].(valid := list[i].valid || FlaggedBySome(subs, list[i].req.nqn))
  {
    if subs != [] {
      var n := |subs| - 1;
      FlagBySubsystemsIs(subs[..n], list);
      forall i | 0 <= i < |list|
        ensures FlaggedBySome(subs, list[i].req.nqn) <==>
          FlaggedBySome(subs[..n], list[i].req.nqn) || FlaggedByHosts(subs[n].hosts, list[i].req.nqn)
      {
        assert forall s :: 0 <= s < n ==> subs[..n][s] == subs[s];
      }
    }
  }

  predicate FlaggedBySome(subs: seq<Subsystem>, nqn: string) {
    exists s :: 0 <= s < |subs| && FlaggedByHosts(subs[s].hosts, nqn)
  }

  // Who is told.

  /** Whether the code tells a host, known by NQN, of an event. The second look of a group
      change, at the allowed hosts, removes nobody. */
  predicate Told(e: Event, nqn: string) {
    match e
    case SubsysChange(s) => !IsRestricted(s) || FlaggedByHosts(s.hosts, nqn)
    case GroupChange(links, group, t) => FlaggedByGroup(links, group, nqn)
    case TargetChange(t) => AnyOpen(t.subsystems) || FlaggedBySome(t.subsystems, nqn)
    case HostChange(n) => nqn == n
  }

  lemma FlagsKeep(reqs: seq<Req>, list: Notices, now: Notices)
    requires Sound(reqs, list) && |now| == |list|
    requires forall i :: 0 <= i < |list| ==> now[i].req == list[i].req
    ensures Sound(reqs, now)
  {
    forall i | 0 <= i < |now|
      ensures IsFirst(reqs, now[i])
    {
      assert IsFirst(reqs, list[i]);
    }
  }

  /** Flagging and pruning keep exactly the NQNs that were valid or get flagged. */
  lemma FlaggedPruned(reqs: seq<Req>, list: Notices, now: Notices, nqn: string)
    requires Sound(reqs, list) && |now| == |list|
    requires forall i :: 0 <= i < |list| ==> now[i].req == list[i].req
    ensures Sound(reqs, Pruned(now))
    ensures InList(Pruned(now), nqn) <==> exists i :: 0 <= i < |now| && now[i].req.nqn == nqn && now[i].valid
    ensures forall i :: 0 <= i < |Pruned(now)| ==> Pruned(now)[i].valid
  {
    FlagsKeep(reqs, list, now);
    PrunedIs(reqs, now);
    var left := Pruned(now);
    forall i | 0 <= i < |left|
      ensures left[i].valid && exists k :: 0 <= k < |now| && now[k] == left[i]
    {
      assert left[i] in now;
    }
    if i :| 0 <= i < |now| && now[i].req.nqn == nqn && now[i].valid {
      assert now[i] in left;
    }
  }

  lemma ForTargetIs(reqs: seq<Req>, t: Target, list: Notices, nqn: string)
    requires Sound(reqs, list)
    ensures Sound(reqs, ForTarget(t, list))
    ensures InList(ForTarget(t, list), nqn) <==>
      exists i :: 0 <= i < |list| && list[i].req.nqn == nqn &&
        (list[i].valid || AnyOpen(t.subsystems) || FlaggedBySome(t.subsystems, nqn))
  {
    if AnyOpen(t.subsystems) {
      FlagsKeep(reqs, list, EnableAll(list));
      if InList(ForTarget(t, list), nqn) {
        var i :| 0 <= i < |list| && EnableAll(list)[i].req.nqn == nqn;
        assert list[i].req.nqn == nqn;
      }
      if i :| 0 <= i < |list| && list[i].req.nqn == nqn {
        assert EnableAll(list)[i].req.nqn == nqn;
      }
    } else {
      FlagBySubsystemsIs(t.subsystems, list);
      FlaggedPruned(reqs, list, FlagBySubsystems(t.subsystems, list), nqn);
    }
  }

  lemma HasRequest(reqs: seq<Req>, nqn: string)
    ensures InList(Created(reqs), nqn) <==> FirstReq(reqs, nqn) < |reqs|
    ensures Sound(reqs, Created(reqs))
  {
    CreatedIs(reqs);
    CreatedCovers(reqs);
    if InList(Created(reqs), nqn) {
      var i :| 0 <= i < |Created(reqs)| && Created(reqs)[i].req.nqn == nqn;
      assert IsFirst(reqs, Created(reqs)[i]);
    }
    if FirstReq(reqs, nqn) < |reqs| {
      assert InList(Created(reqs), reqs[FirstReq(reqs, nqn)].nqn);
    }
  }

  lemma SubsysNotified(s: Subsystem, reqs: seq<Req>, nqn: string)
    ensures Sound(reqs, Notified(SubsysChange(s), reqs))
    ensures InList(Notified(SubsysChange(s), reqs), nqn) <==> FirstReq(reqs, nqn) < |reqs| && Told(SubsysChange(s), nqn)
  {
    var list := Created(reqs);
    HasRequest(reqs, nqn);
    CreatedIs(reqs);
    if IsRestricted(s) {
      FlaggedPruned(reqs, list, FlagByHosts(s.hosts, list), nqn);
    } else {
      FlagsKeep(reqs, list, EnableAll(list));
      assert forall i :: 0 <= i < |list| ==> EnableAll(list)[i].req.nqn == list[i].req.nqn;
    }
  }

  lemma GroupNotified(links: seq<GroupHost>, group: nat, t: Target, reqs: seq<Req>, nqn: string)
    ensures var e := GroupChange(links, group, t);
      && Sound(reqs, Notified(e, reqs))
      && (InList(Notified(e, reqs), nqn) <==> FirstReq(reqs, nqn) < |reqs| && Told(e, nqn))
  {
    var list := Created(reqs);
    HasRequest(reqs, nqn);
    CreatedIs(reqs);
    FlaggedPruned(reqs, list, FlagByGroup(links, group, list), nqn);
    ForTargetIs(reqs, t, Pruned(FlagByGroup(links, group, list)), nqn);
  }

  lemma HostNotified(n: string, reqs: seq<Req>, nqn: string)
    ensures Sound(reqs, Notified(HostChange(n), reqs))
    ensures InList(Notified(HostChange(n), reqs), nqn) <==> FirstReq(reqs, nqn) < |reqs| && nqn == n
  {
    var list := Notified(HostChange(n), reqs);
    assert forall i :: 0 <= i < |list| ==> list[i].req.nqn == n;
    if FirstReq(reqs, n) < |reqs| {
      assert list[0].req.nqn == n;
    }
  }

  /** Every list is sound, and holds exactly the NQNs that have a pending request and that the
      event is told to. */
  lemma NotifiedIs(e: Event, reqs: seq<Req>, nqn: string)
    ensures Sound(reqs, Notified(e, reqs))
    ensures InList(Notified(e, reqs), nqn) <==> FirstReq(reqs, nqn) < |reqs| && Told(e, nqn)
  {
    match e
    case SubsysChange(s) => SubsysNotified(s, reqs, nqn);
    case GroupChange(links, group, t) => GroupNotified(links, group, t, reqs, nqn);
    case TargetChange(t) =>
      HasRequest(reqs, nqn);
      CreatedIs(reqs);
      ForTargetIs(reqs, t, Created(reqs), nqn);
    case HostChange(n) => HostNotified(n, reqs, nqn);
  }

  /** The same in the fields of the change: who has a pending request and is told. */
  lemma ToldExactly(e: Event, reqs: seq<Req>, nqn: string)
    ensures
      var told := match e
        case SubsysChange(s) => s.access != 0 || exists k :: 0 <= k < |s.hosts| && s.hosts[k].nqn != nqn
        case GroupChange(links, group, _) => exists k :: 0 <= k < |links| && links[k].group == group && links[k].nqn != nqn
        case TargetChange(t) =>
          exists s :: 0 <= s < |t.subsystems| &&
            (t.subsystems[s].access != 0 || exists k :: 0 <= k < |t.subsystems[s].hosts| && t.subsystems[s].hosts[k].nqn != nqn)
        case HostChange(n) => nqn == n;
      InList(Notified(e, reqs), nqn) <==> (exists k :: 0 <= k < |reqs| && reqs[k].nqn == nqn) && told
  {
    NotifiedIs(e, reqs, nqn);
    if FirstReq(reqs, nqn) < |reqs| {
      assert reqs[FirstReq(reqs, nqn)].nqn == nqn;
    }
    if e.TargetChange? {
      var subs := e.t.subsystems;
      assert forall s :: 0 <= s < |subs| ==> (IsRestricted(subs[s]) <==> subs[s].access == 0);
    }
  }

  /** The hosts that a change of a restricted subsystem concerns. */
  predicate Concerned(hosts: seq<Host>, nqn: string) {
    exists k :: 0 <= k < |hosts| && hosts[k].nqn == nqn
  }

  /** The flag of an access list is right for a host if and only if the list is empty, or it
      holds both this host and another one. */
  lemma FlagIsRightIff(hosts: seq<Host>, nqn: string)
    ensures (FlaggedByHosts(hosts, nqn) <==> Concerned(hosts, nqn)) <==>
      hosts == [] ||
      ((exists k :: 0 <= k < |hosts| && hosts[k].nqn == nqn) && exists k :: 0 <= k < |hosts| && hosts[k].nqn != nqn)
  {
    if hosts != [] && !FlaggedByHosts(hosts, nqn) {
      assert hosts[0].nqn == nqn;
    }
  }

  /** The hosts that a change of a group concerns. */
  predicate ConcernedInGroup(links: seq<GroupHost>, group: nat, nqn: string) {
    exists k :: 0 <= k < |links| && links[k].group == group && links[k].nqn == nqn
  }

  /** The flag of a group is right for a host if and only if no host is linked to the group, or
      both this host and another one are. */
  lemma GroupFlagIsRightIff(links: seq<GroupHost>, group: nat, nqn: string)
    ensures (FlaggedByGroup(links, group, nqn) <==> ConcernedInGroup(links, group, nqn)) <==>
      (forall k :: 0 <= k < |links| ==> links[k].group != group) ||
      ((exists k :: 0 <= k < |links| && links[k].group == group && links[k].nqn == nqn) &&
       exists k :: 0 <= k < |links| && links[k].group == group && links[k].nqn != nqn)
  {
    if k :| 0 <= k < |links| && links[k].group == group {
      assert links[k].nqn == nqn || links[k].nqn != nqn;
    }
  }

  /** The one host of a group is not told of a change of the group, and every other host with
      a pending request is, whether or not it is in any group. */
  lemma OnlyMemberIsMissed(link: GroupHost, t: Target, reqs: seq<Req>, other: string)
    requires other != link.nqn
    ensures var list := Notified(GroupChange([link], link.group, t), reqs);
      && !InList(list, link.nqn)
      && (InList(list, other) <==> FirstReq(reqs, other) < |reqs|)
  {
    NotifiedIs(GroupChange([link], link.group, t), reqs, link.nqn);
    NotifiedIs(GroupChange([link], link.group, t), reqs, other);
    assert [link][0].nqn != other;
  }

  /** A host that a restricted subsystem alone allows is not told of its changes, and every
      other host with a pending request is. */
  lemma OnlyAllowedHostIsMissed(s: Subsystem, h: Host, reqs: seq<Req>, other: string)
    requires IsRestricted(s) && s.hosts == [h] && other != h.nqn
    ensures !InList(Notified(SubsysChange(s), reqs), h.nqn)
    ensures InList(Notified(SubsysChange(s), reqs), other) <==> FirstReq(reqs, other) < |reqs|
  {
    NotifiedIs(SubsysChange(s), reqs, h.nqn);
    NotifiedIs(SubsysChange(s), reqs, other);
    assert s.hosts[0].nqn != other;
  }

  // Sending.

  predicate Asks(list: Notices, id: nat) {
    exists i :: 0 <= i < |list| && list[i].req.id == id
  }

  function WithoutReq(reqs: seq<Req>, id: nat): seq<Req> {
    if reqs == [] then []
    else if reqs[0].id == id then reqs[1..]
    else [reqs[0]] + WithoutReq(reqs[1..], id)
  }

  /** The requests that no entry of the list is for, in their order. */
  function Remaining(reqs: seq<Req>, list: Notices): seq<Req> {
    if reqs == [] then []
    else (if Asks(list, reqs[0].id) then [] else [reqs[0]]) + Remaining(reqs[1..], list)
  }

  /** The endpoints that get a completion: those with a command buffer that are connected. */
  function Completions(list: Notices, buffered: set<nat>, connected: set<nat>): seq<nat> {
    if list == [] then []
    else
      var ep := list[|list| - 1].req.ep;
      Completions(list[..|list| - 1], buffered, connected) + if ep in buffered && ep in connected then [ep] else []
  }

  lemma {:induction false} RemainingNone(reqs: seq<Req>)
    ensures Remaining(reqs, []) == reqs
  {
    if reqs != [] {
      RemainingNone(reqs[1..]);
    }
  }

  lemma {:induction false} WithoutAbsent(reqs: seq<Req>, id: nat)
    requires forall i :: 0 <= i < |reqs| ==> reqs[i].id != id
    ensures WithoutReq(reqs, id) == reqs
  {
    if reqs != [] {
      WithoutAbsent(reqs[1..], id);
    }
  }

  lemma {:induction false} RemainingIds(reqs: seq<Req>, list: Notices)
    requires Distinct(reqs)
    ensures Distinct(Remaining(reqs, list))
    ensures forall r :: r in Remaining(reqs, list) <==> r in reqs && !Asks(list, r.id)
  {
    if reqs != [] {
      RemainingIds(reqs[1..], list);
      var rest := Remaining(reqs[1..], list);
      forall i | 0 <= i < |rest|
        ensures rest[i].id != reqs[0].id
      {
        assert rest[i] in reqs[1..];
      }
      assert forall r :: r in reqs <==> r == reqs[0] || r in reqs[1..];
    }
  }

  lemma {:induction false} RemainingNext(reqs: seq<Req>, list: Notices, e: Notice)
    requires Distinct(reqs)
    ensures Remaining(reqs, list + [e]) == WithoutReq(Remaining(reqs, list), e.req.id)
  {
    if reqs != [] {
      var r, rest := reqs[0], Remaining(reqs[1..], list);
      RemainingNext(reqs[1..], list, e);
      assert Asks(list + [e], r.id) <==> Asks(list, r.id) || r.id == e.req.id by {
        assert (list + [e])[|list|] == e;
        assert forall i :: 0 <= i < |list| ==> (list + [e])[i] == list[i];
      }
      if !Asks(list, r.id) {
        assert Remaining(reqs, list) == [r] + rest && ([r] + rest)[1..] == rest;
        if r.id == e.req.id {
          RemainingIds(reqs[1..], list);
          forall i | 0 <= i < |rest|
            ensures rest[i].id != e.req.id
          {
            assert rest[i] in reqs[1..];
          }
          WithoutAbsent(rest, e.req.id);
          assert Remaining(reqs, list + [e]) == WithoutReq(rest, e.req.id);
        } else {
          assert Remaining(reqs, list + [e]) == [r] + WithoutReq(rest, e.req.id);
        }
      } else {
        assert Remaining(reqs, list) == rest;
        assert Remaining(reqs, list + [e]) == WithoutReq(rest, e.req.id);
      }
    }
  }

  lemma {:induction false} CompletionsAtMost(list: Notices, buffered: set<nat>, connected: set<nat>, ep: nat)
    ensures |Completions(list, buffered, connected)| <= |list|
    ensures ep in Completions(list, buffered, connected) <==>
      ep in buffered && ep in connected && exists i :: 0 <= i < |list| && list[i].req.ep == ep
  {
    if list != [] {
      var n := |list| - 1;
      CompletionsAtMost(list[..n], buffered, connected, ep);
      assert forall i :: 0 <= i < n ==> list[..n][i] == list[i];
    }
  }

  lemma {:induction false} RemainingCount(reqs: seq<Req>, list: Notices)
    requires Distinct(reqs) && Sound(reqs, list)
    ensures |Remaining(reqs, list)| + |list| == |reqs|
    decreases |list|
  {
    if list == [] {
      RemainingNone(reqs);
    } else {
      var n := |list| - 1;
      var e, so := list[n], Remaining(reqs, list[..n]);
      RemainingCount(reqs, list[..n]);
      RemainingNext(reqs, list[..n], e);
      assert list == list[..n] + [e];
      RemainingIds(reqs, list[..n]);
      assert IsFirst(reqs, e);
      forall i | 0 <= i < n
        ensures list[..n][i].req.id != e.req.id
      {
        assert IsFirst(reqs, list[i]);
        assert reqs[FirstReq(reqs, list[i].req.nqn)].nqn != reqs[FirstReq(reqs, e.req.nqn)].nqn;
      }
      assert e.req in so;
      WithoutOne(so, e.req);
    }
  }

  lemma {:induction false} WithoutOne(reqs: seq<Req>, r: Req)
    requires r in reqs
    ensures |WithoutReq(reqs, r.id)| == |reqs| - 1
  {
    if reqs[0].id != r.id {
      WithoutOne(reqs[1..], r);
    }
  }

  /** For every event: what is sent removes exactly one pending request for each entry of the
      list, the first one of its NQN, and leaves all others in their order; each entry brings
      at most one completion, and each NQN has at most one entry. */
  lemma RequestsConserved(e: Event, reqs: seq<Req>, buffered: set<nat>, connected: set<nat>)
    requires Distinct(reqs)
    ensures var list := Notified(e, reqs);
      && |Remaining(reqs, list)| + |list| == |reqs|
      && (forall r :: r in reqs ==>
           (r !in Remaining(reqs, list) <==>
             FirstReq(reqs, r.nqn) < |reqs| && reqs[FirstReq(reqs, r.nqn)] == r && Told(e, r.nqn)))
      && |Completions(list, buffered, connected)| <= |list|
  {
    var list := Notified(e, reqs);
    NotifiedIs(e, reqs, "");
    RemainingCount(reqs, list);
    RemainingIds(reqs, list);
    CompletionsAtMost(list, buffered, connected, 0);
    forall r | r in reqs
      ensures Asks(list, r.id) <==>
        FirstReq(reqs, r.nqn) < |reqs| && reqs[FirstReq(reqs, r.nqn)] == r && Told(e, r.nqn)
    {
      RequestAsked(e, reqs, r);
    }
  }

  lemma SameId(reqs: seq<Req>, a: Req, b: Req)
    requires Distinct(reqs) && a in reqs && b in reqs && a.id == b.id
    ensures a == b
  {
    var i :| 0 <= i < |reqs| && reqs[i] == a;
    var j :| 0 <= j < |reqs| && reqs[j] == b;
    assert i == j;
  }

  lemma SoundAsked(list: Notices, reqs: seq<Req>, r: Req)
    requires Distinct(reqs) && r in reqs && Sound(reqs, list)
    ensures Asks(list, r.id) <==>
      FirstReq(reqs, r.nqn) < |reqs| && reqs[FirstReq(reqs, r.nqn)] == r && InList(list, r.nqn)
  {
    if Asks(list, r.id) {
      var i :| 0 <= i < |list| && list[i].req.id == r.id;
      assert IsFirst(reqs, list[i]);
      SameId(reqs, list[i].req, r);
    }
    if FirstReq(reqs, r.nqn) < |reqs| && reqs[FirstReq(reqs, r.nqn)] == r && InList(list, r.nqn) {
      var i :| 0 <= i < |list| && list[i].req.nqn == r.nqn;
      assert IsFirst(reqs, list[i]);
    }
  }

  lemma RequestAsked(e: Event, reqs: seq<Req>, r: Req)
    requires Distinct(reqs) && r in reqs
    ensures Asks(Notified(e, reqs), r.id) <==>
      FirstReq(reqs, r.nqn) < |reqs| && reqs[FirstReq(reqs, r.nqn)] == r && Told(e, r.nqn)
  {
    NotifiedIs(e, reqs, r.nqn);
    SoundAsked(Notified(e, reqs), reqs, r);
  }

  // The lists in memory.

  method FlagByAccessList(hosts: seq<Host>, given: Notices) returns (list: Notices)
    ensures list == FlagByHosts(hosts, given)
  {
    list := given;
    for i := 0 to |list|
      invariant |list| == |given|
      invariant forall k :: 0 <= k < i ==> list[k] == FlagByHosts(hosts, given)[k]
      invariant forall k :: i <= k < |list| ==> list[k] == given[k]
    {
      for k := 0 to |hosts|
        invariant forall n :: 0 <= n < k ==> hosts[n].nqn == list[i].req.nqn
        invariant |list| == |given| && list[i] == given[i]
        invariant forall n :: 0 <= n < |list| && n != i ==> list[n] == if n < i then FlagByHosts(hosts, given)[n] else given[n]
      {
        if hosts[k].nqn != list[i].req.nqn {
          list := list[i := list[i].(valid := true)];
          break;
        }
      }
    }
  }

  method FlagByGroupHosts(links: seq<GroupHost>, group: nat, given: Notices) returns (list: Notices)
    ensures list == FlagByGroup(links, group, given)
  {
    list := given;
    for i := 0 to |list|
      invariant |list| == |given|
      invariant forall k :: 0 <= k < i ==> list[k] == FlagByGroup(links, group, given)[k]
      invariant forall k :: i <= k < |list| ==> list[k] == given[k]
    {
      for k := 0 to |links|
        invariant forall n :: 0 <= n < k ==> !(links[n].group == group && links[n].nqn != list[i].req.nqn)
        invariant |list| == |given| && list[i] == given[i]
        invariant forall n :: 0 <= n < |list| && n != i ==> list[n] == if n < i then FlagByGroup(links, group, given)[n] else given[n]
      {
        if links[k].group == group && links[k].nqn != list[i].req.nqn {
          list := list[i := list[i].(valid := true)];
          break;
        }
      }
    }
  }

  method EnableEntireList(given: Notices) returns (list: Notices)
    ensures list == EnableAll(given)
  {
    list := given;
    for i := 0 to |list|
      invariant |list| == |given|
      invariant forall k :: 0 <= k < i ==> list[k] == given[k].(valid := true)
      invariant forall k :: i <= k < |list| ==> list[k] == given[k]
    {
      list := list[i := list[i].(valid := true)];
    }
  }

  /** Walks the list and takes out what is not valid. */
  method PruneNotificationList(given: Notices) returns (list: Notices)
    ensures list == Pruned(given)
  {
    list := given;
    var i := 0;
    ghost var n := 0;
    while i < |list|
      invariant i <= |list| && n <= |given| && list[i..] == given[n..] && list[..i] == Pruned(given[..n])
      decreases |given| - n
    {
      assert list[i] == list[i..][0] == given[n];
      assert given[..n + 1][..n] == given[..n];
      assert list[i + 1..] == list[i..][1..] == given[n + 1..];
      if list[i].valid {
        assert list[..i + 1] == list[..i] + [list[i]];
        i := i + 1;
      } else {
        ghost var was := list;
        list := list[..i] + list[i + 1..];
        assert list[i..] == was[i + 1..] && list[..i] == was[..i];
      }
      n := n + 1;
    }
    assert list[..i] == list && given[..n] == given;
  }

  method AnySubsysUnrestricted(subs: seq<Subsystem>) returns (b: bool)
    ensures b == AnyOpen(subs)
  {
    for s := 0 to |subs|
      invariant forall k :: 0 <= k < s ==> IsRestricted(subs[k])
    {
      if !IsRestricted(subs[s]) {
        return true;
      }
    }
    return false;
  }

  method FlagTarget(t: Target, given: Notices) returns (list: Notices)
    ensures list == ForTarget(t, given)
  {
    var open := AnySubsysUnrestricted(t.subsystems);
    if open {
      list := EnableEntireList(given);
      return;
    }
    list := given;
    for s := 0 to |t.subsystems|
      invariant list == FlagBySubsystems(t.subsystems[..s], given)
    {
      list := FlagByAccessList(t.subsystems[s].hosts, list);
      assert t.subsystems[..s + 1][..s] == t.subsystems[..s];
    }
    assert t.subsystems[..|t.subsystems|] == t.subsystems;
    list := PruneNotificationList(list);
  }

  class EventRequests {
    var pending: seq<Req>

    constructor ()
      ensures pending == []
    {
      pending := [];
    }

    /** A request comes in, and goes before the others. */
    method HandleAsyncEvent(r: Req)
      requires Distinct(pending) && forall i :: 0 <= i < |pending| ==> pending[i].id != r.id
      modifies this
      ensures pending == [r] + old(pending) && Distinct(pending)
    {
      pending := [r] + pending;
    }

    method CreateNotificationList() returns (list: Notices)
      ensures list == Created(pending)
    {
      list := [];
      for n := 0 to |pending|
        invariant list == Created(pending[..n])
      {
        assert pending[..n + 1][..n] == pending[..n];
        var found := false;
        for i := 0 to |list|
          invariant found <==> exists k :: 0 <= k < i && list[k].req.nqn == pending[n].nqn
        {
          if list[i].req.nqn == pending[n].nqn {
            found := true;
          }
        }
        if !found {
          list := list + [Notice(pending[n], false)];
        }
      }
      assert pending[..|pending|] == pending;
    }

    /** The create_event_host_list functions. */
    method CreateEventHostList(e: Event) returns (list: Notices)
      ensures list == Notified(e, pending)
    {
      match e
      case HostChange(nqn) =>
        var i := 0;
        while i < |pending| && pending[i].nqn != nqn
          invariant i <= |pending| && forall k :: 0 <= k < i ==> pending[k].nqn != nqn
        {
          i := i + 1;
        }
        FirstReqIs(pending, nqn, i);
        list := if i < |pending| then [Notice(pending[i], false)] else [];
      case SubsysChange(s) =>
        list := CreateNotificationList();
        if list == [] {
          return;
        }
        if !IsRestricted(s) {
          list := EnableEntireList(list);
          return;
        }
        list := FlagByAccessList(s.hosts, list);
        list := PruneNotificationList(list);
      case GroupChange(links, group, t) =>
        list := CreateNotificationList();
        if list == [] {
          EmptyStays(t);
          return;
        }
        list := FlagByGroupHosts(links, group, list);
        list := PruneNotificationList(list);
        if list == [] {
          EmptyStays(t);
          return;
        }
        list := FlagTarget(t, list);
      case TargetChange(t) =>
        list := CreateNotificationList();
        if list == [] {
          EmptyStays(t);
          return;
        }
        list := FlagTarget(t, list);
    }

    method DelReq(id: nat)
      modifies this
      ensures pending == WithoutReq(old(pending), id)
    {
      var i := 0;
      while i < |pending| && pending[i].id != id
        invariant i <= |pending| && pending == old(pending)
        invariant WithoutReq(pending, id) == pending[..i] + WithoutReq(pending[i..], id)
      {
        WithoutStep(pending, i, id);
        i := i + 1;
      }
      WithoutStep(pending, i, id);
      if i < |pending| {
        pending := pending[..i] + pending[i + 1..];
      }
    }

    /** Sends what is on the list and deletes the requests that it answers. */
    method SendNotifications(list: Notices, buffered: set<nat>, connected: set<nat>) returns (sent: seq<nat>)
      requires Distinct(pending)
      modifies this
      ensures pending == Remaining(old(pending), list)
      ensures sent == Completions(list, buffered, connected)
    {
      sent := [];
      RemainingNone(pending);
      for i := 0 to |list|
        invariant pending == Remaining(old(pending), list[..i])
        invariant sent == Completions(list[..i], buffered, connected)
      {
        var ep := list[i].req.ep;
        if ep in buffered {
          if ep in connected {
            sent := sent + [ep];
          }
        }
        RemainingNext(old(pending), list[..i], list[i]);
        assert list[..i + 1] == list[..i] + [list[i]];
        DelReq(list[i].req.id);
      }
      assert list[..|list|] == list;
    }

    /** A change: build the list, then send. */
    method Notify(e: Event, buffered: set<nat>, connected: set<nat>) returns (sent: seq<nat>)
      requires Distinct(pending)
      modifies this
      ensures pending == Remaining(old(pending), Notified(e, old(pending))) && Distinct(pending)
      ensures sent == Completions(Notified(e, old(pending)), buffered, connected)
    {
      var list := CreateEventHostList(e);
      RemainingIds(pending, list);
      sent := SendNotifications(list, buffered, connected);
    }
  }

  lemma EmptyStays(t: Target)
    ensures ForTarget(t, []) == []
  {
    FlagBySubsystemsIs(t.subsystems, []);
    assert FlagBySubsystems(t.subsystems, []) == [];
  }

  lemma WithoutStep(reqs: seq<Req>, i: nat, id: nat)
    requires i <= |reqs|
    ensures i == |reqs| ==> reqs[..i] + WithoutReq(reqs[i..], id) == reqs
    ensures i < |reqs| && reqs[i].id == id ==> reqs[..i] + WithoutReq(reqs[i..], id) == reqs[..i] + reqs[i + 1..]
    ensures i < |reqs| && reqs[i].id != id ==>
      reqs[..i] + WithoutReq(reqs[i..], id) == reqs[..i + 1] + WithoutReq(reqs[i + 1..], id)
  {
    if i < |reqs| {
      assert reqs[i..][1..] == reqs[i + 1..];
      assert reqs[..i + 1] == reqs[..i] + [reqs[i]];
    }
  }
}
