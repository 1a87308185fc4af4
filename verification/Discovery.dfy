/** What a host may see of the targets: the log pages that the pseudo target serves it over the
    fabric (src/dem/pseudo_target.c), the ones that the REST interface shows for it
    (src/dem/logpages.c), and the subsystems that the document lists for it (src/dem/json.c). */
module Discovery {
  import opened CTypes
  import opened DemTypes
  import opened Options
  import opened Document
  import opened DocumentRefs
  import opened DeleteHost

  datatype GroupHost = GroupHost(alias: string, nqn: string, group: nat)

  /** The target list, the group links of the hosts, and the targets of each group, given by
      their place in the target list. */
  datatype Memory = Memory(targets: seq<Target>, groupHosts: seq<GroupHost>, groupTargets: seq<seq<nat>>)

  predicate MemoryOk(m: Memory) {
    forall k :: 0 <= k < |m.groupHosts| ==> m.groupHosts[k].group < |m.groupTargets|
  }

  /** The fabric knows a host by its NQN, the REST interface by its alias. */
  datatype Who = ByNqn(nqn: string) | ByAlias(alias: string)

  predicate IsHost(h: Host, who: Who) {
    match who
    case ByNqn(nqn) => h.nqn == nqn
    case ByAlias(alias) => h.alias == alias
  }

  predicate IsMember(h: GroupHost, who: Who) {
    match who
    case ByNqn(nqn) => h.nqn == nqn
    case ByAlias(alias) => h.alias == alias
  }

  /** shared_group and indirect_shared_group. */
  predicate Shared(m: Memory, t: nat, who: Who)
    requires MemoryOk(m)
  {
    exists k :: 0 <= k < |m.groupHosts| && IsMember(m.groupHosts[k], who) && t in m.groupTargets[m.groupHosts[k].group]
  }

  /** A target is shared with a host if and only if some link of the host, by its NQN or its
      alias, is to a group that has a link to the target. */
  lemma SharedExactly(m: Memory, t: nat, name: string)
    requires MemoryOk(m)
    ensures Shared(m, t, ByNqn(name)) <==>
      exists k, j ::
        0 <= k < |m.groupHosts| && m.groupHosts[k].nqn == name &&
        0 <= j < |m.groupTargets[m.groupHosts[k].group]| && m.groupTargets[m.groupHosts[k].group][j] == t
    ensures Shared(m, t, ByAlias(name)) <==>
      exists k, j ::
        0 <= k < |m.groupHosts| && m.groupHosts[k].alias == name &&
        0 <= j < |m.groupTargets[m.groupHosts[k].group]| && m.groupTargets[m.groupHosts[k].group][j] == t
  {
    forall who | who in {ByNqn(name), ByAlias(name)} && Shared(m, t, who)
      ensures exists k, j ::
        0 <= k < |m.groupHosts| && IsMember(m.groupHosts[k], who) &&
        0 <= j < |m.groupTargets[m.groupHosts[k].group]| && m.groupTargets[m.groupHosts[k].group][j] == t
    {
      var k :| 0 <= k < |m.groupHosts| && IsMember(m.groupHosts[k], who) && t in m.groupTargets[m.groupHosts[k].group];
      var links := m.groupTargets[m.groupHosts[k].group];
      var j :| 0 <= j < |links| && links[j] == t;
    }
    assert ByNqn(name) in {ByNqn(name), ByAlias(name)} && ByAlias(name) in {ByNqn(name), ByAlias(name)};
  }

  predicate Reachable(m: Memory, t: nat, who: Who)
    requires MemoryOk(m) && t < |m.targets|
  {
    !m.targets[t].groupMember || Shared(m, t, who)
  }

  predicate Listed(s: Subsystem, who: Who) {
    exists k :: 0 <= k < |s.hosts| && IsHost(s.hosts[k], who)
  }

  predicate Sees(s: Subsystem, who: Who) {
    s.access != RESTRICTED || Listed(s, who)
  }

  // The entries of a view, in order.

  function PagesView(pages: seq<LogPage>): seq<Entry> {
    if pages == [] then []
    else
      var p := pages[|pages| - 1];
      PagesView(pages[..|pages| - 1]) + if p.valid then [p.e] else []
  }

  function SubsView(subs: seq<Subsystem>, who: Who): seq<Entry> {
    if subs == [] then []
    else
      var s := subs[|subs| - 1];
      SubsView(subs[..|subs| - 1], who) + if Sees(s, who) then PagesView(s.logpages) else []
  }

  function ViewTo(m: Memory, who: Who, n: nat): seq<Entry>
    requires MemoryOk(m) && n <= |m.targets|
  {
    if n == 0 then []
    else
      ViewTo(m, who, n - 1) + if Reachable(m, n - 1, who) then SubsView(m.targets[n - 1].subsystems, who) else []
  }

  function View(m: Memory, who: Who): seq<Entry>
    requires MemoryOk(m)
  {
    ViewTo(m, who, |m.targets|)
  }

  // The answers to a read of the log, which is told how many bytes to send.

  /** The size of the header of a log, and of each entry. */
  const ENTRY_SIZE := 1024

  /** The size of a read of the count. The fields of the header that are set lie within it. */
  const COUNT_SIZE := 16

  /** A count, a log, or an answer that is worth nothing, since the server wrote past the
      buffer that it had for it. */
  datatype Reply = Count(numrec: nat) | Log(entries: seq<Entry>) | Overrun

  /** Whether the header and n entries fit into a buffer. */
  predicate Fits(len: nat, n: nat) {
    COUNT_SIZE <= len && (n > 0 ==> ENTRY_SIZE * (n + 1) <= len)
  }

  function Answer(m: Memory, nqn: string, len: nat): Reply
    requires MemoryOk(m)
  {
    var view := View(m, ByNqn(nqn));
    if len == COUNT_SIZE then Count(|view|) else if Fits(len, |view|) then Log(view) else Overrun
  }

  // What selects an entry.

  /** An entry comes from a valid page of a subsystem that the host sees. */
  ghost predicate Visible(m: Memory, who: Who, e: Entry)
    requires MemoryOk(m)
  {
    exists t, s, p :: 0 <= t < |m.targets| && 0 <= s < |m.targets[t].subsystems| &&
      0 <= p < |m.targets[t].subsystems[s].logpages| && Reachable(m, t, who) &&
      Sees(m.targets[t].subsystems[s], who) &&
      m.targets[t].subsystems[s].logpages[p] == LogPage(e, true)
  }

  lemma {:induction false} PagesViewHas(pages: seq<LogPage>, e: Entry)
    ensures e in PagesView(pages) <==> LogPage(e, true) in pages
  {
    if pages != [] {
      var n := |pages| - 1;
      PagesViewHas(pages[..n], e);
      assert pages == pages[..n] + [pages[n]];
    }
  }

  lemma {:induction false} SubsViewHas(subs: seq<Subsystem>, who: Who, e: Entry)
    ensures e in SubsView(subs, who) <==>
      exists s :: 0 <= s < |subs| && Sees(subs[s], who) && LogPage(e, true) in subs[s].logpages
  {
    if subs != [] {
      var n := |subs| - 1;
      SubsViewHas(subs[..n], who, e);
      PagesViewHas(subs[n].logpages, e);
      assert forall s :: 0 <= s < n ==> subs[..n][s] == subs[s];
    }
  }

  lemma {:induction false} ViewToHas(m: Memory, who: Who, n: nat, e: Entry)
    requires MemoryOk(m) && n <= |m.targets|
    ensures e in ViewTo(m, who, n) <==>
      exists t :: 0 <= t < n && Reachable(m, t, who) && e in SubsView(m.targets[t].subsystems, who)
  {
    if n > 0 {
      ViewToHas(m, who, n - 1, e);
    }
  }

  /** A host is shown exactly the valid pages of the subsystems that it sees. */
  lemma ViewIsVisible(m: Memory, who: Who, e: Entry)
    requires MemoryOk(m)
    ensures e in View(m, who) <==> Visible(m, who, e)
  {
    ViewToHas(m, who, |m.targets|, e);
    forall t | 0 <= t < |m.targets| {
      SubsViewHas(m.targets[t].subsystems, who, e);
    }
    if e in View(m, who) {
      var t :| 0 <= t < |m.targets| && Reachable(m, t, who) && e in SubsView(m.targets[t].subsystems, who);
      var subs := m.targets[t].subsystems;
      var s :| 0 <= s < |subs| && Sees(subs[s], who) && LogPage(e, true) in subs[s].logpages;
      var p :| 0 <= p < |subs[s].logpages| && subs[s].logpages[p] == LogPage(e, true);
      assert m.targets[t].subsystems[s].logpages[p] == LogPage(e, true);
    }
    if Visible(m, who, e) {
      var t, s, p :| 0 <= t < |m.targets| && 0 <= s < |m.targets[t].subsystems| &&
        0 <= p < |m.targets[t].subsystems[s].logpages| && Reachable(m, t, who) &&
        Sees(m.targets[t].subsystems[s], who) && m.targets[t].subsystems[s].logpages[p] == LogPage(e, true);
      assert LogPage(e, true) in m.targets[t].subsystems[s].logpages;
      assert e in SubsView(m.targets[t].subsystems, who);
    }
  }

  // Alias and NQN.

  predicate HostsCorrespond(hosts: seq<Host>, alias: string, nqn: string) {
    forall k :: 0 <= k < |hosts| ==> (hosts[k].alias == alias <==> hosts[k].nqn == nqn)
  }

  /** Wherever the memory names a host, it has this alias exactly when it has this NQN. */
  ghost predicate Correspond(m: Memory, alias: string, nqn: string) {
    && (forall t, s :: 0 <= t < |m.targets| && 0 <= s < |m.targets[t].subsystems| ==>
         HostsCorrespond(m.targets[t].subsystems[s].hosts, alias, nqn))
    && (forall k :: 0 <= k < |m.groupHosts| ==> (m.groupHosts[k].alias == alias <==> m.groupHosts[k].nqn == nqn))
  }

  lemma SameSight(m: Memory, alias: string, nqn: string)
    requires MemoryOk(m) && Correspond(m, alias, nqn)
    ensures forall t :: 0 <= t < |m.targets| ==> Reachable(m, t, ByNqn(nqn)) == Reachable(m, t, ByAlias(alias))
    ensures forall t, s :: 0 <= t < |m.targets| && 0 <= s < |m.targets[t].subsystems| ==>
      Sees(m.targets[t].subsystems[s], ByNqn(nqn)) == Sees(m.targets[t].subsystems[s], ByAlias(alias))
  {
    forall t, s | 0 <= t < |m.targets| && 0 <= s < |m.targets[t].subsystems|
      ensures Listed(m.targets[t].subsystems[s], ByNqn(nqn)) == Listed(m.targets[t].subsystems[s], ByAlias(alias))
    {
      var hosts := m.targets[t].subsystems[s].hosts;
      assert HostsCorrespond(hosts, alias, nqn);
      assert forall k :: 0 <= k < |hosts| ==> IsHost(hosts[k], ByNqn(nqn)) == IsHost(hosts[k], ByAlias(alias));
    }
    assert forall k :: 0 <= k < |m.groupHosts| ==>
      IsMember(m.groupHosts[k], ByNqn(nqn)) == IsMember(m.groupHosts[k], ByAlias(alias));
  }

  lemma {:induction false} SubsAgree(subs: seq<Subsystem>, a: Who, b: Who)
    requires forall s :: 0 <= s < |subs| ==> Sees(subs[s], a) == Sees(subs[s], b)
    ensures SubsView(subs, a) == SubsView(subs, b)
  {
    if subs != [] {
      assert forall s :: 0 <= s < |subs| - 1 ==> subs[..|subs| - 1][s] == subs[s];
      SubsAgree(subs[..|subs| - 1], a, b);
    }
  }

  lemma {:induction false} ViewsAgreeTo(m: Memory, alias: string, nqn: string, n: nat)
    requires MemoryOk(m) && Correspond(m, alias, nqn) && n <= |m.targets|
    ensures ViewTo(m, ByNqn(nqn), n) == ViewTo(m, ByAlias(alias), n)
  {
    if n > 0 {
      ViewsAgreeTo(m, alias, nqn, n - 1);
      SameSight(m, alias, nqn);
      SubsAgree(m.targets[n - 1].subsystems, ByNqn(nqn), ByAlias(alias));
    }
  }

  /** A host whose alias and NQN correspond is shown the same entries in the same order over
      the fabric and over REST. */
  lemma ViewsAgree(m: Memory, alias: string, nqn: string)
    requires MemoryOk(m) && Correspond(m, alias, nqn)
    ensures View(m, ByNqn(nqn)) == View(m, ByAlias(alias))
  {
    ViewsAgreeTo(m, alias, nqn, |m.targets|);
  }

  // The lists of the document.

  /** The subsystems that the document lists for a host: those that any host may see, and
      those that allow it. */
  datatype HostList = HostList(shared: seq<(string, string)>, restricted: seq<(string, string)>)

  predicate AllowsAny(s: SubsysObj) {
    s.allowAny.Some? && s.allowAny.value != 0
  }

  function TimesIn(hosts: seq<string>, host: string, item: (string, string)): seq<(string, string)> {
    if hosts == [] then []
    else TimesIn(hosts[..|hosts| - 1], host, item) + if hosts[|hosts| - 1] == host then [item] else []
  }

  function ListSubs(alias: string, subs: seq<SubsysObj>, host: string, list: HostList): HostList {
    if subs == [] then list
    else
      AddSub(alias, subs[|subs| - 1], host, ListSubs(alias, subs[..|subs| - 1], host, list))
  }

  function AddSub(alias: string, s: SubsysObj, host: string, list: HostList): HostList {
    if AllowsAny(s) then list.(shared := list.shared + [(alias, s.nqn)])
    else list.(restricted := list.restricted + TimesIn(s.hosts, host, (alias, s.nqn)))
  }

  /** The place in memory of a target of the document, or the length. */
  function FindTargetIn(targets: seq<Target>, alias: string): (i: nat)
    ensures i <= |targets| && (forall k :: 0 <= k < i ==> targets[k].alias != alias)
    ensures i < |targets| ==> targets[i].alias == alias
  {
    if targets == [] || targets[0].alias == alias then 0 else 1 + FindTargetIn(targets[1..], alias)
  }

  predicate Skips(m: Memory, alias: string, host: string)
    requires MemoryOk(m)
  {
    var t := FindTargetIn(m.targets, alias);
    t < |m.targets| && m.targets[t].groupMember && !Shared(m, t, ByAlias(host))
  }

  function ListTo(d: Doc, m: Memory, host: string, n: nat): HostList
    requires MemoryOk(m) && n <= |d.targets|
  {
    if n == 0 then HostList([], [])
    else
      var so, t := ListTo(d, m, host, n - 1), d.targets[n - 1];
      if Skips(m, t.alias, host) then so else ListSubs(t.alias, t.subsystems, host, so)
  }

  function ListOf(d: Doc, m: Memory, host: string): HostList
    requires MemoryOk(m)
  {
    ListTo(d, m, host, |d.targets|)
  }

  /** The memory mirrors the document, in the access rights too. */
  ghost predicate Same(d: Doc, m: Memory) {
    && Mirrors(d, m.targets)
    && forall i, j :: 0 <= i < |d.targets| && 0 <= j < |d.targets[i].subsystems| ==>
         (AllowsAny(d.targets[i].subsystems[j]) <==> !IsRestricted(m.targets[i].subsystems[j]))
  }

  /** The subsystems of the memory that a host sees, in order, open or restricted. */
  function SeenSubs(alias: string, subs: seq<Subsystem>, who: Who, open: bool): seq<(string, string)> {
    if subs == [] then []
    else
      SeenSubs(alias, subs[..|subs| - 1], who, open) + SeenSub(alias, subs[|subs| - 1], who, open)
  }

  function SeenSub(alias: string, s: Subsystem, who: Who, open: bool): seq<(string, string)> {
    if Sees(s, who) && IsRestricted(s) == !open then [(alias, s.nqn)] else []
  }

  function SeenTo(m: Memory, who: Who, open: bool, n: nat): seq<(string, string)>
    requires MemoryOk(m) && n <= |m.targets|
  {
    if n == 0 then []
    else
      var t := m.targets[n - 1];
      SeenTo(m, who, open, n - 1) + if Reachable(m, n - 1, who) then SeenSubs(t.alias, t.subsystems, who, open) else []
  }

  lemma {:induction false} TimesInOnce(hosts: seq<string>, host: string, item: (string, string))
    requires NoDup(hosts)
    ensures TimesIn(hosts, host, item) == if host in hosts then [item] else []
  {
    if hosts != [] {
      var n := |hosts| - 1;
      TimesInOnce(hosts[..n], host, item);
      assert hosts == hosts[..n] + [hosts[n]];
    }
  }

  lemma ListedAliases(s: Subsystem, alias: string)
    ensures Listed(s, ByAlias(alias)) <==> alias in Aliases(s.hosts)
  {
    if alias in Aliases(s.hosts) {
      var k :| 0 <= k < |s.hosts| && Aliases(s.hosts)[k] == alias;
      assert IsHost(s.hosts[k], ByAlias(alias));
    }
    if Listed(s, ByAlias(alias)) {
      var k :| 0 <= k < |s.hosts| && IsHost(s.hosts[k], ByAlias(alias));
      assert Aliases(s.hosts)[k] == alias;
    }
  }

  /** The memory's subsystem is that of the document. */
  ghost predicate SameSub(s: SubsysObj, m: Subsystem) {
    && m.nqn == s.nqn && Aliases(m.hosts) == s.hosts && NoDup(s.hosts)
    && (AllowsAny(s) <==> !IsRestricted(m))
  }

  ghost predicate AllSame(subs: seq<SubsysObj>, mem: seq<Subsystem>)
    requires |subs| == |mem|
  {
    subs == [] ||
    var n := |subs| - 1;
    AllSame(subs[..n], mem[..n]) && SameSub(subs[n], mem[n])
  }

  lemma {:induction false} EachSame(subs: seq<SubsysObj>, mem: seq<Subsystem>)
    requires |subs| == |mem| && forall j :: 0 <= j < |subs| ==> SameSub(subs[j], mem[j])
    ensures AllSame(subs, mem)
  {
    if subs != [] {
      var n := |subs| - 1;
      assert forall j :: 0 <= j < n ==> subs[..n][j] == subs[j] && mem[..n][j] == mem[j];
      EachSame(subs[..n], mem[..n]);
    }
  }

  lemma SubListed(alias: string, s: SubsysObj, m: Subsystem, host: string, list: HostList)
    requires SameSub(s, m)
    ensures AddSub(alias, s, host, list) ==
      HostList(list.shared + SeenSub(alias, m, ByAlias(host), true), list.restricted + SeenSub(alias, m, ByAlias(host), false))
  {
    TimesInOnce(s.hosts, host, (alias, s.nqn));
    ListedAliases(m, host);
  }

  lemma {:induction false} SubsListed(alias: string, subs: seq<SubsysObj>, mem: seq<Subsystem>, host: string, list: HostList)
    requires |subs| == |mem| && AllSame(subs, mem)
    ensures ListSubs(alias, subs, host, list) ==
      HostList(list.shared + SeenSubs(alias, mem, ByAlias(host), true), list.restricted + SeenSubs(alias, mem, ByAlias(host), false))
    decreases |subs|
  {
    if subs != [] {
      var n := |subs| - 1;
      SubsListed(alias, subs[..n], mem[..n], host, list);
      SubListed(alias, subs[n], mem[n], host, ListSubs(alias, subs[..n], host, list));
      Regroup(list.shared, SeenSubs(alias, mem[..n], ByAlias(host), true), SeenSub(alias, mem[n], ByAlias(host), true));
      Regroup(list.restricted, SeenSubs(alias, mem[..n], ByAlias(host), false), SeenSub(alias, mem[n], ByAlias(host), false));
    }
  }

  lemma Regroup<T>(a: seq<T>, b: seq<T>, c: seq<T>)
    ensures (a + b) + c == a + (b + c)
  {
  }

  /** The first n targets of the document are where they should be in memory, with the same
      subsystems. */
  ghost predicate Aligned(d: Doc, m: Memory, n: nat)
    requires n <= |d.targets| == |m.targets|
  {
    n == 0 ||
    var t, u := d.targets[n - 1], m.targets[n - 1];
    && Aligned(d, m, n - 1) && t.alias == u.alias && FindTargetIn(m.targets, t.alias) == n - 1
    && |t.subsystems| == |u.subsystems| && AllSame(t.subsystems, u.subsystems)
  }

  lemma {:induction false} SameAligned(d: Doc, m: Memory, n: nat)
    requires Inv(d) && Same(d, m) && n <= |d.targets|
    ensures |m.targets| == |d.targets| && Aligned(d, m, n)
  {
    if n > 0 {
      SameAligned(d, m, n - 1);
      PlaceInMemory(d, m, n - 1);
      SameSubs(d, m, n - 1);
      assert d.targets[n - 1].alias == m.targets[n - 1].alias;
    }
  }

  lemma {:induction false} ListSeen(d: Doc, m: Memory, host: string, n: nat)
    requires MemoryOk(m) && n <= |d.targets| == |m.targets| && Aligned(d, m, n)
    ensures ListTo(d, m, host, n) == HostList(SeenTo(m, ByAlias(host), true, n), SeenTo(m, ByAlias(host), false, n))
  {
    if n > 0 {
      var t := d.targets[n - 1];
      ListSeen(d, m, host, n - 1);
      SubsListed(t.alias, t.subsystems, m.targets[n - 1].subsystems, host, ListTo(d, m, host, n - 1));
    }
  }

  lemma SameSubs(d: Doc, m: Memory, n: nat)
    requires Inv(d) && Same(d, m) && n < |d.targets|
    ensures |d.targets[n].subsystems| == |m.targets[n].subsystems|
    ensures AllSame(d.targets[n].subsystems, m.targets[n].subsystems)
  {
    assert forall j :: 0 <= j < |d.targets[n].subsystems| ==> SubOk(HostNames(d.hosts), d.targets[n].subsystems[j]);
    EachSame(d.targets[n].subsystems, m.targets[n].subsystems);
  }

  lemma PlaceInMemory(d: Doc, m: Memory, n: nat)
    requires Inv(d) && Mirrors(d, m.targets) && n < |d.targets|
    ensures FindTargetIn(m.targets, d.targets[n].alias) == n
  {
    var names := TargetNames(d.targets);
    forall k | 0 <= k < n
      ensures m.targets[k].alias != d.targets[n].alias
    {
      assert names[k] == d.targets[k].alias && names[n] == d.targets[n].alias;
    }
    assert m.targets[n].alias == d.targets[n].alias;
  }

  lemma {:induction false} SeenAgree(m: Memory, alias: string, nqn: string, open: bool, n: nat)
    requires MemoryOk(m) && Correspond(m, alias, nqn) && n <= |m.targets|
    ensures SeenTo(m, ByNqn(nqn), open, n) == SeenTo(m, ByAlias(alias), open, n)
  {
    if n > 0 {
      SeenAgree(m, alias, nqn, open, n - 1);
      SameSight(m, alias, nqn);
      SeenSubsAgree(m.targets[n - 1].alias, m.targets[n - 1].subsystems, ByNqn(nqn), ByAlias(alias), open);
    }
  }

  lemma {:induction false} SeenSubsAgree(alias: string, subs: seq<Subsystem>, a: Who, b: Who, open: bool)
    requires forall s :: 0 <= s < |subs| ==> Sees(subs[s], a) == Sees(subs[s], b)
    ensures SeenSubs(alias, subs, a, open) == SeenSubs(alias, subs, b, open)
    decreases |subs|
  {
    if subs != [] {
      assert forall s :: 0 <= s < |subs| - 1 ==> subs[..|subs| - 1][s] == subs[s];
      SeenSubsAgree(alias, subs[..|subs| - 1], a, b, open);
    }
  }

  /** When the memory mirrors the document, the document lists for a host exactly the
      subsystems whose pages the fabric serves it, in the same order and each once: open ones
      as shared, the others as restricted. */
  lemma ListAgrees(d: Doc, m: Memory, alias: string, nqn: string)
    requires Inv(d) && MemoryOk(m) && Same(d, m) && Correspond(m, alias, nqn)
    ensures ListOf(d, m, alias) ==
      HostList(SeenTo(m, ByNqn(nqn), true, |m.targets|), SeenTo(m, ByNqn(nqn), false, |m.targets|))
  {
    SameAligned(d, m, |d.targets|);
    ListSeen(d, m, alias, |d.targets|);
    SeenAgree(m, alias, nqn, true, |m.targets|);
    SeenAgree(m, alias, nqn, false, |m.targets|);
  }

  // The loops.

  method SharedGroup(m: Memory, t: nat, who: Who) returns (shared: bool)
    requires MemoryOk(m)
    ensures shared == Shared(m, t, who)
    ensures who.ByNqn? ==>
      (shared <==> exists k, j ::
        0 <= k < |m.groupHosts| && m.groupHosts[k].nqn == who.nqn &&
        0 <= j < |m.groupTargets[m.groupHosts[k].group]| && m.groupTargets[m.groupHosts[k].group][j] == t)
    ensures who.ByAlias? ==>
      (shared <==> exists k, j ::
        0 <= k < |m.groupHosts| && m.groupHosts[k].alias == who.alias &&
        0 <= j < |m.groupTargets[m.groupHosts[k].group]| && m.groupTargets[m.groupHosts[k].group][j] == t)
  {
    SharedExactly(m, t, if who.ByNqn? then who.nqn else who.alias);
    for k := 0 to |m.groupHosts|
      invariant forall n :: 0 <= n < k ==>
        !(IsMember(m.groupHosts[n], who) && t in m.groupTargets[m.groupHosts[n].group])
    {
      if IsMember(m.groupHosts[k], who) {
        var links := m.groupTargets[m.groupHosts[k].group];
        for j := 0 to |links|
          invariant t !in links[..j]
        {
          if links[j] == t {
            return true;
          }
        }
        assert links[..|links|] == links;
      }
    }
    return false;
  }

  method HostAccess(s: Subsystem, who: Who) returns (b: bool)
    ensures b == Listed(s, who)
  {
    for k := 0 to |s.hosts|
      invariant forall n :: 0 <= n < k ==> !IsHost(s.hosts[n], who)
    {
      if IsHost(s.hosts[k], who) {
        return true;
      }
    }
    return false;
  }

  /** The pages that the fabric counts for one subsystem. The access rights are looked at for
      every page. */
  method CountPages(s: Subsystem, nqn: string) returns (n: nat)
    ensures n == if Sees(s, ByNqn(nqn)) then |PagesView(s.logpages)| else 0
  {
    n := 0;
    for p := 0 to |s.logpages|
      invariant n == if Sees(s, ByNqn(nqn)) then |PagesView(s.logpages[..p])| else 0
    {
      assert s.logpages[..p + 1][..p] == s.logpages[..p];
      if !s.logpages[p].valid {
        continue;
      }
      var listed := HostAccess(s, ByNqn(nqn));
      if s.access != 0 || listed {
        n := n + 1;
      }
    }
    assert s.logpages[..|s.logpages|] == s.logpages;
  }

  /** The buffer for a log: the entries copied into it, and whether any of the copies, or the
      header, went past its end. */
  class LogBuffer {
    const len: nat
    var entries: seq<Entry>
    var overrun: bool

    predicate Valid()
      reads this
    {
      overrun <==> entries != [] && ENTRY_SIZE * (|entries| + 1) > len
    }

    constructor (size: nat)
      ensures len == size && entries == [] && Valid()
    {
      len, entries, overrun := size, [], false;
    }

    /** The copy of an entry to the place after the ones before. */
    method CopyEntry(e: Entry)
      requires Valid()
      modifies this
      ensures Valid() && entries == old(entries) + [e]
    {
      var offset := ENTRY_SIZE + ENTRY_SIZE * |entries|;
      if offset + ENTRY_SIZE > len {
        overrun := true;
      }
      entries := entries + [e];
    }

    method SetHeader()
      requires Valid()
      modifies `overrun
      ensures overrun <==> !Fits(len, |entries|)
    {
      if COUNT_SIZE > len {
        overrun := true;
      }
    }
  }

  /** The pages that the fabric copies for one subsystem. */
  method CopyPages(log: LogBuffer, s: Subsystem, nqn: string)
    requires log.Valid()
    modifies log
    ensures log.Valid()
    ensures log.entries == old(log.entries) + if Sees(s, ByNqn(nqn)) then PagesView(s.logpages) else []
  {
    for p := 0 to |s.logpages|
      invariant log.Valid()
      invariant log.entries == old(log.entries) + if Sees(s, ByNqn(nqn)) then PagesView(s.logpages[..p]) else []
    {
      assert s.logpages[..p + 1][..p] == s.logpages[..p];
      if !s.logpages[p].valid {
        continue;
      }
      var listed := HostAccess(s, ByNqn(nqn));
      if s.access != 0 || listed {
        log.CopyEntry(s.logpages[p].e);
      }
    }
    assert s.logpages[..|s.logpages|] == s.logpages;
  }

  method CountSubs(subs: seq<Subsystem>, nqn: string) returns (n: nat)
    ensures n == |SubsView(subs, ByNqn(nqn))|
  {
    n := 0;
    for s := 0 to |subs|
      invariant n == |SubsView(subs[..s], ByNqn(nqn))|
    {
      var counted := CountPages(subs[s], nqn);
      n := n + counted;
      assert subs[..s + 1][..s] == subs[..s];
    }
    assert subs[..|subs|] == subs;
  }

  method CopySubs(log: LogBuffer, subs: seq<Subsystem>, nqn: string)
    requires log.Valid()
    modifies log
    ensures log.Valid() && log.entries == old(log.entries) + SubsView(subs, ByNqn(nqn))
  {
    for s := 0 to |subs|
      invariant log.Valid() && log.entries == old(log.entries) + SubsView(subs[..s], ByNqn(nqn))
    {
      CopyPages(log, subs[s], nqn);
      assert subs[..s + 1][..s] == subs[..s];
    }
    assert subs[..|subs|] == subs;
  }

  /** The count that the fabric sends: as many as the entries that it would send. */
  method HandleGetLogPageCount(m: Memory, nqn: string) returns (numrec: nat)
    requires MemoryOk(m)
    ensures numrec == |View(m, ByNqn(nqn))|
  {
    numrec := 0;
    for t := 0 to |m.targets|
      invariant numrec == |ViewTo(m, ByNqn(nqn), t)|
    {
      if m.targets[t].groupMember {
        var shared := SharedGroup(m, t, ByNqn(nqn));
        if !shared {
          continue;
        }
      }
      var n := CountSubs(m.targets[t].subsystems, nqn);
      numrec := numrec + n;
    }
  }

  /** The entries that the fabric sends. Nothing stops the copying at the end of the buffer. */
  method HandleGetLogPages(m: Memory, nqn: string, len: nat) returns (reply: Reply)
    requires MemoryOk(m)
    ensures reply == if Fits(len, |View(m, ByNqn(nqn))|) then Log(View(m, ByNqn(nqn))) else Overrun
  {
    var log := new LogBuffer(len);
    for t := 0 to |m.targets|
      invariant log.Valid() && log.entries == ViewTo(m, ByNqn(nqn), t)
    {
      if m.targets[t].groupMember {
        var shared := SharedGroup(m, t, ByNqn(nqn));
        if !shared {
          continue;
        }
      }
      CopySubs(log, m.targets[t].subsystems, nqn);
    }
    log.SetHeader();
    return if log.overrun then Overrun else Log(log.entries);
  }

  /** The two reads are told apart by their size. */
  method HandleGetLogPage(m: Memory, nqn: string, len: nat) returns (reply: Reply)
    requires MemoryOk(m)
    ensures reply == Answer(m, nqn, len)
  {
    if len == COUNT_SIZE {
      var numrec := HandleGetLogPageCount(m, nqn);
      reply := Count(numrec);
    } else {
      reply := HandleGetLogPages(m, nqn, len);
    }
  }

  method ShowSubs(subs: seq<Subsystem>, alias: string) returns (log: seq<Entry>)
    ensures log == SubsView(subs, ByAlias(alias))
  {
    log := [];
    for s := 0 to |subs|
      invariant log == SubsView(subs[..s], ByAlias(alias))
    {
      assert subs[..s + 1][..s] == subs[..s];
      if IsRestricted(subs[s]) {
        var listed := HostAccess(subs[s], ByAlias(alias));
        if !listed {
          continue;
        }
      }
      var pages, so := subs[s].logpages, log;
      for p := 0 to |pages|
        invariant log == so + PagesView(pages[..p])
      {
        assert pages[..p + 1][..p] == pages[..p];
        if pages[p].valid {
          log := log + [pages[p].e];
        }
      }
      assert pages[..|pages|] == pages;
    }
    assert subs[..|subs|] == subs;
  }

  /** The entries that the REST interface shows for a host. */
  method HostLogPage(m: Memory, alias: string) returns (log: seq<Entry>)
    requires MemoryOk(m)
    ensures log == View(m, ByAlias(alias))
  {
    log := [];
    for t := 0 to |m.targets|
      invariant log == ViewTo(m, ByAlias(alias), t)
    {
      if m.targets[t].groupMember {
        var shared := SharedGroup(m, t, ByAlias(alias));
        if !shared {
          continue;
        }
      }
      var shown := ShowSubs(m.targets[t].subsystems, alias);
      log := log + shown;
    }
  }

  /** get_host_subsystems. */
  method GetHostSubsystems(d: Doc, m: Memory, host: string) returns (list: HostList)
    requires MemoryOk(m)
    ensures list == ListOf(d, m, host)
  {
    list := HostList([], []);
    for i := 0 to |d.targets|
      invariant list == ListTo(d, m, host, i)
    {
      var alias, subs := d.targets[i].alias, d.targets[i].subsystems;
      var t := FindTargetIn(m.targets, alias);
      if t < |m.targets| && m.targets[t].groupMember {
        var shared := SharedGroup(m, t, ByAlias(host));
        if !shared {
          continue;
        }
      }
      ghost var before := list;
      for j := 0 to |subs|
        invariant list == ListSubs(alias, subs[..j], host, before)
      {
        assert subs[..j + 1][..j] == subs[..j];
        var item := (alias, subs[j].nqn);
        if AllowsAny(subs[j]) {
          list := list.(shared := list.shared + [item]);
        } else {
          var hosts := subs[j].hosts;
          ghost var so := list;
          for k := 0 to |hosts|
            invariant list == so.(restricted := so.restricted + TimesIn(hosts[..k], host, item))
          {
            assert hosts[..k + 1][..k] == hosts[..k];
            if hosts[k] == host {
              list := list.(restricted := list.restricted + [item]);
            }
          }
          assert hosts[..|hosts|] == hosts;
        }
      }
      assert subs[..|subs|] == subs;
    }
  }
}
