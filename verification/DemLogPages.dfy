/** How the DEM merges the logs of a target's discovery queues into the log pages of the
    target's subsystems and its unattached list (src/dem/logpages.c). */
module DemLogPages {
  import opened DemTypes
  import opened Options
  import L = LogStore

  /** What a target holds: its subsystems with their log pages, and the entries of the other
      subsystems. */
  datatype Store = Store(subs: seq<Subsystem>, unattached: seq<Entry>)

  // Looking up.

  function FindSub(subs: seq<Subsystem>, nqn: string): (i: nat)
    ensures i <= |subs| && (forall k :: 0 <= k < i ==> subs[k].nqn != nqn)
    ensures i < |subs| ==> subs[i].nqn == nqn
  {
    if subs == [] || subs[0].nqn == nqn then 0 else 1 + FindSub(subs[1..], nqn)
  }

  function FindPage(pages: seq<LogPage>, key: Key): (j: nat)
    ensures j <= |pages| && (forall k :: 0 <= k < j ==> KeyOf(pages[k].e) != key)
    ensures j < |pages| ==> KeyOf(pages[j].e) == key
  {
    if pages == [] || KeyOf(pages[0].e) == key then 0 else 1 + FindPage(pages[1..], key)
  }

  function FindEntry(entries: seq<Entry>, k: LogKey): (j: nat)
    ensures j <= |entries| && (forall n :: 0 <= n < j ==> LogKeyOf(entries[n]) != k)
    ensures j < |entries| ==> LogKeyOf(entries[j]) == k
  {
    if entries == [] || LogKeyOf(entries[0]) == k then 0 else 1 + FindEntry(entries[1..], k)
  }

  function PageAt(pages: seq<LogPage>, key: Key): Option<LogPage> {
    var j := FindPage(pages, key);
    if j < |pages| then Some(pages[j]) else None
  }

  function EntryAt(entries: seq<Entry>, k: LogKey): Option<Entry> {
    var j := FindEntry(entries, k);
    if j < |entries| then Some(entries[j]) else None
  }

  lemma SubIs(subs: seq<Subsystem>, nqn: string, i: nat)
    requires i <= |subs| && (forall k :: 0 <= k < i ==> subs[k].nqn != nqn)
    requires i < |subs| ==> subs[i].nqn == nqn
    ensures FindSub(subs, nqn) == i
  {
  }

  lemma PageIs(pages: seq<LogPage>, key: Key, j: nat)
    requires j <= |pages| && (forall k :: 0 <= k < j ==> KeyOf(pages[k].e) != key)
    requires j < |pages| ==> KeyOf(pages[j].e) == key
    ensures FindPage(pages, key) == j
  {
  }

  lemma EntryIs(entries: seq<Entry>, k: LogKey, j: nat)
    requires j <= |entries| && (forall n :: 0 <= n < j ==> LogKeyOf(entries[n]) != k)
    requires j < |entries| ==> LogKeyOf(entries[j]) == k
    ensures FindEntry(entries, k) == j
  {
  }

  ghost predicate PagesOk(pages: seq<LogPage>) {
    forall j, k :: 0 <= j < k < |pages| ==> KeyOf(pages[j].e) != KeyOf(pages[k].e)
  }

  /** Keys are distinct in every list, and an unattached entry belongs to no subsystem here. */
  ghost predicate WellFormed(s: Store) {
    && (forall i :: 0 <= i < |s.subs| ==> PagesOk(s.subs[i].logpages))
    && (forall j, k :: 0 <= j < k < |s.unattached| ==> LogKeyOf(s.unattached[j]) != LogKeyOf(s.unattached[k]))
    && (forall j :: 0 <= j < |s.unattached| ==> FindSub(s.subs, s.unattached[j].subnqn) == |s.subs|)
  }

  // Saving.

  /** The newest entry replaces the contents of a page with its key. */
  function SavePage(pages: seq<LogPage>, e: Entry): seq<LogPage> {
    var j := FindPage(pages, KeyOf(e));
    if j < |pages| then pages[j := LogPage(e, true)] else pages + [LogPage(e, true)]
  }

  function SaveEntry(s: Store, e: Entry): Store {
    var i := FindSub(s.subs, e.subnqn);
    if i < |s.subs| then
      s.(subs := s.subs[i := s.subs[i].(logpages := SavePage(s.subs[i].logpages, e))])
    else if FindEntry(s.unattached, LogKeyOf(e)) < |s.unattached| then s
    else s.(unattached := s.unattached + [e])
  }

  function Save(s: Store, log: seq<Entry>): Store {
    if log == [] then s else SaveEntry(Save(s, log[..|log| - 1]), log[|log| - 1])
  }

  function Invalidated(s: Store): Store {
    Store(seq(|s.subs|, i requires 0 <= i < |s.subs| => InvalidSub(s.subs[i])), [])
  }

  function InvalidSub(sub: Subsystem): Subsystem {
    var pages := sub.logpages;
    sub.(logpages := seq(|pages|, j requires 0 <= j < |pages| => pages[j].(valid := false)))
  }

  /** The last entry of a log with a key. */
  function Last(log: seq<Entry>, k: LogKey): Option<Entry> {
    if log == [] then None
    else if LogKeyOf(log[|log| - 1]) == k then Some(log[|log| - 1])
    else Last(log[..|log| - 1], k)
  }

  /** The subsystems, but for their log pages, stay the same. */
  ghost predicate SameSubs(a: seq<Subsystem>, b: seq<Subsystem>) {
    |a| == |b| && forall i :: 0 <= i < |a| ==> a[i].(logpages := []) == b[i].(logpages := [])
  }

  lemma SameNames(a: seq<Subsystem>, b: seq<Subsystem>, nqn: string)
    requires SameSubs(a, b)
    ensures FindSub(a, nqn) == FindSub(b, nqn)
  {
    var i := FindSub(a, nqn);
    assert forall k :: 0 <= k < |a| ==> a[k].(logpages := []).nqn == b[k].(logpages := []).nqn;
    SubIs(b, nqn, i);
  }

  lemma SavePageLook(pages: seq<LogPage>, e: Entry, key: Key)
    requires PagesOk(pages)
    ensures PagesOk(SavePage(pages, e))
    ensures PageAt(SavePage(pages, e), key) ==
      if key == KeyOf(e) then Some(LogPage(e, true)) else PageAt(pages, key)
  {
    var j, now := FindPage(pages, key), SavePage(pages, e);
    PageIs(now, key, if j == |pages| && key != KeyOf(e) then |now| else j);
  }

  lemma SaveEntryOk(s: Store, e: Entry)
    requires WellFormed(s)
    ensures WellFormed(SaveEntry(s, e)) && SameSubs(SaveEntry(s, e).subs, s.subs)
  {
    var i, now := FindSub(s.subs, e.subnqn), SaveEntry(s, e);
    if i < |s.subs| {
      SavePageLook(s.subs[i].logpages, e, KeyOf(e));
    }
    forall j | 0 <= j < |now.unattached|
      ensures FindSub(now.subs, now.unattached[j].subnqn) == |now.subs|
    {
      SameNames(s.subs, now.subs, now.unattached[j].subnqn);
    }
  }

  lemma {:induction false} SaveOk(s: Store, log: seq<Entry>)
    requires WellFormed(s)
    ensures WellFormed(Save(s, log)) && SameSubs(Save(s, log).subs, s.subs)
  {
    if log != [] {
      SaveOk(s, log[..|log| - 1]);
      SaveEntryOk(Save(s, log[..|log| - 1]), log[|log| - 1]);
    }
  }

  /** Whether entries with subsystem i's NQN are saved there: it is the first with that name. */
  predicate IsHome(subs: seq<Subsystem>, i: nat)
    requires i < |subs|
  {
    FindSub(subs, subs[i].nqn) == i
  }

  lemma {:induction false} SaveLook(s: Store, log: seq<Entry>, i: nat, key: Key)
    requires WellFormed(s) && i < |s.subs|
    ensures |Save(s, log).subs| == |s.subs|
    ensures PageAt(Save(s, log).subs[i].logpages, key) ==
      match Last(log, (s.subs[i].nqn, key))
      case Some(e) => if IsHome(s.subs, i) then Some(LogPage(e, true)) else PageAt(s.subs[i].logpages, key)
      case None => PageAt(s.subs[i].logpages, key)
  {
    SaveOk(s, log);
    if log != [] {
      var n := |log| - 1;
      var before, e := Save(s, log[..n]), log[n];
      SaveOk(s, log[..n]);
      SaveLook(s, log[..n], i, key);
      SameNames(s.subs, before.subs, e.subnqn);
      SameNames(s.subs, before.subs, s.subs[i].nqn);
      assert s.subs[i].(logpages := []).nqn == before.subs[i].(logpages := []).nqn;
      if FindSub(before.subs, e.subnqn) == i {
        SavePageLook(before.subs[i].logpages, e, key);
      }
    }
  }

  lemma SaveEntryUnattached(s: Store, e: Entry, k: LogKey)
    ensures EntryAt(SaveEntry(s, e).unattached, k) ==
      if LogKeyOf(e) == k && FindSub(s.subs, k.0) == |s.subs| && EntryAt(s.unattached, k).None? then Some(e)
      else EntryAt(s.unattached, k)
  {
    var j, now := FindEntry(s.unattached, k), SaveEntry(s, e).unattached;
    EntryIs(now, k, if j == |s.unattached| && (|now| == j || LogKeyOf(e) != k) then |now| else j);
  }

  lemma {:induction false} SaveUnattached(s: Store, log: seq<Entry>, k: LogKey)
    requires WellFormed(s)
    ensures EntryAt(Save(s, log).unattached, k) ==
      if FindSub(s.subs, k.0) == |s.subs| && EntryAt(s.unattached, k).None? then L.First(log, k)
      else EntryAt(s.unattached, k)
  {
    if log != [] {
      var n := |log| - 1;
      var before := Save(s, log[..n]);
      SaveOk(s, log[..n]);
      SaveUnattached(s, log[..n], k);
      SameNames(s.subs, before.subs, k.0);
      assert |before.subs| == |s.subs|;
      SaveEntryUnattached(before, log[n], k);
    }
  }

  // Refreshing.

  /** A discovery queue: of one subsystem, or of the whole target. No code marks one of these
      connected, but the refresh asks. */
  datatype Queue = Queue(subsys: Option<nat>, connected: bool)

  /** What the network makes of a visit. */
  datatype Answer = Answer(connects: bool, log: Option<seq<Entry>>, failedKato: bool)

  datatype Visit = Visit(q: Queue, a: Answer)

  predicate Available(subs: seq<Subsystem>, q: Queue)
    requires q.subsys.Some? ==> q.subsys.value < |subs|
  {
    match q.subsys
    case None => exists i :: 0 <= i < |subs| && !IsRestricted(subs[i])
    case Some(i) => subs[i].hosts != []
  }

  predicate Points(subs: seq<Subsystem>, v: Visit) {
    v.q.subsys.Some? ==> v.q.subsys.value < |subs|
  }

  predicate Reached(subs: seq<Subsystem>, v: Visit)
    requires Points(subs, v)
  {
    v.q.connected || (Available(subs, v.q) && v.a.connects)
  }

  /** The entries that a visit brings. */
  function Fetched(subs: seq<Subsystem>, v: Visit): seq<Entry>
    requires Points(subs, v)
  {
    if Reached(subs, v) && v.a.log.Some? then v.a.log.value else []
  }

  ghost predicate AllPoint(subs: seq<Subsystem>, visits: seq<Visit>) {
    forall i :: 0 <= i < |visits| ==> Points(subs, visits[i])
  }

  /** The entries that all visits bring, in the order of the queues. */
  function Gathered(subs: seq<Subsystem>, visits: seq<Visit>): seq<Entry>
    requires AllPoint(subs, visits)
  {
    if visits == [] then []
    else Gathered(subs, visits[..|visits| - 1]) + Fetched(subs, visits[|visits| - 1])
  }

  function Refreshed(s: Store, visits: seq<Visit>): Store
    requires AllPoint(s.subs, visits)
  {
    Save(Invalidated(s), Gathered(s.subs, visits))
  }

  predicate HasKey(log: seq<Entry>, k: LogKey) {
    exists n :: 0 <= n < |log| && LogKeyOf(log[n]) == k
  }

  lemma {:induction false} LastHas(log: seq<Entry>, k: LogKey)
    ensures Last(log, k).Some? <==> HasKey(log, k)
    ensures L.First(log, k).Some? <==> HasKey(log, k)
    ensures Last(log, k).Some? ==> Last(log, k).value in log && LogKeyOf(Last(log, k).value) == k
  {
    if log != [] {
      var n := |log| - 1;
      LastHas(log[..n], k);
      if HasKey(log[..n], k) {
        var i :| 0 <= i < n && LogKeyOf(log[..n][i]) == k;
        assert LogKeyOf(log[i]) == k;
      }
    }
  }

  lemma InvalidatedOk(s: Store)
    requires WellFormed(s)
    ensures WellFormed(Invalidated(s)) && SameSubs(Invalidated(s).subs, s.subs)
  {
    forall i | 0 <= i < |s.subs|
      ensures PagesOk(Invalidated(s).subs[i].logpages)
    {
    }
  }

  lemma InvalidLook(sub: Subsystem, key: Key)
    ensures match PageAt(InvalidSub(sub).logpages, key) { case None => true case Some(p) => !p.valid }
  {
  }

  /** The keys that a host may see of a subsystem. */
  ghost predicate Valid(sub: Subsystem, key: Key) {
    var p := PageAt(sub.logpages, key);
    p.Some? && p.value.valid
  }

  /** After a refresh the valid pages of a subsystem are exactly the keys that any queue
      fetched for its NQN, each with the entry fetched last, and the unattached list holds
      exactly the keys of the other NQNs, each once with the entry fetched first. */
  lemma RefreshMerges(s: Store, visits: seq<Visit>)
    requires WellFormed(s) && AllPoint(s.subs, visits)
    ensures var now, log := Refreshed(s, visits), Gathered(s.subs, visits);
      && WellFormed(now) && SameSubs(now.subs, s.subs)
      && (forall i, key :: 0 <= i < |s.subs| ==>
           (Valid(now.subs[i], key) <==> IsHome(s.subs, i) && HasKey(log, (s.subs[i].nqn, key))))
      && (forall i, key :: 0 <= i < |s.subs| && Valid(now.subs[i], key) ==>
           Some(PageAt(now.subs[i].logpages, key).value.e) == Last(log, (s.subs[i].nqn, key)))
      && (forall k: LogKey :: EntryAt(now.unattached, k) ==
           if FindSub(s.subs, k.0) == |s.subs| then L.First(log, k) else None)
  {
    var log, start := Gathered(s.subs, visits), Invalidated(s);
    InvalidatedOk(s);
    SaveOk(start, log);
    assert SameSubs(Save(start, log).subs, s.subs);
    forall i, key | 0 <= i < |s.subs|
      ensures Valid(Save(start, log).subs[i], key) <==> IsHome(s.subs, i) && HasKey(log, (s.subs[i].nqn, key))
      ensures Valid(Save(start, log).subs[i], key) ==>
        Some(PageAt(Save(start, log).subs[i].logpages, key).value.e) == Last(log, (s.subs[i].nqn, key))
    {
      RefreshOfPage(s, log, i, key);
    }
    forall k: LogKey
      ensures EntryAt(Save(start, log).unattached, k) ==
        if FindSub(s.subs, k.0) == |s.subs| then L.First(log, k) else None
    {
      SaveUnattached(start, log, k);
      SameNames(start.subs, s.subs, k.0);
    }
  }

  lemma RefreshOfPage(s: Store, log: seq<Entry>, i: nat, key: Key)
    requires WellFormed(s) && i < |s.subs|
    ensures |Save(Invalidated(s), log).subs| == |s.subs|
    ensures var now := Save(Invalidated(s), log).subs[i];
      && (Valid(now, key) <==> IsHome(s.subs, i) && HasKey(log, (s.subs[i].nqn, key)))
      && (Valid(now, key) ==> Some(PageAt(now.logpages, key).value.e) == Last(log, (s.subs[i].nqn, key)))
  {
    var start := Invalidated(s);
    InvalidatedOk(s);
    SaveLook(start, log, i, key);
    SameNames(start.subs, s.subs, s.subs[i].nqn);
    InvalidLook(s.subs[i], key);
    LastHas(log, (s.subs[i].nqn, key));
  }

  /** Where an entry comes from: a queue that is connected, or that connects and is worth it
      (an open subsystem for the queue of a target, a host for that of a subsystem). */
  ghost predicate Brings(subs: seq<Subsystem>, v: Visit, e: Entry)
    requires Points(subs, v)
  {
    && v.a.log.Some? && e in v.a.log.value
    && (v.q.connected ||
        (v.a.connects &&
         match v.q.subsys
         case None => exists i :: 0 <= i < |subs| && subs[i].access != 0
         case Some(i) => |subs[i].hosts| > 0))
  }

  predicate SameAddress(e: Entry, f: Entry) {
    e.traddr == f.traddr && e.trsvcid == f.trsvcid && e.trtype == f.trtype && e.adrfam == f.adrfam
  }

  lemma {:induction false} GatheredFrom(subs: seq<Subsystem>, visits: seq<Visit>, e: Entry)
    requires AllPoint(subs, visits)
    ensures e in Gathered(subs, visits) <==> exists v :: v in visits && Points(subs, v) && Brings(subs, v, e)
  {
    if visits != [] {
      var n := |visits| - 1;
      GatheredFrom(subs, visits[..n], e);
      assert forall i :: 0 <= i < |subs| ==> (IsRestricted(subs[i]) <==> subs[i].access == 0);
      assert e in Fetched(subs, visits[n]) <==> Brings(subs, visits[n], e);
      assert visits == visits[..n] + [visits[n]];
    }
  }

  lemma PageHas(pages: seq<LogPage>, e: Entry)
    requires PagesOk(pages)
    ensures (exists j :: 0 <= j < |pages| && pages[j].valid && SameAddress(pages[j].e, e)) <==>
      match PageAt(pages, KeyOf(e)) { case None => false case Some(p) => p.valid }
  {
    assert forall j :: 0 <= j < |pages| ==> (SameAddress(pages[j].e, e) <==> KeyOf(pages[j].e) == KeyOf(e));
    if j :| 0 <= j < |pages| && SameAddress(pages[j].e, e) {
      PageIs(pages, KeyOf(e), j);
    }
  }

  /** After a refresh a subsystem has a valid page at an address if and only if it is the first
      with its NQN and some queue brings an entry of that NQN with that address. */
  lemma ValidExactly(s: Store, visits: seq<Visit>, i: nat, e: Entry)
    requires WellFormed(s) && AllPoint(s.subs, visits) && i < |s.subs| && e.subnqn == s.subs[i].nqn
    ensures |Refreshed(s, visits).subs| == |s.subs|
    ensures var pages := Refreshed(s, visits).subs[i].logpages;
      (exists j :: 0 <= j < |pages| && pages[j].valid && SameAddress(pages[j].e, e)) <==>
      (forall k :: 0 <= k < i ==> s.subs[k].nqn != e.subnqn) &&
      exists v, f :: v in visits && Points(s.subs, v) && Brings(s.subs, v, f) && f.subnqn == e.subnqn && SameAddress(f, e)
  {
    var log := Gathered(s.subs, visits);
    RefreshMerges(s, visits);
    PageHas(Refreshed(s, visits).subs[i].logpages, e);
    assert IsHome(s.subs, i) <==> forall k :: 0 <= k < i ==> s.subs[k].nqn != e.subnqn by {
      if forall k :: 0 <= k < i ==> s.subs[k].nqn != e.subnqn {
        SubIs(s.subs, e.subnqn, i);
      }
    }
    if HasKey(log, LogKeyOf(e)) {
      var n :| 0 <= n < |log| && LogKeyOf(log[n]) == LogKeyOf(e);
      GatheredFrom(s.subs, visits, log[n]);
      assert SameAddress(log[n], e);
    }
    if v, f :| v in visits && Points(s.subs, v) && Brings(s.subs, v, f) && f.subnqn == e.subnqn && SameAddress(f, e) {
      GatheredFrom(s.subs, visits, f);
      var n :| 0 <= n < |log| && log[n] == f;
      assert LogKeyOf(log[n]) == LogKeyOf(e);
    }
  }

  // The order of the queues.

  lemma {:induction false} GatheredHas(subs: seq<Subsystem>, visits: seq<Visit>, k: LogKey)
    requires AllPoint(subs, visits)
    ensures HasKey(Gathered(subs, visits), k) <==>
      exists v :: v in visits && Points(subs, v) && HasKey(Fetched(subs, v), k)
  {
    if visits != [] {
      var n := |visits| - 1;
      var first, last := Gathered(subs, visits[..n]), Fetched(subs, visits[n]);
      GatheredHas(subs, visits[..n], k);
      HasKeyAppend(first, last, k);
      assert visits == visits[..n] + [visits[n]];
    }
  }

  lemma HasKeyAppend(a: seq<Entry>, b: seq<Entry>, k: LogKey)
    ensures HasKey(a + b, k) <==> HasKey(a, k) || HasKey(b, k)
  {
    if HasKey(a, k) {
      var n :| 0 <= n < |a| && LogKeyOf(a[n]) == k;
      assert LogKeyOf((a + b)[n]) == k;
    }
    if HasKey(b, k) {
      var n :| 0 <= n < |b| && LogKeyOf(b[n]) == k;
      assert LogKeyOf((a + b)[|a| + n]) == k;
    }
  }

  /** Two orders of the same visits leave the same keys valid and the same keys unattached. */
  lemma OrderDoesNotMatter(s: Store, visits: seq<Visit>, others: seq<Visit>)
    requires WellFormed(s) && AllPoint(s.subs, visits) && AllPoint(s.subs, others)
    requires multiset(visits) == multiset(others)
    ensures var a, b := Refreshed(s, visits), Refreshed(s, others);
      && |a.subs| == |b.subs|
      && (forall i, key :: 0 <= i < |a.subs| ==> (Valid(a.subs[i], key) <==> Valid(b.subs[i], key)))
      && (forall k: LogKey :: EntryAt(a.unattached, k).Some? <==> EntryAt(b.unattached, k).Some?)
  {
    forall k: LogKey
      ensures HasKey(Gathered(s.subs, visits), k) <==> HasKey(Gathered(s.subs, others), k)
    {
      GatheredHas(s.subs, visits, k);
      GatheredHas(s.subs, others, k);
      assert forall v :: v in visits <==> v in multiset(visits);
      assert forall v :: v in others <==> v in multiset(others);
    }
    forall k: LogKey
      ensures L.First(Gathered(s.subs, visits), k).Some? <==> L.First(Gathered(s.subs, others), k).Some?
    {
      LastHas(Gathered(s.subs, visits), k);
      LastHas(Gathered(s.subs, others), k);
    }
    RefreshMerges(s, visits);
    RefreshMerges(s, others);
  }

  // The target in memory.

  const LOG_PAGE_RETRY := 200

  /** A queue that could have been reached but did not answer. */
  predicate Missed(subs: seq<Subsystem>, v: Visit)
    requires Points(subs, v)
  {
    !v.q.connected && Available(subs, v.q) && !v.a.connects
  }

  function QueueAfter(subs: seq<Subsystem>, v: Visit): Queue
    requires Points(subs, v)
  {
    if Reached(subs, v) && v.a.failedKato then v.q.(connected := false) else v.q
  }

  /** A refresh connects no queue: it is connected afterwards if and only if it was before and
      its keep alive has not failed. A visit counts as missed if and only if the queue was not
      connected, was worth connecting, and did not connect. */
  lemma QueueKept(subs: seq<Subsystem>, v: Visit)
    requires Points(subs, v)
    ensures QueueAfter(subs, v).subsys == v.q.subsys
    ensures QueueAfter(subs, v).connected <==> v.q.connected && !v.a.failedKato
    ensures
      var worth := match v.q.subsys
        case None => exists i :: 0 <= i < |subs| && subs[i].access != 0
        case Some(i) => |subs[i].hosts| > 0;
      Missed(subs, v) <==> !v.q.connected && !v.a.connects && worth
  {
    assert forall i :: 0 <= i < |subs| ==> (IsRestricted(subs[i]) <==> subs[i].access == 0);
  }

  lemma PointsStay(a: seq<Subsystem>, b: seq<Subsystem>, v: Visit)
    requires SameSubs(a, b) && Points(a, v)
    ensures Points(b, v) && Fetched(a, v) == Fetched(b, v) && Missed(a, v) == Missed(b, v)
    ensures QueueAfter(a, v) == QueueAfter(b, v)
  {
    assert forall i :: 0 <= i < |a| ==> a[i].(logpages := []).hosts == b[i].(logpages := []).hosts;
    assert forall i :: 0 <= i < |a| ==> IsRestricted(a[i].(logpages := [])) == IsRestricted(b[i].(logpages := []));
    assert forall i :: 0 <= i < |a| ==> IsRestricted(a[i]) == IsRestricted(b[i]);
  }

  lemma {:induction false} SaveAppend(s: Store, a: seq<Entry>, b: seq<Entry>)
    ensures Save(s, a + b) == Save(Save(s, a), b)
  {
    if b == [] {
      assert a + b == a;
    } else {
      var n := |b| - 1;
      assert (a + b)[..|a + b| - 1] == a + b[..n];
      SaveAppend(s, a, b[..n]);
    }
  }

  lemma SaveNext(start: Store, subs: seq<Subsystem>, visits: seq<Visit>, i: nat)
    requires AllPoint(subs, visits) && i < |visits|
    ensures Save(start, Gathered(subs, visits[..i + 1]))
      == Save(Save(start, Gathered(subs, visits[..i])), Fetched(subs, visits[i]))
  {
    assert visits[..i + 1][..i] == visits[..i];
    SaveAppend(start, Gathered(subs, visits[..i]), Fetched(subs, visits[i]));
  }

  class DemTarget {
    var subs: seq<Subsystem>
    var unattached: seq<Entry>
    var queues: seq<Queue>
    var retry: nat

    ghost function Pages(): Store
      reads this
    {
      Store(subs, unattached)
    }

    method InvalidateLogPages()
      modifies `subs, `unattached
      ensures Pages() == Invalidated(old(Pages()))
    {
      for i := 0 to |subs|
        invariant |subs| == |old(subs)| && unattached == old(unattached)
        invariant forall k :: 0 <= k < i ==> subs[k] == InvalidSub(old(subs)[k])
        invariant forall k :: i <= k < |subs| ==> subs[k] == old(subs)[k]
      {
        var pages := subs[i].logpages;
        for j := 0 to |pages|
          invariant |pages| == |subs[i].logpages|
          invariant forall k :: 0 <= k < j ==> pages[k] == subs[i].logpages[k].(valid := false)
          invariant forall k :: j <= k < |pages| ==> pages[k] == subs[i].logpages[k]
        {
          pages := pages[j := pages[j].(valid := false)];
        }
        assert pages == InvalidSub(subs[i]).logpages;
        subs := subs[i := subs[i].(logpages := pages)];
      }
      while unattached != []
        invariant subs == Invalidated(old(Pages())).subs
        decreases |unattached|
      {
        unattached := unattached[1..];
      }
    }

    method FindSubsystem(nqn: string) returns (i: nat)
      ensures i == FindSub(subs, nqn)
    {
      i := 0;
      while i < |subs| && subs[i].nqn != nqn
        invariant i <= |subs| && (forall k :: 0 <= k < i ==> subs[k].nqn != nqn)
      {
        i := i + 1;
      }
      SubIs(subs, nqn, i);
    }

    method SaveLogPage(e: Entry)
      modifies `subs, `unattached
      ensures Pages() == SaveEntry(old(Pages()), e)
    {
      var i := FindSubsystem(e.subnqn);
      if i < |subs| {
        var pages, j := subs[i].logpages, 0;
        while j < |pages| && KeyOf(pages[j].e) != KeyOf(e)
          invariant j <= |pages| && (forall k :: 0 <= k < j ==> KeyOf(pages[k].e) != KeyOf(e))
        {
          j := j + 1;
        }
        PageIs(pages, KeyOf(e), j);
        if j < |pages| {
          pages := pages[j := LogPage(e, true)];
        } else {
          pages := pages + [LogPage(e, true)];
        }
        subs := subs[i := subs[i].(logpages := pages)];
      } else {
        var j := 0;
        while j < |unattached| && LogKeyOf(unattached[j]) != LogKeyOf(e)
          invariant j <= |unattached| && (forall k :: 0 <= k < j ==> LogKeyOf(unattached[k]) != LogKeyOf(e))
        {
          j := j + 1;
        }
        EntryIs(unattached, LogKeyOf(e), j);
        if j == |unattached| {
          unattached := unattached + [e];
        }
      }
    }

    method SaveLogPages(log: seq<Entry>)
      modifies `subs, `unattached
      ensures Pages() == Save(old(Pages()), log)
    {
      for n := 0 to |log|
        invariant Pages() == Save(old(Pages()), log[..n])
      {
        SaveLogPage(log[n]);
        assert log[..n + 1][..n] == log[..n];
      }
      assert log[..|log|] == log;
    }

    method IsAvailable(q: Queue) returns (b: bool)
      requires q.subsys.Some? ==> q.subsys.value < |subs|
      ensures b == Available(subs, q)
    {
      if q.subsys.Some? {
        return subs[q.subsys.value].hosts != [];
      }
      for i := 0 to |subs|
        invariant forall k :: 0 <= k < i ==> IsRestricted(subs[k])
      {
        if !IsRestricted(subs[i]) {
          return true;
        }
      }
      return false;
    }

    /** One queue of a refresh. */
    method Refresh(i: nat, a: Answer)
      requires i < |queues| && Points(subs, Visit(queues[i], a))
      modifies this
      ensures Pages() == Save(old(Pages()), Fetched(old(subs), Visit(old(queues)[i], a)))
      ensures queues == old(queues)[i := QueueAfter(old(subs), Visit(old(queues)[i], a))]
      ensures retry == if Missed(old(subs), Visit(old(queues)[i], a)) then LOG_PAGE_RETRY else old(retry)
    {
      if !queues[i].connected {
        var available := IsAvailable(queues[i]);
        if !available {
          return;
        }
        if !a.connects {
          retry := LOG_PAGE_RETRY;
          return;
        }
      }
      if a.log.Some? {
        SaveLogPages(a.log.value);
      }
      if a.failedKato {
        queues := queues[i := queues[i].(connected := false)];
      }
    }

    /** The same, seen from the subsystems that the refresh began with. */
    method RefreshOf(i: nat, a: Answer, ghost begun: seq<Subsystem>, ghost v: Visit)
      requires i < |queues| && v == Visit(queues[i], a) && Points(begun, v)
      requires WellFormed(Pages()) && SameSubs(begun, subs)
      modifies this
      ensures WellFormed(Pages()) && SameSubs(begun, subs)
      ensures Pages() == Save(old(Pages()), Fetched(begun, v))
      ensures queues == old(queues)[i := QueueAfter(begun, v)]
      ensures retry == if Missed(begun, v) then LOG_PAGE_RETRY else old(retry)
    {
      PointsStay(begun, subs, v);
      SaveOk(Pages(), Fetched(begun, v));
      Refresh(i, a);
    }

    /** The refresh that the timers start: every queue once, in list order. */
    method RefreshLogPages(answers: seq<Answer>, ghost visits: seq<Visit>)
      requires |answers| == |queues| == |visits| && WellFormed(Pages()) && AllPoint(subs, visits)
      requires forall i :: 0 <= i < |visits| ==> visits[i] == Visit(queues[i], answers[i])
      modifies this
      ensures Pages() == Refreshed(old(Pages()), visits)
      ensures |queues| == |visits| && forall i :: 0 <= i < |visits| ==> queues[i] == QueueAfter(old(subs), visits[i])
      ensures retry == if exists i :: 0 <= i < |visits| && Missed(old(subs), visits[i]) then LOG_PAGE_RETRY else old(retry)
    {
      ghost var begun, start := subs, Invalidated(Pages());
      InvalidatedOk(Pages());
      InvalidateLogPages();
      for i := 0 to |queues|
        invariant |queues| == |visits|
        invariant WellFormed(Pages()) && SameSubs(begun, subs)
        invariant Pages() == Save(start, Gathered(begun, visits[..i]))
        invariant forall k :: 0 <= k < i ==> queues[k] == QueueAfter(begun, visits[k])
        invariant forall k :: i <= k < |queues| ==> queues[k] == old(queues)[k]
        invariant retry ==
          if exists k :: 0 <= k < i && Missed(begun, visits[k]) then LOG_PAGE_RETRY else old(retry)
      {
        SaveNext(start, begun, visits, i);
        RefreshOf(i, answers[i], begun, visits[i]);
      }
      assert visits[..|visits|] == visits;
    }
  }
}
