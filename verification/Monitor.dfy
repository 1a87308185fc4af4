/** The monitor daemon's updates: what it reports of each fetched log and what stays in its
    list (fetch_log_pages, print_log_pages and report_updates of src/monitor/daemon.c). */
module Monitor {
  import opened DemTypes
  import opened LogStore
  import opened Options

  /** A line of output: a page that is new, one that is gone, a subsystem without pages. */
  datatype Line = Added(e: Entry) | Removed(nqn: string, e: Entry) | Emptied(nqn: string)

  // The sweep.

  function KeptPages(pages: seq<Page>): seq<Page> {
    if pages == [] then []
    else (if pages[0].status.Deleted? then [] else [pages[0]]) + KeptPages(pages[1..])
  }

  function Kept(store: Store): Store {
    if store == [] then []
    else
      var pages := KeptPages(store[0].pages);
      (if pages == [] then [] else [Sub(store[0].nqn, pages)]) + Kept(store[1..])
  }

  function PageLine(nqn: string, page: Page): seq<Line> {
    match page.status
    case New => [Added(page.e)]
    case Deleted => [Removed(nqn, page.e)]
    case Valid => []
  }

  function PageLines(nqn: string, pages: seq<Page>): seq<Line> {
    if pages == [] then [] else PageLine(nqn, pages[0]) + PageLines(nqn, pages[1..])
  }

  function SubLines(s: Sub): seq<Line> {
    PageLines(s.nqn, s.pages) + if KeptPages(s.pages) == [] then [Emptied(s.nqn)] else []
  }

  function Lines(store: Store): seq<Line> {
    if store == [] then [] else SubLines(store[0]) + Lines(store[1..])
  }

  /** How often a report adds or removes a key. */
  function AddedTimes(lines: seq<Line>, k: LogKey): nat {
    if lines == [] then 0
    else (if lines[0].Added? && LogKeyOf(lines[0].e) == k then 1 else 0) + AddedTimes(lines[1..], k)
  }

  function RemovedTimes(lines: seq<Line>, k: LogKey): nat {
    if lines == [] then 0
    else (if lines[0].Removed? && (lines[0].nqn, KeyOf(lines[0].e)) == k then 1 else 0) + RemovedTimes(lines[1..], k)
  }

  lemma {:induction false} TimesAppend(a: seq<Line>, b: seq<Line>, k: LogKey)
    ensures AddedTimes(a + b, k) == AddedTimes(a, k) + AddedTimes(b, k)
    ensures RemovedTimes(a + b, k) == RemovedTimes(a, k) + RemovedTimes(b, k)
  {
    if a == [] {
      assert a + b == b;
    } else {
      assert (a + b)[1..] == a[1..] + b;
      TimesAppend(a[1..], b, k);
    }
  }

  function One(b: bool): nat {
    if b then 1 else 0
  }

  function Has(was: Option<Page>, status: Status): bool {
    was.Some? && was.value.status == status
  }

  // One subsystem.

  lemma PagesRest(nqn: string, pages: seq<Page>, key: Key)
    requires PagesOk(nqn, pages) && pages != []
    ensures PagesOk(nqn, pages[1..])
    ensures key == KeyOf(pages[0].e) ==>
      PageAt(pages, key) == Some(pages[0]) && PageAt(pages[1..], key) == None
    ensures key != KeyOf(pages[0].e) ==> PageAt(pages, key) == PageAt(pages[1..], key)
  {
    if key == KeyOf(pages[0].e) {
      PageIs(pages[1..], key, |pages| - 1);
    }
  }

  lemma {:induction false} PageLinesTimes(nqn: string, pages: seq<Page>, k: LogKey)
    requires PagesOk(nqn, pages)
    ensures AddedTimes(PageLines(nqn, pages), k) == One(k.0 == nqn && Has(PageAt(pages, k.1), New))
    ensures RemovedTimes(PageLines(nqn, pages), k) == One(k.0 == nqn && Has(PageAt(pages, k.1), Deleted))
    decreases |pages|
  {
    if pages != [] {
      PagesRest(nqn, pages, k.1);
      PageLinesTimes(nqn, pages[1..], k);
      TimesAppend(PageLine(nqn, pages[0]), PageLines(nqn, pages[1..]), k);
    }
  }

  lemma {:induction false} KeptKeys(pages: seq<Page>, key: Key)
    requires forall j :: 0 <= j < |pages| ==> KeyOf(pages[j].e) != key
    ensures forall j :: 0 <= j < |KeptPages(pages)| ==> KeyOf(KeptPages(pages)[j].e) != key
  {
    if pages != [] {
      KeptKeys(pages[1..], key);
    }
  }

  lemma {:induction false} KeptPagesOk(nqn: string, pages: seq<Page>)
    requires PagesOk(nqn, pages)
    ensures PagesOk(nqn, KeptPages(pages))
    ensures forall j :: 0 <= j < |KeptPages(pages)| ==> !KeptPages(pages)[j].status.Deleted?
    decreases |pages|
  {
    if pages != [] {
      KeptPagesOk(nqn, pages[1..]);
      KeptKeys(pages[1..], KeyOf(pages[0].e));
    }
  }

  lemma {:induction false} KeptPagesLook(nqn: string, pages: seq<Page>, key: Key)
    requires PagesOk(nqn, pages)
    ensures PageAt(KeptPages(pages), key) ==
      if Has(PageAt(pages, key), Deleted) then None else PageAt(pages, key)
    decreases |pages|
  {
    if pages != [] {
      var rest := KeptPages(pages[1..]);
      PagesRest(nqn, pages, key);
      KeptPagesLook(nqn, pages[1..], key);
      if pages[0].status.Deleted? {
        assert KeptPages(pages) == rest;
      } else {
        assert KeptPages(pages) == [pages[0]] + rest;
        PrependPage(pages[0], rest, key);
      }
    }
  }

  lemma PrependPage(p: Page, rest: seq<Page>, key: Key)
    ensures PageAt([p] + rest, key) == if KeyOf(p.e) == key then Some(p) else PageAt(rest, key)
  {
    assert ([p] + rest)[1..] == rest;
  }

  // The whole list.

  lemma StoreRest(store: Store, k: LogKey)
    requires WellFormed(store) && store != []
    ensures WellFormed(store[1..])
    ensures k.0 == store[0].nqn ==>
      Look(store, k) == PageAt(store[0].pages, k.1) && Look(store[1..], k) == None
    ensures k.0 != store[0].nqn ==> Look(store, k) == Look(store[1..], k)
  {
    if k.0 == store[0].nqn {
      SubIs(store[1..], k.0, |store| - 1);
    }
  }

  /** A report adds exactly the pages marked new and removes exactly those marked deleted,
      each once. */
  lemma {:induction false} LinesTimes(store: Store, k: LogKey)
    requires WellFormed(store)
    ensures AddedTimes(Lines(store), k) == One(Has(Look(store, k), New))
    ensures RemovedTimes(Lines(store), k) == One(Has(Look(store, k), Deleted))
  {
    if store != [] {
      var s := store[0];
      var last := if KeptPages(s.pages) == [] then [Emptied(s.nqn)] else [];
      StoreRest(store, k);
      LinesTimes(store[1..], k);
      PageLinesTimes(s.nqn, s.pages, k);
      TimesAppend(PageLines(s.nqn, s.pages), last, k);
      TimesAppend(SubLines(s), Lines(store[1..]), k);
    }
  }

  lemma {:induction false} KeptNames(store: Store, nqn: string)
    requires forall i :: 0 <= i < |store| ==> store[i].nqn != nqn
    ensures forall i :: 0 <= i < |Kept(store)| ==> Kept(store)[i].nqn != nqn
  {
    if store != [] {
      KeptNames(store[1..], nqn);
    }
  }

  lemma PrependSub(s: Sub, rest: Store, k: LogKey)
    requires WellFormed(rest) && Clean(rest) && s.pages != [] && PagesOk(s.nqn, s.pages)
    requires forall j :: 0 <= j < |s.pages| ==> !s.pages[j].status.Deleted?
    requires forall i :: 0 <= i < |rest| ==> rest[i].nqn != s.nqn
    ensures WellFormed([s] + rest) && Clean([s] + rest)
    ensures Look([s] + rest, k) == if s.nqn == k.0 then PageAt(s.pages, k.1) else Look(rest, k)
  {
    assert ([s] + rest)[1..] == rest;
  }

  /** The sweep removes exactly the deleted pages and leaves no subsystem empty. */
  lemma {:induction false} KeptLook(store: Store, k: LogKey)
    requires WellFormed(store)
    ensures WellFormed(Kept(store)) && Clean(Kept(store))
    ensures Look(Kept(store), k) == if Has(Look(store, k), Deleted) then None else Look(store, k)
  {
    if store != [] {
      var s, rest := store[0], Kept(store[1..]);
      var pages := KeptPages(s.pages);
      StoreRest(store, k);
      KeptLook(store[1..], k);
      KeptNames(store[1..], s.nqn);
      KeptPagesOk(s.nqn, s.pages);
      KeptPagesLook(s.nqn, s.pages, k.1);
      if pages == [] {
        assert Kept(store) == rest;
        assert PageAt(pages, k.1) == None;
        if k.0 == s.nqn {
          SubIs(rest, s.nqn, |rest|);
        }
      } else {
        assert Kept(store) == [Sub(s.nqn, pages)] + rest;
        PrependSub(Sub(s.nqn, pages), rest, k);
      }
    }
  }

  lemma KeptOk(store: Store)
    requires WellFormed(store)
    ensures WellFormed(Kept(store)) && Clean(Kept(store))
  {
    KeptLook(store, ("", Key("", "", 0, 0)));
  }

  // One update.

  function AfterFetch(store: Store, log: seq<Entry>): Store {
    Save(Marked(store), log)
  }

  lemma FetchLook(store: Store, log: seq<Entry>, k: LogKey)
    requires WellFormed(store)
    ensures WellFormed(AfterFetch(store, log))
    ensures Has(Look(AfterFetch(store, log), k), Deleted) <==> Look(store, k).Some? && Times(log, k) == 0
    ensures Has(Look(AfterFetch(store, log), k), New) <==> Look(store, k).None? && Times(log, k) == 1
    ensures Look(AfterFetch(store, log), k).Some? <==> Look(store, k).Some? || Times(log, k) > 0
  {
    MarkedLook(store, k);
    SaveLook(Marked(store), log, k);
    FirstSeen(log, k);
  }

  lemma FetchOk(store: Store, log: seq<Entry>)
    requires WellFormed(store)
    ensures WellFormed(AfterFetch(store, log))
  {
    FetchLook(store, log, ("", Key("", "", 0, 0)));
  }

  /** After an update the list holds exactly the keys of the log, and the report removes
      exactly the keys that the log no longer has, each once. */
  lemma UpdateFollowsLog(store: Store, log: seq<Entry>)
    requires WellFormed(store)
    ensures var after := AfterFetch(store, log);
      && WellFormed(Kept(after)) && Clean(Kept(after))
      && (forall k :: Look(Kept(after), k).Some? <==> Times(log, k) > 0)
      && (forall k :: RemovedTimes(Lines(after), k) == One(Look(store, k).Some? && Times(log, k) == 0))
  {
    var after := AfterFetch(store, log);
    FetchOk(store, log);
    KeptOk(after);
    forall k
      ensures Look(Kept(after), k).Some? <==> Times(log, k) > 0
      ensures RemovedTimes(Lines(after), k) == One(Look(store, k).Some? && Times(log, k) == 0)
    {
      FetchLook(store, log, k);
      LinesTimes(after, k);
      KeptLook(after, k);
    }
  }

  /** Two entries with one transport address. */
  predicate SameAddress(e: Entry, f: Entry) {
    e.traddr == f.traddr && e.trsvcid == f.trsvcid && e.trtype == f.trtype && e.adrfam == f.adrfam
  }

  /** The log has an entry of this subsystem at this address; the list has a page there. */
  ghost predicate LogHas(log: seq<Entry>, e: Entry) {
    exists n :: 0 <= n < |log| && log[n].subnqn == e.subnqn && SameAddress(log[n], e)
  }

  ghost predicate ListHas(store: Store, e: Entry) {
    exists i, j :: 0 <= i < |store| && 0 <= j < |store[i].pages| && store[i].nqn == e.subnqn && SameAddress(store[i].pages[j].e, e)
  }

  lemma {:induction false} TimesHas(log: seq<Entry>, e: Entry)
    ensures Times(log, LogKeyOf(e)) > 0 <==> LogHas(log, e)
  {
    if log != [] {
      var n := |log| - 1;
      TimesHas(log[..n], e);
      assert LogKeyOf(log[n]) == LogKeyOf(e) <==> log[n].subnqn == e.subnqn && SameAddress(log[n], e);
      assert forall i :: 0 <= i < n ==> log[..n][i] == log[i];
    }
  }

  lemma LookHas(store: Store, e: Entry)
    requires WellFormed(store)
    ensures Look(store, LogKeyOf(e)).Some? <==> ListHas(store, e)
  {
    var i := FindSub(store, e.subnqn);
    if Look(store, LogKeyOf(e)).Some? {
      assert SameAddress(store[i].pages[FindPage(store[i].pages, KeyOf(e))].e, e);
    }
    if i, j :| 0 <= i < |store| && 0 <= j < |store[i].pages| && store[i].nqn == e.subnqn && SameAddress(store[i].pages[j].e, e) {
      SubIs(store, e.subnqn, i);
      PageIs(store[i].pages, KeyOf(e), j);
    }
  }

  /** After an update a subsystem has a page at an address if and only if the log has one there. */
  lemma ListedExactly(store: Store, log: seq<Entry>, e: Entry)
    requires WellFormed(store)
    ensures ListHas(Kept(AfterFetch(store, log)), e) <==> LogHas(log, e)
  {
    var after := AfterFetch(store, log);
    FetchLook(store, log, LogKeyOf(e));
    KeptLook(after, LogKeyOf(e));
    LookHas(Kept(after), e);
    TimesHas(log, e);
  }

  lemma {:induction false} NoneKept(pages: seq<Page>)
    ensures KeptPages(pages) == [] <==> forall j :: 0 <= j < |pages| ==> pages[j].status.Deleted?
  {
    if pages != [] {
      NoneKept(pages[1..]);
      assert forall j :: 0 < j < |pages| ==> pages[j] == pages[1..][j - 1];
    }
  }

  lemma {:induction false} PageLinesNotEmptied(nqn: string, pages: seq<Page>, n: string)
    ensures Emptied(n) !in PageLines(nqn, pages)
  {
    if pages != [] {
      PageLinesNotEmptied(nqn, pages[1..], n);
    }
  }

  ghost predicate Listed(store: Store, nqn: string) {
    exists i :: 0 <= i < |store| && store[i].nqn == nqn
  }

  /** A subsystem with this NQN has lost all its pages. */
  ghost predicate Lost(store: Store, nqn: string) {
    exists i :: 0 <= i < |store| && store[i].nqn == nqn && forall j :: 0 <= j < |store[i].pages| ==> store[i].pages[j].status.Deleted?
  }

  lemma {:induction false} EmptiedLines(store: Store, nqn: string)
    ensures Emptied(nqn) in Lines(store) <==> Lost(store, nqn)
  {
    if store != [] {
      EmptiedLines(store[1..], nqn);
      PageLinesNotEmptied(store[0].nqn, store[0].pages, nqn);
      NoneKept(store[0].pages);
      assert forall i :: 0 < i < |store| ==> store[i] == store[1..][i - 1];
    }
  }

  /** A report says that a subsystem has no pages left if and only if it was listed and the log
      has no page of it. */
  lemma EmptiedExactly(store: Store, log: seq<Entry>, nqn: string)
    requires WellFormed(store)
    ensures Emptied(nqn) in Lines(AfterFetch(store, log)) <==>
      Listed(store, nqn) && forall n :: 0 <= n < |log| ==> log[n].subnqn != nqn
  {
    var after := AfterFetch(store, log);
    EmptiedLines(after, nqn);
    if Lost(after, nqn) {
      LostIsGone(store, log, nqn);
    }
    if Listed(store, nqn) && forall n :: 0 <= n < |log| ==> log[n].subnqn != nqn {
      GoneIsLost(store, log, nqn);
    }
  }

  lemma LostIsGone(store: Store, log: seq<Entry>, nqn: string)
    requires WellFormed(store) && Lost(AfterFetch(store, log), nqn)
    ensures Listed(store, nqn) && forall n :: 0 <= n < |log| ==> log[n].subnqn != nqn
  {
    var after := AfterFetch(store, log);
    var i :| 0 <= i < |after| && after[i].nqn == nqn && forall j :: 0 <= j < |after[i].pages| ==> after[i].pages[j].status.Deleted?;
    FetchOk(store, log);
    SubIs(after, nqn, i);
    FetchLook(store, log, (nqn, KeyOf(after[i].pages[0].e)));
    assert Has(Look(after, (nqn, KeyOf(after[i].pages[0].e))), Deleted);
    forall n | 0 <= n < |log|
      ensures log[n].subnqn != nqn
    {
      FetchLook(store, log, LogKeyOf(log[n]));
      assert LogHas(log, log[n]);
      TimesHas(log, log[n]);
    }
  }

  lemma GoneIsLost(store: Store, log: seq<Entry>, nqn: string)
    requires WellFormed(store) && Listed(store, nqn)
    requires forall n :: 0 <= n < |log| ==> log[n].subnqn != nqn
    ensures Lost(AfterFetch(store, log), nqn)
  {
    var after := AfterFetch(store, log);
    var was :| 0 <= was < |store| && store[was].nqn == nqn;
    var first := store[was].pages[0].e;
    FetchOk(store, log);
    LookHas(store, first);
    FetchLook(store, log, LogKeyOf(first));
    var i := FindSub(after, nqn);
    forall j | 0 <= j < |after[i].pages|
      ensures after[i].pages[j].status.Deleted?
    {
      var e := after[i].pages[j].e;
      PageIs(after[i].pages, KeyOf(e), j);
      TimesHas(log, e);
      FetchLook(store, log, LogKeyOf(e));
    }
  }

  ghost predicate NoNewKeyTwice(store: Store, log: seq<Entry>) {
    forall k :: Look(store, k).None? ==> Times(log, k) <= 1
  }

  /** The report adds exactly the keys that the list did not have, each once, if and only if
      the log lists no such key twice: the second listing marks the new page as known. */
  lemma AddedExactly(store: Store, log: seq<Entry>)
    requires WellFormed(store)
    ensures (forall k :: AddedTimes(Lines(AfterFetch(store, log)), k) == One(Look(store, k).None? && Times(log, k) > 0))
      <==> NoNewKeyTwice(store, log)
  {
    var lines := Lines(AfterFetch(store, log));
    forall k
      ensures AddedTimes(lines, k) == One(Look(store, k).None? && Times(log, k) == 1)
    {
      FetchLook(store, log, k);
      LinesTimes(AfterFetch(store, log), k);
    }
    if k :| Look(store, k).None? && Times(log, k) > 1 {
      assert AddedTimes(lines, k) == 0;
    }
  }

  /** A log that lists a page twice is stored, and nothing at all is reported. */
  lemma TwiceIsSilent(e: Entry)
    ensures var after := AfterFetch([], [e, e]);
      Kept(after) == [Sub(e.subnqn, [Page(e, Valid)])] && Lines(after) == []
  {
    var log := [e, e];
    assert log[..1] == [e] && [e][..0] == [];
    assert Marked([]) == [];
    assert Save([], [e]) == SaveEntry(Save([], []), e);
    assert Save([], log) == SaveEntry([Sub(e.subnqn, [Page(e, New)])], e);
    assert SavePage([Page(e, New)], e) == [Page(e, Valid)];
    assert AfterFetch([], log) == [Sub(e.subnqn, [Page(e, Valid)])];
    assert KeptPages([Page(e, Valid)]) == [Page(e, Valid)];
    assert PageLines(e.subnqn, [Page(e, Valid)]) == [];
    assert SubLines(Sub(e.subnqn, [Page(e, Valid)])) == [];
  }

  // Whole runs.

  /** What a reader of the report knows. */
  type Known = map<LogKey, Entry>

  function Read(known: Known, line: Line): Known {
    match line
    case Added(e) => known[LogKeyOf(e) := e]
    case Removed(nqn, e) => known - {(nqn, KeyOf(e))}
    case Emptied(_) => known
  }

  function Replay(known: Known, lines: seq<Line>): Known
    decreases |lines|
  {
    if lines == [] then known else Replay(Read(known, lines[0]), lines[1..])
  }

  function At(known: Known, k: LogKey): Option<Entry> {
    if k in known then Some(known[k]) else None
  }

  lemma {:induction false} ReplayAppend(known: Known, a: seq<Line>, b: seq<Line>)
    ensures Replay(known, a + b) == Replay(Replay(known, a), b)
    decreases |a|
  {
    if a == [] {
      assert a + b == b;
    } else {
      assert (a + b)[1..] == a[1..] + b;
      ReplayAppend(Read(known, a[0]), a[1..], b);
    }
  }

  /** What the report tells of one page. */
  function Told(was: Option<Entry>, page: Option<Page>): Option<Entry> {
    if Has(page, New) then Some(page.value.e)
    else if Has(page, Deleted) then None
    else was
  }

  lemma {:induction false} ReplayPages(known: Known, nqn: string, pages: seq<Page>, k: LogKey)
    requires PagesOk(nqn, pages)
    ensures At(Replay(known, PageLines(nqn, pages)), k) ==
      if k.0 == nqn then Told(At(known, k), PageAt(pages, k.1)) else At(known, k)
    decreases |pages|
  {
    if pages != [] {
      var p := pages[0];
      PagesRest(nqn, pages, k.1);
      match p.status
      case Valid =>
        assert PageLines(nqn, pages) == PageLines(nqn, pages[1..]);
        ReplayPages(known, nqn, pages[1..], k);
      case New =>
        assert PageLines(nqn, pages)[1..] == PageLines(nqn, pages[1..]);
        ReplayPages(Read(known, Added(p.e)), nqn, pages[1..], k);
      case Deleted =>
        assert PageLines(nqn, pages)[1..] == PageLines(nqn, pages[1..]);
        ReplayPages(Read(known, Removed(nqn, p.e)), nqn, pages[1..], k);
    }
  }

  lemma {:induction false} ReplayLines(known: Known, store: Store, k: LogKey)
    requires WellFormed(store)
    ensures At(Replay(known, Lines(store)), k) == Told(At(known, k), Look(store, k))
    decreases |store|
  {
    if store != [] {
      var s := store[0];
      var last := if KeptPages(s.pages) == [] then [Emptied(s.nqn)] else [];
      var mid := Replay(known, PageLines(s.nqn, s.pages));
      StoreRest(store, k);
      ReplayPages(known, s.nqn, s.pages, k);
      ReplayAppend(known, PageLines(s.nqn, s.pages), last);
      assert Replay(mid, last) == mid;
      ReplayAppend(known, SubLines(s), Lines(store[1..]));
      ReplayLines(mid, store[1..], k);
    }
  }

  /** The list, what a reader of all reports since it was last empty knows, and the stored
      keys that no report has mentioned. */
  datatype Run = Run(store: Store, known: Known, silent: iset<LogKey>)

  /** An update whose fetch failed reports the marks that are still there. */
  ghost function Update(r: Run, fetched: Option<seq<Entry>>): Run {
    var store := if fetched.Some? then AfterFetch(r.store, fetched.value) else r.store;
    var silent := if fetched.None? then r.silent else
      iset k: LogKey | Times(fetched.value, k) > 0 &&
        (if Look(r.store, k).Some? then k in r.silent else Times(fetched.value, k) > 1);
    Run(Kept(store), Replay(r.known, Lines(store)), silent)
  }

  ghost function Updates(fetches: seq<Option<seq<Entry>>>): Run {
    if fetches == [] then Run([], map[], iset{})
    else Update(Updates(fetches[..|fetches| - 1]), fetches[|fetches| - 1])
  }

  ghost predicate Follows(r: Run) {
    && WellFormed(r.store) && Clean(r.store)
    && (forall k :: k in r.silent ==> Look(r.store, k).Some?)
    && (forall k :: At(r.known, k) ==
         match Look(r.store, k) { case None => None case Some(p) => if k in r.silent then None else Some(p.e) })
    && (forall k :: Has(Look(r.store, k), New) ==> k !in r.silent)
  }

  lemma CleanLook(store: Store, k: LogKey)
    requires Clean(store)
    ensures !Has(Look(store, k), Deleted)
  {
  }

  lemma UpdateOfKey(r: Run, fetched: Option<seq<Entry>>, k: LogKey)
    requires Follows(r)
    ensures var u := Update(r, fetched);
      && WellFormed(u.store) && Clean(u.store)
      && (k in u.silent ==> Look(u.store, k).Some?)
      && At(u.known, k) ==
         (match Look(u.store, k) { case None => None case Some(p) => if k in u.silent then None else Some(p.e) })
      && (Has(Look(u.store, k), New) ==> k !in u.silent)
  {
    var u := Update(r, fetched);
    CleanLook(r.store, k);
    match fetched
    case None =>
      ReplayLines(r.known, r.store, k);
      KeptLook(r.store, k);
    case Some(log) =>
      var after := AfterFetch(r.store, log);
      FetchLook(r.store, log, k);
      MarkedLook(r.store, k);
      SaveLook(Marked(r.store), log, k);
      ReplayLines(r.known, after, k);
      KeptLook(after, k);
  }

  lemma {:induction false} RunFollows(fetches: seq<Option<seq<Entry>>>)
    ensures Follows(Updates(fetches))
  {
    if fetches != [] {
      var n := |fetches| - 1;
      var r := Updates(fetches[..n]);
      RunFollows(fetches[..n]);
      forall k {
        UpdateOfKey(r, fetches[n], k);
      }
      UpdateOfKey(r, fetches[n], ("", Key("", "", 0, 0)));
    }
  }

  /** Over any run of updates, with any of the fetches failing, a reader of all reports knows
      the stored pages, entry for entry, except those that came in listed twice. */
  lemma ReportsRebuildStore(fetches: seq<Option<seq<Entry>>>)
    ensures var r := Updates(fetches);
      && (forall k :: At(r.known, k) ==
           match Look(r.store, k) { case None => None case Some(p) => if k in r.silent then None else Some(p.e) })
      && ((forall k :: k in r.known <==> Look(r.store, k).Some?) <==> r.silent == iset{})
  {
    var r := Updates(fetches);
    RunFollows(fetches);
    assert forall k :: k in r.silent ==> At(r.known, k) == None && Look(r.store, k).Some?;
    assert forall k :: k in r.known <==> At(r.known, k).Some?;
  }

  predicate Distinct(log: seq<Entry>) {
    forall i, j :: 0 <= i < j < |log| ==> LogKeyOf(log[i]) != LogKeyOf(log[j])
  }

  lemma {:induction false} DistinctOnce(log: seq<Entry>, k: LogKey)
    requires Distinct(log)
    ensures Times(log, k) <= 1
  {
    if log != [] {
      var n := |log| - 1;
      DistinctOnce(log[..n], k);
      FirstSeen(log[..n], k);
    }
  }

  /** When no fetched log lists a key twice, the reports rebuild the list exactly. */
  lemma {:induction false} DistinctLogsRebuild(fetches: seq<Option<seq<Entry>>>)
    requires forall i :: 0 <= i < |fetches| && fetches[i].Some? ==> Distinct(fetches[i].value)
    ensures var r := Updates(fetches);
      r.silent == iset{} && forall k :: At(r.known, k) == match Look(r.store, k) { case None => None case Some(p) => Some(p.e) }
  {
    if fetches != [] {
      var n := |fetches| - 1;
      DistinctLogsRebuild(fetches[..n]);
      if fetches[n].Some? {
        forall k {
          DistinctOnce(fetches[n].value, k);
        }
      }
    }
    ReportsRebuildStore(fetches);
  }

  // The daemon's list.

  lemma {:induction false} KeptPagesClean(pages: seq<Page>)
    ensures forall j :: 0 <= j < |KeptPages(pages)| ==> !KeptPages(pages)[j].status.Deleted?
  {
    if pages != [] {
      KeptPagesClean(pages[1..]);
    }
  }

  lemma {:induction false} KeptClean(store: Store)
    ensures Clean(Kept(store))
  {
    if store != [] {
      KeptClean(store[1..]);
      KeptPagesClean(store[0].pages);
    }
  }

  /** Where a sweep is after keeping or deleting the element at j. */
  lemma Cursor<T>(s: seq<T>, j: nat, rest: seq<T>)
    requires j < |s| && s[j..] == rest
    ensures s[j] == rest[0] && s[j + 1..] == rest[1..] && s[..j + 1] == s[..j] + [s[j]]
    ensures (s[..j] + s[j + 1..])[j..] == rest[1..] && (s[..j] + s[j + 1..])[..j] == s[..j]
  {
    assert (s[..j] + s[j + 1..])[j..] == s[j + 1..];
  }

  /** The element at j of what is left of a sweep decides which element is next, and adds at
      most itself to what is kept. */
  lemma SweptStep(left: seq<Page>, j: nat, rest: seq<Page>)
    requires j < |left| && left[j..] == rest
    ensures KeptPages(rest) == (if left[j].status.Deleted? then [] else [left[j]]) + KeptPages(rest[1..])
    ensures left[j].status.Deleted? ==>
      var now := left[..j] + left[j + 1..];
      now[j..] == rest[1..] && now[..j] + KeptPages(rest[1..]) == left[..j] + KeptPages(rest)
    ensures !left[j].status.Deleted? ==>
      left[j + 1..] == rest[1..] && left[..j + 1] + KeptPages(rest[1..]) == left[..j] + KeptPages(rest)
  {
    Cursor(left, j, rest);
    var kept := KeptPages(rest[1..]);
    assert left[..j] + ([left[j]] + kept) == (left[..j] + [left[j]]) + kept;
  }

  lemma PrintedStep(nqn: string, rest: seq<Page>, lines: seq<Line>)
    requires rest != []
    ensures lines + PageLines(nqn, rest) == lines + PageLine(nqn, rest[0]) + PageLines(nqn, rest[1..])
  {
    assert PageLines(nqn, rest) == PageLine(nqn, rest[0]) + PageLines(nqn, rest[1..]);
  }

  /** The pages of one subsystem, printed and swept. */
  method PrintPages(nqn: string, pages: seq<Page>) returns (left: seq<Page>, lines: seq<Line>)
    ensures left == KeptPages(pages) && lines == PageLines(nqn, pages)
  {
    ghost var rest := pages;
    var j := 0;
    left, lines := pages, [];
    while j < |left|
      invariant j <= |left| && left[j..] == rest
      invariant left[..j] + KeptPages(rest) == KeptPages(pages)
      invariant lines + PageLines(nqn, rest) == PageLines(nqn, pages)
      decreases |rest|
    {
      SweptStep(left, j, rest);
      PrintedStep(nqn, rest, lines);
      var page := left[j];
      if page.status.New? {
        lines := lines + [Added(page.e)];
        j := j + 1;
      } else if page.status.Deleted? {
        lines := lines + [Removed(nqn, page.e)];
        left := left[..j] + left[j + 1..];
      } else {
        j := j + 1;
      }
      rest := rest[1..];
    }
    assert left[..j] == left && rest == [];
  }

  lemma StoreStep(subs: Store, i: nat, rest: Store, now: Sub)
    requires i < |subs| && subs[i..] == rest && now == Sub(rest[0].nqn, KeptPages(rest[0].pages))
    ensures now.pages == [] ==>
      var next := subs[..i] + subs[i + 1..];
      next[i..] == rest[1..] && next[..i] + Kept(rest[1..]) == subs[..i] + Kept(rest)
    ensures now.pages != [] ==>
      var next := subs[i := now];
      next[i + 1..] == rest[1..] && next[..i + 1] + Kept(rest[1..]) == subs[..i] + Kept(rest)
  {
    Cursor(subs, i, rest);
    if now.pages == [] {
      assert Kept(rest) == Kept(rest[1..]);
    } else {
      assert Kept(rest) == [now] + Kept(rest[1..]);
      assert subs[i := now][..i + 1] == subs[..i] + [now];
      assert subs[i := now][i + 1..] == subs[i + 1..];
    }
  }

  lemma LinesStep(rest: Store, lines: seq<Line>)
    requires rest != []
    ensures lines + Lines(rest) == lines + SubLines(rest[0]) + Lines(rest[1..])
  {
  }

  method PrintLogPages(target: LogPages) returns (lines: seq<Line>)
    modifies target
    ensures target.subs == Kept(old(target.subs)) && lines == Lines(old(target.subs))
  {
    ghost var rest := target.subs;
    var i := 0;
    lines := [];
    while i < |target.subs|
      invariant i <= |target.subs| && target.subs[i..] == rest
      invariant target.subs[..i] + Kept(rest) == Kept(old(target.subs))
      invariant lines + Lines(rest) == Lines(old(target.subs))
      decreases |rest|
    {
      var subsys := target.subs[i];
      assert subsys == rest[0];
      var left, printed := PrintPages(subsys.nqn, subsys.pages);
      StoreStep(target.subs, i, rest, Sub(subsys.nqn, left));
      LinesStep(rest, lines);
      if left == [] {
        printed := printed + [Emptied(subsys.nqn)];
        target.subs := target.subs[..i] + target.subs[i + 1..];
      } else {
        target.subs := target.subs[i := Sub(subsys.nqn, left)];
        i := i + 1;
      }
      assert printed == SubLines(rest[0]);
      lines := lines + printed;
      rest := rest[1..];
    }
    assert target.subs[..i] == target.subs && rest == [];
  }

  /** The monitor's last sweep leaves subsystems in place, empty or not. */
  function Swept(store: Store): Store {
    seq(|store|, i requires 0 <= i < |store| => store[i].(pages := KeptPages(store[i].pages)))
  }

  lemma {:induction false} NothingDeleted(pages: seq<Page>)
    requires forall j :: 0 <= j < |pages| ==> !pages[j].status.Deleted?
    ensures KeptPages(pages) == pages
  {
    if pages != [] {
      NothingDeleted(pages[1..]);
    }
  }

  /** After the report that last sweep finds nothing to remove. */
  lemma NothingToSweep(store: Store)
    ensures Swept(Kept(store)) == Kept(store)
  {
    var kept := Kept(store);
    KeptClean(store);
    forall i | 0 <= i < |kept| {
      NothingDeleted(kept[i].pages);
    }
  }

  method SweepPages(pages: seq<Page>) returns (left: seq<Page>)
    ensures left == KeptPages(pages)
  {
    ghost var rest := pages;
    var j := 0;
    left := pages;
    while j < |left|
      invariant j <= |left| && left[j..] == rest
      invariant left[..j] + KeptPages(rest) == KeptPages(pages)
      decreases |rest|
    {
      SweptStep(left, j, rest);
      if left[j].status.Deleted? {
        left := left[..j] + left[j + 1..];
      } else {
        j := j + 1;
      }
      rest := rest[1..];
    }
    assert left[..j] == left && rest == [];
  }

  method CleanupLogPages(target: LogPages)
    modifies target
    ensures target.subs == Swept(old(target.subs))
  {
    for i := 0 to |target.subs|
      invariant |target.subs| == |old(target.subs)|
      invariant forall k :: 0 <= k < i ==> target.subs[k] == Swept(old(target.subs))[k]
      invariant forall k :: i <= k < |target.subs| ==> target.subs[k] == old(target.subs)[k]
    {
      var left := SweepPages(target.subs[i].pages);
      target.subs := target.subs[i := target.subs[i].(pages := left)];
    }
  }

  /** One update: the list and the report are those of the specification. */
  method ReportUpdates(target: LogPages, fetched: Option<seq<Entry>>, ghost r: Run) returns (lines: seq<Line>)
    requires r.store == target.subs
    modifies target
    ensures target.subs == Update(r, fetched).store
    ensures Replay(r.known, lines) == Update(r, fetched).known
    ensures lines == Lines(if fetched.Some? then AfterFetch(old(target.subs), fetched.value) else old(target.subs))
  {
    target.FetchLogPages(fetched);
    ghost var store := target.subs;
    lines := PrintLogPages(target);
    CleanupLogPages(target);
    NothingToSweep(store);
  }
}
