/** The two reads with which a client fetches the discovery log (get_logpages of
    src/common/logpages.c), while the configuration that the server shows may change between
    them, and the sizes that they ask for. */
module TwoPhase {
  import opened CTypes
  import opened DemTypes
  import opened Options
  import opened LogStore
  import Monitor
  import D = Discovery
  import Uri

  const COUNT_SIZE: U32 := D.COUNT_SIZE
  const ENTRY_SIZE := D.ENTRY_SIZE
  const GENCTR := 1

  // Sizes on the wire.

  function PutLe24(val: U32): (p: seq<U8>)
    ensures |p| == 3
  {
    [val % 0x100, (val / 0x100) % 0x100, (val / 0x1_0000) % 0x100]
  }

  function GetLe24(p: seq<U8>): U32
    requires |p| == 3
  {
    p[0] as int + p[1] as int * 0x100 + p[2] as int * 0x1_0000
  }

  /** The size of the second read, in the client's 32 bits. */
  function LogSize(n: nat): U32 {
    ToU32(ENTRY_SIZE + ENTRY_SIZE * n)
  }

  lemma Le24KeepsLowBits(val: U32)
    ensures GetLe24(PutLe24(val)) == val % 0x100_0000
  {
    var q, r := val / 0x100_0000, val % 0x100_0000;
    assert val == 0x100_0000 * q + r;
    assert val % 0x100 == r % 0x100;
    assert val / 0x100 == 0x1_0000 * q + r / 0x100;
    assert (val / 0x100) % 0x100 == (r / 0x100) % 0x100;
    assert val / 0x1_0000 == 0x100 * q + r / 0x1_0000;
    assert (val / 0x1_0000) % 0x100 == r / 0x1_0000;
  }

  /** The size of a read of n entries reaches the server if and only if it is less than 2^24,
      that is, for less than 16383 entries. Whatever reaches it is a whole number of records,
      no more than the client has room for, and never the size of a read of the count. */
  lemma LengthSurvives(n: nat)
    ensures GetLe24(PutLe24(LogSize(n))) == ENTRY_SIZE * (n + 1) <==> ENTRY_SIZE * (n + 1) < 0x100_0000
    ensures GetLe24(PutLe24(LogSize(n))) == ENTRY_SIZE * ((n + 1) % 0x4000)
    ensures GetLe24(PutLe24(LogSize(n))) <= LogSize(n)
    ensures GetLe24(PutLe24(LogSize(n))) != COUNT_SIZE
  {
    Le24KeepsLowBits(LogSize(n));
    ThreeBytesOf(n + 1);
  }

  /** Only the low 14 bits of the number of kilobytes are kept. */
  lemma ThreeBytesOf(m: nat)
    ensures (ENTRY_SIZE * m) % 0x1_0000_0000 % 0x100_0000 == ENTRY_SIZE * (m % 0x4000)
  {
    var q, r := m / 0x4000, m % 0x4000;
    assert ENTRY_SIZE * m == 0x100_0000 * q + ENTRY_SIZE * r;
    ModOfMod(ENTRY_SIZE * m);
    ModOfSum(q, ENTRY_SIZE * r);
  }

  lemma ModOfMod(x: nat)
    ensures x % 0x1_0000_0000 % 0x100_0000 == x % 0x100_0000
  {
    var y := x % 0x1_0000_0000;
    assert x == 0x100_0000 * (0x100 * (x / 0x1_0000_0000) + y / 0x100_0000) + y % 0x100_0000;
    ModOfSum(0x100 * (x / 0x1_0000_0000) + y / 0x100_0000, y % 0x100_0000);
  }

  lemma ModOfSum(q: nat, r: nat)
    requires r < 0x100_0000
    ensures (0x100_0000 * q + r) % 0x100_0000 == r
  {
  }

  // Field contents.

  /** The text before the first blank. */
  function Trimmed(s: string): (r: string)
    ensures r <= s && ' ' !in r
    ensures |r| == |s| || s[|r|] == ' '
  {
    if s == "" || s[0] == ' ' then "" else [s[0]] + Trimmed(s[1..])
  }

  function TrimmedEntry(e: Entry): Entry {
    e.(traddr := Trimmed(e.traddr), subnqn := Trimmed(e.subnqn), trsvcid := Trimmed(e.trsvcid))
  }

  function TrimmedLog(log: seq<Entry>): (r: seq<Entry>)
    ensures |r| == |log|
  {
    seq(|log|, i requires 0 <= i < |log| => TrimmedEntry(log[i]))
  }

  lemma TrimmedCons(c: char, rest: string)
    ensures Trimmed([c] + rest) == if c == ' ' then "" else [c] + Trimmed(rest)
  {
    assert ([c] + rest)[1..] == rest;
  }

  lemma TrimmedStep(buf: seq<char>, i: nat)
    requires i < |buf| && buf[i] != '\0'
    ensures buf[i] == ' ' ==> Trimmed(Uri.CString(buf, i)) == ""
    ensures buf[i] != ' ' ==>
      && buf[..i] + Uri.CString(buf, i) == buf[..i + 1] + Uri.CString(buf, i + 1)
      && buf[..i] + Trimmed(Uri.CString(buf, i)) == buf[..i + 1] + Trimmed(Uri.CString(buf, i + 1))
  {
    var rest := Uri.CString(buf, i + 1);
    TrimmedCons(buf[i], rest);
    Moved(buf, i, rest);
    Moved(buf, i, Trimmed(rest));
  }

  lemma Moved(buf: seq<char>, i: nat, rest: string)
    requires i < |buf|
    ensures buf[..i] + ([buf[i]] + rest) == buf[..i + 1] + rest
  {
  }

  /** trim() ends the field at its first blank. */
  method Trim(p: array<char>)
    modifies p
    ensures Uri.CString(p[..], 0) == Trimmed(old(Uri.CString(p[..], 0)))
  {
    var i := 0;
    ghost var was := p[..];
    while i < p.Length && p[i] != '\0'
      invariant i <= p.Length && p[..] == was
      invariant forall k :: 0 <= k < i ==> was[k] != ' ' && was[k] != '\0'
      invariant Uri.CString(was, 0) == was[..i] + Uri.CString(was, i)
      invariant Trimmed(Uri.CString(was, 0)) == was[..i] + Trimmed(Uri.CString(was, i))
    {
      TrimmedStep(was, i);
      if p[i] == ' ' {
        p[i] := '\0';
        assert p[..][0..i] == was[..i];
        Uri.CStringIs(p[..], 0, i);
        return;
      }
      i := i + 1;
    }
  }

  // The reads.

  /** What a read finds: nothing when it fails, or the memory that the server had then. */
  type Read = Option<D.Memory>

  /** The result of a fetch. After an overrun of the server's buffer, anything may come back. */
  datatype Fetch = Accepted(log: seq<Entry>) | Rejected | Overrun

  /** The answer to a read whose size has come over the wire. */
  function Served(m: D.Memory, nqn: string, size: U32): D.Reply
    requires D.MemoryOk(m)
  {
    D.Answer(m, nqn, GetLe24(PutLe24(size)))
  }

  function Fetched(first: Read, second: Read, nqn: string): Fetch
    requires first.Some? ==> D.MemoryOk(first.value)
    requires second.Some? ==> D.MemoryOk(second.value)
  {
    if first.None? then Rejected
    else
      var n := |D.View(first.value, D.ByNqn(nqn))|;
      if n == 0 then Accepted([])
      else if second.None? then Rejected
      else match Served(second.value, nqn, LogSize(n))
        case Log(entries) => if |entries| == n then Accepted(TrimmedLog(entries)) else Rejected
        case Count(_) => Rejected
        case Overrun => Overrun
  }

  /** A read of the given size: the server takes the size from three bytes of the command, which
      over TCP are the low ones of four. */
  method SendGetLogPage(server: Read, nqn: string, size: U32) returns (reply: Option<D.Reply>)
    requires server.Some? ==> D.MemoryOk(server.value)
    ensures reply == if server.None? then None else Some(Served(server.value, nqn, size))
  {
    if server.None? {
      return None;
    }
    var r := D.HandleGetLogPage(server.value, nqn, GetLe24(PutLe24(size)));
    return Some(r);
  }

  /** get_logpages against the server: a count, and then the entries if there are any. */
  method GetLogpages(first: Read, second: Read, nqn: string) returns (fetched: Fetch)
    requires first.Some? ==> D.MemoryOk(first.value)
    requires second.Some? ==> D.MemoryOk(second.value)
    ensures fetched == Fetched(first, second, nqn)
  {
    Le24KeepsLowBits(COUNT_SIZE);
    var hdr := SendGetLogPage(first, nqn, COUNT_SIZE);
    if hdr.None? {
      return Rejected;
    }
    var numrec, genctr := hdr.value.numrec, GENCTR;
    if numrec == 0 {
      return Accepted([]);
    }
    LengthSurvives(numrec);
    hdr := SendGetLogPage(second, nqn, LogSize(numrec));
    if hdr.None? {
      return Rejected;
    }
    if hdr.value.Overrun? {
      return Overrun;
    }
    var entries := hdr.value.entries;
    if |entries| != numrec || genctr != GENCTR {
      return Rejected;
    }
    var log: seq<Entry> := [];
    for i := 0 to |entries|
      invariant log == TrimmedLog(entries)[..i]
    {
      var e := entries[i];
      log := log + [e.(traddr := Trimmed(e.traddr), subnqn := Trimmed(e.subnqn), trsvcid := Trimmed(e.trsvcid))];
    }
    assert TrimmedLog(entries)[..|entries|] == TrimmedLog(entries);
    return Accepted(log);
  }

  /** When the first read finds n pages, the copy for the second read stays inside the server's
      buffer if and only if fewer pages are visible by then than the buffer holds records; for
      less than 16383 pages that means no more than there were, and for 16383 it never does. */
  lemma CopyStaysInside(n: nat, second: D.Memory, nqn: string)
    requires D.MemoryOk(second)
    ensures var len := GetLe24(PutLe24(LogSize(n)));
      var reply, visible := D.Answer(second, nqn, len), |D.View(second, D.ByNqn(nqn))|;
      && (reply == D.Log(D.View(second, D.ByNqn(nqn))) <==> visible <= len / ENTRY_SIZE - 1)
      && (reply == D.Overrun <==> visible > len / ENTRY_SIZE - 1)
      && (n < 0x3fff ==> len / ENTRY_SIZE - 1 == n) && (n == 0x3fff ==> len == 0)
  {
    LengthSurvives(n);
    var records := (n + 1) % 0x4000;
    assert GetLe24(PutLe24(LogSize(n))) / ENTRY_SIZE == records;
  }

  /** With the configuration free to change between the reads, a fetch that finds pages at the
      first read is accepted if and only if as many are visible at the second and the size of
      the read is less than 2^24, and then it is exactly what is visible at the second read. It
      overruns the server if and only if more pages are visible by then than the size that
      arrives has room for, and is rejected in the cases left. */
  lemma AcceptedIsSnapshot(first: D.Memory, second: D.Memory, nqn: string)
    requires D.MemoryOk(first) && D.MemoryOk(second)
    ensures var n, view := |D.View(first, D.ByNqn(nqn))|, D.View(second, D.ByNqn(nqn));
      var fetched := Fetched(Some(first), Some(second), nqn);
      && (n == 0 ==> fetched == Accepted([]))
      && (n > 0 ==> (fetched.Accepted? <==> |view| == n && ENTRY_SIZE * (n + 1) < 0x100_0000))
      && (n > 0 && fetched.Accepted? ==> fetched.log == TrimmedLog(view))
      && (n > 0 ==> (fetched.Overrun? <==> |view| + 1 > (n + 1) % 0x4000))
  {
    var n := |D.View(first, D.ByNqn(nqn))|;
    LengthSurvives(n);
    CopyStaysInside(n, second, nqn);
    assert GetLe24(PutLe24(LogSize(n))) / ENTRY_SIZE == (n + 1) % 0x4000;
  }

  /** While nothing changes, a fetch is accepted if and only if less than 16383 pages are
      visible; with more, it overruns the server. */
  lemma UnchangedFetch(m: D.Memory, nqn: string)
    requires D.MemoryOk(m)
    ensures var view := D.View(m, D.ByNqn(nqn));
      Fetched(Some(m), Some(m), nqn) == if |view| < 0x3fff then Accepted(TrimmedLog(view)) else Overrun
  {
    AcceptedIsSnapshot(m, m, nqn);
    if D.View(m, D.ByNqn(nqn)) == [] {
      assert TrimmedLog(D.View(m, D.ByNqn(nqn))) == [];
    }
  }

  /** A memory with one open subsystem. */
  function OpenPages(pages: seq<LogPage>): D.Memory {
    D.Memory([Target("t", false, [], [Subsystem("s", 1, [], [], pages)])], [], [])
  }

  /** A page that becomes valid between the two reads is written past the server's buffer. */
  lemma PageBetweenReads(e: Entry, nqn: string)
    ensures var first := OpenPages([LogPage(e, true), LogPage(e, false)]);
      var second := OpenPages([LogPage(e, true), LogPage(e, true)]);
      Fetched(Some(first), Some(second), nqn) == Overrun
  {
    var first := OpenPages([LogPage(e, true), LogPage(e, false)]);
    var second := OpenPages([LogPage(e, true), LogPage(e, true)]);
    OpenView(first.targets[0].subsystems[0].logpages, nqn);
    OpenView(second.targets[0].subsystems[0].logpages, nqn);
    TwoPages(LogPage(e, true), LogPage(e, false));
    TwoPages(LogPage(e, true), LogPage(e, true));
    AcceptedIsSnapshot(first, second, nqn);
  }

  lemma OpenView(pages: seq<LogPage>, nqn: string)
    ensures D.View(OpenPages(pages), D.ByNqn(nqn)) == D.PagesView(pages)
  {
    var m := OpenPages(pages);
    assert D.ViewTo(m, D.ByNqn(nqn), 0) == [];
    assert D.SubsView(m.targets[0].subsystems, D.ByNqn(nqn)) == D.PagesView(pages);
  }

  lemma TwoPages(p: LogPage, q: LogPage)
    ensures D.PagesView([p, q]) == (if p.valid then [p.e] else []) + (if q.valid then [q.e] else [])
  {
    assert [p, q][..1] == [p] && [p][..0] == [];
    assert D.PagesView([p]) == D.PagesView([p][..0]) + if p.valid then [p.e] else [];
  }

  /** When no visible entry has a blank in its strings, a client sees what the server shows. */
  lemma NoBlanksNoChange(log: seq<Entry>)
    requires forall i :: 0 <= i < |log| ==> ' ' !in log[i].traddr && ' ' !in log[i].subnqn && ' ' !in log[i].trsvcid
    ensures TrimmedLog(log) == log
  {
    forall i | 0 <= i < |log|
      ensures TrimmedEntry(log[i]) == log[i]
    {
      NoBlank(log[i].traddr);
      NoBlank(log[i].subnqn);
      NoBlank(log[i].trsvcid);
    }
  }

  lemma NoBlank(s: string)
    requires ' ' !in s
    ensures Trimmed(s) == s
  {
    assert forall k :: 0 <= k < |s| ==> s[k] in s;
  }

  /** What the client makes of a fetch; of one that overran the server, anything. */
  function Outcome(fetched: Fetch, anything: Option<seq<Entry>>): Option<seq<Entry>> {
    match fetched
    case Accepted(log) => Some(log)
    case Rejected => None
    case Overrun => anything
  }

  /** An update of the monitor from such a fetch: one that is rejected leaves the list alone,
      one that is accepted leaves exactly the keys of the last read. */
  method UpdateFrom(target: LogPages, first: Read, second: Read, nqn: string, anything: Option<seq<Entry>>)
    requires first.Some? ==> D.MemoryOk(first.value)
    requires second.Some? ==> D.MemoryOk(second.value)
    modifies target
    ensures Fetched(first, second, nqn).Rejected? ==> target.subs == old(target.subs)
    ensures Fetched(first, second, nqn).Accepted? ==>
      target.subs == Monitor.AfterFetch(old(target.subs), Fetched(first, second, nqn).log)
  {
    var fetched := GetLogpages(first, second, nqn);
    target.FetchLogPages(Outcome(fetched, anything));
  }
}
