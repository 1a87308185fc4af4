/** The life of a host connection: host_thread of src/dem/pseudo_target.c, from the queue
    through the list of hosts it polls to its release. */
module HostThread {
  import opened CTypes
  import opened Options

  /** The address of an endpoint. */
  type Endpoint = nat

  const RETRY_COUNT := 200
  const KATO_INTERVAL := 500
  const DELAY_TIMEOUT := 100

  datatype HostConn = HostConn(ep: Endpoint, kato: int, countdown: int)

  /** What poll_for_msg and handle_request make of one poll. No message is -EAGAIN; any other
      error, from the transport or from the handler, ends the connection. */
  datatype Poll = Request | SetKato(kato: U32) | Failed | NoMessage

  function KatoOf(kato: U32): Int32 {
    ToInt32(ToU32(kato * (KATO_INTERVAL / DELAY_TIMEOUT)))
  }

  predicate Succeeds(p: Poll) {
    p.Request? || p.SetKato?
  }

  function Handled(h: HostConn, p: Poll): HostConn
    requires Succeeds(p)
  {
    var kato := if p.SetKato? then KatoOf(p.kato) else h.kato;
    HostConn(h.ep, kato, kato)
  }

  /** The polls of one host in one pass; None means that the host was dropped. A pass whose
      polls run out ends with one that finds no message. */
  function Service(h: HostConn, polls: seq<Poll>): Option<HostConn>
    decreases |polls|
  {
    if polls == [] || polls[0].NoMessage? then
      if h.countdown - 1 > 0 then Some(h.(countdown := h.countdown - 1)) else None
    else if Succeeds(polls[0]) then Service(Handled(h, polls[0]), polls[1..])
    else None
  }

  datatype State = State(queued: seq<Endpoint>, hosts: seq<HostConn>, released: seq<Endpoint>)

  function Endpoints(hosts: seq<HostConn>): seq<Endpoint> {
    seq(|hosts|, i requires 0 <= i < |hosts| => hosts[i].ep)
  }

  /** Everything that was accepted and where it now is. */
  function Everyone(s: State): multiset<Endpoint> {
    multiset(s.queued) + multiset(Endpoints(s.hosts)) + multiset(s.released)
  }

  function NewHost(ep: Endpoint): HostConn {
    HostConn(ep, RETRY_COUNT, RETRY_COUNT)
  }

  function Intake(s: State): State {
    State([], s.hosts + seq(|s.queued|, i requires 0 <= i < |s.queued| => NewHost(s.queued[i])), s.released)
  }

  /** One pass over the hosts; host i is polled polls[i]. */
  function Pass(hosts: seq<HostConn>, released: seq<Endpoint>, polls: seq<seq<Poll>>): (seq<HostConn>, seq<Endpoint>)
    requires |polls| == |hosts|
  {
    if hosts == [] then ([], released)
    else
      var n := |hosts| - 1;
      var (kept, gone) := Pass(hosts[..n], released, polls[..n]);
      match Service(hosts[n], polls[n])
      case Some(h) => (kept + [h], gone)
      case None => (kept, gone + [hosts[n].ep])
  }

  function Shutdown(s: State): State {
    State([], [], s.released + Endpoints(s.hosts) + s.queued)
  }

  datatype Event = Accept(ep: Endpoint) | Round(polls: seq<seq<Poll>>) | Stop

  /** A round takes in what is queued and then polls every host once. */
  predicate Applies(s: State, e: Event) {
    e.Round? ==> |e.polls| == |s.hosts| + |s.queued|
  }

  function Step(s: State, e: Event): State
    requires Applies(s, e)
  {
    match e
    case Accept(ep) => s.(queued := s.queued + [ep])
    case Round(polls) =>
      var t := Intake(s);
      var (kept, gone) := Pass(t.hosts, t.released, polls);
      State(t.queued, kept, gone)
    case Stop => Shutdown(s)
  }

  lemma EndpointsAppend(a: seq<HostConn>, b: seq<HostConn>)
    ensures Endpoints(a + b) == Endpoints(a) + Endpoints(b)
  {
  }

  lemma {:induction false} ServiceKeepsEndpoint(h: HostConn, polls: seq<Poll>)
    ensures Service(h, polls).Some? ==> Service(h, polls).value.ep == h.ep
    decreases |polls|
  {
    if polls != [] && Succeeds(polls[0]) {
      ServiceKeepsEndpoint(Handled(h, polls[0]), polls[1..]);
    }
  }

  lemma Added(a: seq<Endpoint>, b: seq<Endpoint>, c: seq<Endpoint>, d: seq<Endpoint>, ep: Endpoint)
    requires multiset(a) + multiset(b) == multiset(c) + multiset(d)
    ensures multiset(a + [ep]) + multiset(b) == multiset(c + [ep]) + multiset(d)
  {
    calc {
      multiset(a + [ep]) + multiset(b);
      multiset(a) + multiset(b) + multiset{ep};
      multiset(c) + multiset(d) + multiset{ep};
      multiset(c + [ep]) + multiset(d);
    }
  }

  lemma {:induction false} PassConserves(hosts: seq<HostConn>, released: seq<Endpoint>, polls: seq<seq<Poll>>)
    requires |polls| == |hosts|
    ensures var (kept, gone) := Pass(hosts, released, polls);
      multiset(Endpoints(kept)) + multiset(gone) == multiset(Endpoints(hosts)) + multiset(released)
  {
    if hosts == [] {
      return;
    }
    var n := |hosts| - 1;
    PassConserves(hosts[..n], released, polls[..n]);
    ServiceKeepsEndpoint(hosts[n], polls[n]);
    assert hosts == hosts[..n] + [hosts[n]];
    EndpointsAppend(hosts[..n], [hosts[n]]);
    assert Endpoints([hosts[n]]) == [hosts[n].ep];
    var (kept, gone) := Pass(hosts[..n], released, polls[..n]);
    match Service(hosts[n], polls[n])
    case Some(h) =>
      EndpointsAppend(kept, [h]);
      assert Endpoints([h]) == [hosts[n].ep];
      Added(Endpoints(kept), gone, Endpoints(hosts[..n]), released, hosts[n].ep);
    case None =>
      Added(gone, Endpoints(kept), Endpoints(hosts[..n]), released, hosts[n].ep);
  }

  lemma IntakeConserves(s: State)
    ensures Everyone(Intake(s)) == Everyone(s)
  {
    var taken := seq(|s.queued|, i requires 0 <= i < |s.queued| => NewHost(s.queued[i]));
    EndpointsAppend(s.hosts, taken);
    assert Endpoints(taken) == s.queued;
  }

  lemma RoundConserves(s: State, polls: seq<seq<Poll>>)
    requires Applies(s, Round(polls))
    ensures Everyone(Step(s, Round(polls))) == Everyone(s)
  {
    IntakeConserves(s);
    var t := Intake(s);
    PassConserves(t.hosts, t.released, polls);
    var (kept, gone) := Pass(t.hosts, t.released, polls);
    assert Step(s, Round(polls)) == State([], kept, gone);
    assert t.queued == [];
    calc {
      Everyone(State([], kept, gone));
      multiset(Endpoints(kept)) + multiset(gone);
      multiset(Endpoints(t.hosts)) + multiset(t.released);
      Everyone(t);
    }
  }

  lemma AcceptConserves(s: State, ep: Endpoint)
    ensures Everyone(Step(s, Accept(ep))) == Everyone(s) + multiset{ep}
  {
  }

  lemma StopConserves(s: State)
    ensures Everyone(Shutdown(s)) == Everyone(s)
  {
    assert Endpoints([]) == [];
  }

  lemma StepConserves(s: State, e: Event)
    requires Applies(s, e)
    ensures Everyone(Step(s, e)) == Everyone(s) + if e.Accept? then multiset{e.ep} else multiset{}
  {
    match e
    case Accept(ep) => AcceptConserves(s, ep);
    case Round(polls) => RoundConserves(s, polls);
    case Stop => StopConserves(s);
  }

  function Accepted(events: seq<Event>): seq<Endpoint> {
    if events == [] then []
    else Accepted(events[..|events| - 1]) + match events[|events| - 1] { case Accept(ep) => [ep] case _ => [] }
  }

  ghost predicate Possible(s: State, events: seq<Event>) {
    events == [] ||
    var n := |events| - 1;
    Possible(s, events[..n]) && Applies(Run(s, events[..n]), events[n])
  }

  ghost function Run(s: State, events: seq<Event>): State {
    if events == [] then s
    else
      var n := |events| - 1;
      var t := Run(s, events[..n]);
      if Applies(t, events[n]) then Step(t, events[n]) else t
  }

  /** Over any run, every accepted endpoint is in exactly one place, as often as it was
      accepted: waiting, served or released. */
  lemma {:induction false} RunConserves(events: seq<Event>)
    requires Possible(State([], [], []), events)
    ensures Everyone(Run(State([], [], []), events)) == multiset(Accepted(events))
  {
    if events != [] {
      var n := |events| - 1;
      RunConserves(events[..n]);
      StepConserves(Run(State([], [], []), events[..n]), events[n]);
    }
  }

  /** When each endpoint is accepted once, none is released twice, or while it is in use. */
  lemma ReleasedOnce(events: seq<Event>, ep: Endpoint)
    requires Possible(State([], [], []), events)
    requires multiset(Accepted(events))[ep] == 1
    ensures var s := Run(State([], [], []), events);
      multiset(s.queued)[ep] + multiset(Endpoints(s.hosts))[ep] + multiset(s.released)[ep] == 1
  {
    RunConserves(events);
    assert Everyone(Run(State([], [], []), events))[ep] == 1;
  }

  /** The drain leaves nobody waiting or served: all that was accepted before it is released. */
  lemma StopReleasesAll(events: seq<Event>)
    requires Possible(State([], [], []), events)
    ensures var s := Shutdown(Run(State([], [], []), events));
      s.queued == [] && s.hosts == [] && multiset(s.released) == multiset(Accepted(events))
  {
    RunConserves(events);
  }

  function Accepts(late: seq<Endpoint>): (r: seq<Event>)
    ensures |r| == |late|
  {
    seq(|late|, i requires 0 <= i < |late| => Accept(late[i]))
  }

  lemma {:induction false} LateStay(s: State, late: seq<Endpoint>)
    ensures Run(s, Accepts(late)) == s.(queued := s.queued + late)
  {
    if late == [] {
      assert s.queued + late == s.queued;
    } else {
      var n := |late| - 1;
      assert Accepts(late)[..n] == Accepts(late[..n]);
      LateStay(s, late[..n]);
      assert late == late[..n] + [late[n]];
      assert s.queued + late[..n] + [late[n]] == s.queued + late;
    }
  }

  /** The thread ends with the drain, but the interface thread may be about to add an endpoint:
      what is accepted after the drain is never released, so that all that was accepted is
      released if and only if nothing came after it. */
  lemma LateAreNotReleased(events: seq<Event>, late: seq<Endpoint>)
    requires Possible(State([], [], []), events)
    ensures var s := Run(Shutdown(Run(State([], [], []), events)), Accepts(late));
      && s.queued == late && s.hosts == [] && multiset(s.released) == multiset(Accepted(events))
      && (multiset(s.released) == multiset(Accepted(events) + late) <==> late == [])
  {
    var t := Shutdown(Run(State([], [], []), events));
    StopReleasesAll(events);
    LateStay(t, late);
    assert multiset(Accepted(events) + late) == multiset(Accepted(events)) + multiset(late);
    if late != [] {
      assert late[0] in multiset(late);
      assert multiset(Accepted(events) + late)[late[0]] > multiset(Accepted(events))[late[0]];
    } else {
      assert Accepted(events) + late == Accepted(events);
    }
  }

  // How long a silent host is kept.

  /** The host is still there after n more passes in which it says nothing. */
  predicate SurvivesSilence(h: HostConn, n: nat)
    decreases n
  {
    n == 0 || match Service(h, []) { case Some(k) => SurvivesSilence(k, n - 1) case None => false }
  }

  lemma {:induction false} SilenceLimit(h: HostConn, n: nat)
    ensures SurvivesSilence(h, n) <==> n == 0 || n < h.countdown
    decreases n
  {
    if n > 0 && h.countdown - 1 > 0 {
      SilenceLimit(h.(countdown := h.countdown - 1), n - 1);
    }
  }

  function LastKato(kato: int, polls: seq<Poll>): int
    decreases |polls|
  {
    if polls == [] then kato
    else LastKato(if polls[0].SetKato? then KatoOf(polls[0].kato) else kato, polls[1..])
  }

  lemma {:induction false} ServiceThenSilent(h: HostConn, polls: seq<Poll>)
    requires forall p <- polls :: Succeeds(p)
    ensures polls != [] ==>
      var k := LastKato(h.kato, polls);
      Service(h, polls) == Service(HostConn(h.ep, k, k), [])
    decreases |polls|
  {
    if polls != [] {
      var next := Handled(h, polls[0]);
      ServiceThenSilent(next, polls[1..]);
      if polls[1..] == [] {
        assert LastKato(next.kato, polls[1..]) == next.kato;
      }
    }
  }

  /** After a pass with successful requests a host is dropped by exactly the max(1, kato)-th
      consecutive poll without a message, the first of them in that same pass. */
  lemma DroppedExactly(h: HostConn, polls: seq<Poll>, n: nat)
    requires polls != [] && (forall p <- polls :: Succeeds(p)) && n > 0
    ensures var k := LastKato(h.kato, polls);
      var limit := if k > 1 then k else 1;
      (Service(h, polls).Some? && SurvivesSilence(Service(h, polls).value, n - 1)) <==> n < limit
  {
    var k := LastKato(h.kato, polls);
    ServiceThenSilent(h, polls);
    SilenceLimit(HostConn(h.ep, k, k), n);
  }

  /** The timeout a host asks for, in units of 500 ms, counts in polls of 100 ms, and wraps like
      the int it is kept in. */
  lemma KatoIs(kato: U32)
    ensures 5 * kato < 0x8000_0000 ==> KatoOf(kato) == 5 * kato
    ensures (KatoOf(kato) - 5 * kato) % 0x1_0000_0000 == 0
  {
    var u := (5 * kato) % 0x1_0000_0000;
    var q := (5 * kato) / 0x1_0000_0000;
    assert KatoOf(kato) == u || KatoOf(kato) == u - 0x1_0000_0000;
    assert KatoOf(kato) - 5 * kato == -q * 0x1_0000_0000 || KatoOf(kato) - 5 * kato == (-q - 1) * 0x1_0000_0000;
  }

  /** A host that never says anything is dropped by its 200th poll. */
  lemma NewHostLimit(ep: Endpoint, n: nat)
    ensures SurvivesSilence(NewHost(ep), n) <==> n < 200
  {
    SilenceLimit(NewHost(ep), n);
  }

  /** A failure drops the host at once, whatever requests came before it and whatever comes
      after, and a poll without a message ends the pass. */
  lemma {:induction false} PassEnds(h: HostConn, polls: seq<Poll>, i: nat)
    requires i < |polls| && !Succeeds(polls[i]) && forall k :: 0 <= k < i ==> Succeeds(polls[k])
    ensures polls[i].Failed? ==> Service(h, polls) == None
    ensures polls[i].NoMessage? ==> Service(h, polls) == Service(h, polls[..i])
    decreases i
  {
    if i == 0 {
      assert polls[..0] == [];
    } else {
      var next := Handled(h, polls[0]);
      PassEnds(next, polls[1..], i - 1);
      assert polls[..i][0] == polls[0] && polls[..i][1..] == polls[1..][..i - 1];
    }
  }

  ghost predicate Increasing(at: seq<nat>, n: nat) {
    (forall k :: 0 <= k < |at| ==> at[k] < n) && forall j, k :: 0 <= j < k < |at| ==> at[j] < at[k]
  }

  /** A pass keeps the hosts that it does not drop and releases the others, each in list order. */
  lemma {:induction false} PassSorts(hosts: seq<HostConn>, released: seq<Endpoint>, polls: seq<seq<Poll>>)
    returns (stay: seq<nat>, go: seq<nat>)
    requires |polls| == |hosts|
    ensures Increasing(stay, |hosts|) && Increasing(go, |hosts|)
    ensures forall i :: 0 <= i < |hosts| ==>
      (i in stay <==> Service(hosts[i], polls[i]).Some?) && (i in go <==> Service(hosts[i], polls[i]).None?)
    ensures var (kept, gone) := Pass(hosts, released, polls);
      && |kept| == |stay| && (forall k :: 0 <= k < |stay| ==> Some(kept[k]) == Service(hosts[stay[k]], polls[stay[k]]))
      && |gone| == |released| + |go| && gone[..|released|] == released
      && (forall k :: 0 <= k < |go| ==> gone[|released| + k] == hosts[go[k]].ep)
  {
    stay, go := [], [];
    if hosts != [] {
      var n := |hosts| - 1;
      stay, go := PassSorts(hosts[..n], released, polls[..n]);
      if Service(hosts[n], polls[n]).Some? {
        stay := stay + [n];
      } else {
        go := go + [n];
      }
    }
  }

  class Thread {
    var queued: seq<Endpoint>
    var hosts: seq<HostConn>
    var released: seq<Endpoint>

    function View(): State
      reads this
    {
      State(queued, hosts, released)
    }

    /** The loop that empties the queue into the list. */
    method TakeNewHosts()
      modifies this
      ensures View() == Intake(old(View()))
    {
      ghost var i := 0;
      while queued != []
        invariant 0 <= i <= |old(queued)| && queued == old(queued)[i..] && released == old(released)
        invariant hosts == old(hosts) + seq(i, k requires 0 <= k < |old(queued)| => NewHost(old(queued)[k]))
        decreases |queued|
      {
        var ep := queued[0];
        queued := queued[1..];
        hosts := hosts + [HostConn(ep, RETRY_COUNT, RETRY_COUNT)];
        i := i + 1;
      }
    }

    /** The polls of one host, with its jumps back while requests succeed. */
    method Poll(h: HostConn, polls: seq<Poll>) returns (host: HostConn, keep: bool)
      ensures keep ==> Service(h, polls) == Some(host)
      ensures !keep ==> Service(h, polls) == None
    {
      host := h;
      var i := 0;
      while i < |polls| && Succeeds(polls[i])
        invariant i <= |polls| && Service(h, polls) == Service(host, polls[i..])
      {
        if polls[i].SetKato? {
          host := host.(kato := KatoOf(polls[i].kato));
        }
        host := host.(countdown := host.kato);
        i := i + 1;
      }
      if i == |polls| || polls[i].NoMessage? {
        host := host.(countdown := host.countdown - 1);
        keep := host.countdown > 0;
      } else {
        keep := false;
      }
    }

    /** The pass over the host list, which drops hosts as it goes. */
    method ServiceHosts(polls: seq<seq<Poll>>)
      requires |polls| == |hosts|
      modifies this
      ensures (hosts, released) == Pass(old(hosts), old(released), polls)
      ensures queued == old(queued)
    {
      var all := hosts;
      hosts := [];
      for i := 0 to |all|
        invariant (hosts, released) == Pass(all[..i], old(released), polls[..i])
        invariant queued == old(queued)
      {
        assert all[..i + 1][..i] == all[..i] && polls[..i + 1][..i] == polls[..i];
        var host, keep := Poll(all[i], polls[i]);
        if keep {
          hosts := hosts + [host];
        } else {
          released := released + [all[i].ep];
        }
      }
      assert all[..|all|] == all && polls[..|all|] == polls;
    }

    method RunOnce(polls: seq<seq<Poll>>)
      requires Applies(View(), Round(polls))
      modifies this
      ensures View() == Step(old(View()), Round(polls))
    {
      TakeNewHosts();
      ServiceHosts(polls);
    }

    /** The release of the hosts and then of the queue when the thread ends. */
    method Drain()
      modifies this
      ensures View() == Shutdown(old(View()))
    {
      for i := 0 to |hosts|
        invariant hosts == old(hosts) && queued == old(queued)
        invariant released == old(released) + Endpoints(hosts[..i])
      {
        released := released + [hosts[i].ep];
      }
      assert hosts[..|hosts|] == hosts;
      hosts := [];
      ghost var done := released;
      ghost var j := 0;
      while queued != []
        invariant 0 <= j <= |old(queued)| && queued == old(queued)[j..] && hosts == []
        invariant released == done + old(queued)[..j]
        decreases |queued|
      {
        released := released + [queued[0]];
        queued := queued[1..];
        j := j + 1;
      }
    }
  }
}
