/** The lock-free queue between an interface thread and its host thread (host_queue in
    src/dem/pseudo_target.c and src/endpoint/pseudo_target.c), as a machine whose steps are
    single reads and writes of the shared structure, and as the sequential object. */
module HostQueue {

  /** The address of an endpoint. */
  type Endpoint = nat

  datatype Slot = Null | Full(ep: Endpoint)

  /** How far add_new_host_conn has got. The interface thread alone writes head. */
  datatype Producer =
    | PIdle
    | PFullReadHead(ep: Endpoint)
    | PFullReadTail(ep: Endpoint, h: nat)
    | PSlotReadHead(ep: Endpoint)
    | PSlotWrite(ep: Endpoint, h: nat)
    | PHeadRead(ep: Endpoint)
    | PHeadWrite(ep: Endpoint, h: nat)

  /** How far get_new_host_conn has got. The host thread alone writes tail. After it has read
      head, `seen` remembers how many endpoints were queued at that moment. */
  datatype Consumer =
    | CIdle
    | CEmptyReadHead
    | CEmptyReadTail(h: nat, seen: nat)
    | CTestReadTail
    | CTestReadSlot(t: nat)
    | CTakeReadTail
    | CTakeReadSlot(t: nat)
    | CClearReadTail(ep: Endpoint)
    | CClearWrite(ep: Endpoint, t: nat)
    | CTailRead(ep: Endpoint)
    | CTailWrite(ep: Endpoint, t: nat)

  /** The shared structure, both program counters, and a history: the endpoints whose add
      returned 0 and those that a get returned, in order; whether the NULL branch was taken. */
  datatype State = State(
    slots: seq<Slot>, head: nat, tail: nat,
    p: Producer, c: Consumer,
    sent: seq<Endpoint>, received: seq<Endpoint>, nullSlot: bool)

  /** What a call returned, if the step ended one. */
  datatype Event = Silent | Added(ep: Endpoint) | Rejected(ep: Endpoint) | Got(ep: Endpoint) | FoundEmpty(seen: nat) | FoundNull

  datatype Actor = Add(ep: Endpoint) | ProducerStep | Get | ConsumerStep

  function Wrap(i: nat, n: nat): nat
    requires n > 0
  {
    i % n
  }

  ghost predicate InRange(s: State) {
    && 2 <= |s.slots|
    && s.head < |s.slots| && s.tail < |s.slots|
    && (s.p.PSlotWrite? || s.p.PHeadWrite? ==> s.p.h < |s.slots|)
    && (s.c.CTestReadSlot? || s.c.CTakeReadSlot? || s.c.CClearWrite? || s.c.CTailWrite? ==> s.c.t < |s.slots|)
  }

  function Start(n: nat): State {
    State(seq(n, _ => Null), 0, 0, PIdle, CIdle, [], [], false)
  }

  function StepProducer(s: State): (State, Event)
    requires |s.slots| > 0
    requires s.p.PSlotWrite? ==> s.p.h < |s.slots|
  {
    var n := |s.slots|;
    match s.p
    case PIdle => (s, Silent)
    case PFullReadHead(ep) => (s.(p := PFullReadTail(ep, s.head)), Silent)
    case PFullReadTail(ep, h) =>
      if Wrap(h + 1, n) == s.tail then (s.(p := PIdle), Rejected(ep))
      else (s.(p := PSlotReadHead(ep)), Silent)
    case PSlotReadHead(ep) => (s.(p := PSlotWrite(ep, s.head)), Silent)
    case PSlotWrite(ep, h) => (s.(slots := s.slots[h := Full(ep)], p := PHeadRead(ep)), Silent)
    case PHeadRead(ep) => (s.(p := PHeadWrite(ep, s.head)), Silent)
    case PHeadWrite(ep, h) =>
      (s.(head := Wrap(h + 1, n), p := PIdle, sent := s.sent + [ep]), Added(ep))
  }

  function StepConsumer(s: State): (State, Event)
    requires |s.slots| > 0 && |s.received| <= |s.sent|
    requires s.c.CTestReadSlot? || s.c.CTakeReadSlot? || s.c.CClearWrite? ==> s.c.t < |s.slots|
  {
    var n := |s.slots|;
    match s.c
    case CIdle => (s, Silent)
    case CEmptyReadHead => (s.(c := CEmptyReadTail(s.head, |s.sent| - |s.received|)), Silent)
    case CEmptyReadTail(h, seen) =>
      if h == s.tail then (s.(c := CIdle), FoundEmpty(seen)) else (s.(c := CTestReadTail), Silent)
    case CTestReadTail => (s.(c := CTestReadSlot(s.tail)), Silent)
    case CTestReadSlot(t) =>
      if s.slots[t] == Null then (s.(c := CIdle, nullSlot := true), FoundNull)
      else (s.(c := CTakeReadTail), Silent)
    case CTakeReadTail => (s.(c := CTakeReadSlot(s.tail)), Silent)
    case CTakeReadSlot(t) =>
      if s.slots[t] == Null then (s.(c := CIdle, nullSlot := true), FoundNull)
      else (s.(c := CClearReadTail(s.slots[t].ep)), Silent)
    case CClearReadTail(ep) => (s.(c := CClearWrite(ep, s.tail)), Silent)
    case CClearWrite(ep, t) => (s.(slots := s.slots[t := Null], c := CTailRead(ep)), Silent)
    case CTailRead(ep) => (s.(c := CTailWrite(ep, s.tail)), Silent)
    case CTailWrite(ep, t) =>
      (s.(tail := Wrap(t + 1, n), c := CIdle, received := s.received + [ep]), Got(ep))
  }

  /** One step of either thread; a thread that is idle may begin a call. */
  function Next(s: State, a: Actor): (State, Event)
    requires |s.slots| > 0 && |s.received| <= |s.sent|
    requires s.p.PSlotWrite? ==> s.p.h < |s.slots|
    requires s.c.CTestReadSlot? || s.c.CTakeReadSlot? || s.c.CClearWrite? ==> s.c.t < |s.slots|
  {
    match a
    case Add(ep) => if s.p.PIdle? then (s.(p := PFullReadHead(ep)), Silent) else (s, Silent)
    case Get => if s.c.CIdle? then (s.(c := CEmptyReadHead), Silent) else (s, Silent)
    case ProducerStep => StepProducer(s)
    case ConsumerStep => StepConsumer(s)
  }

  // The abstract queue.

  /** What is queued: sent and not yet received. */
  function Queued(s: State): seq<Endpoint>
    requires |s.received| <= |s.sent|
  {
    s.sent[|s.received|..]
  }

  /** The slot k places after the tail. */
  function SlotOf(s: State, k: nat): nat
    requires s.tail < |s.slots| && k < |s.slots|
  {
    if s.tail + k < |s.slots| then s.tail + k else s.tail + k - |s.slots|
  }

  ghost predicate ProducerOk(s: State)
    requires InRange(s) && |s.received| <= |s.sent|
  {
    var count := |Queued(s)|;
    match s.p
    case PIdle => true
    case PFullReadHead(_) => true
    case PFullReadTail(_, h) => h == s.head
    case PSlotReadHead(_) => count + 1 < |s.slots|
    case PSlotWrite(_, h) => h == s.head && count + 1 < |s.slots|
    case PHeadRead(ep) => count + 1 < |s.slots| && s.slots[s.head] == Full(ep)
    case PHeadWrite(ep, h) => h == s.head && count + 1 < |s.slots| && s.slots[s.head] == Full(ep)
  }

  ghost predicate ConsumerOk(s: State)
    requires InRange(s) && |s.received| <= |s.sent|
  {
    var q := Queued(s);
    match s.c
    case CIdle => true
    case CEmptyReadHead => true
    case CEmptyReadTail(h, seen) => seen <= |q| < |s.slots| && h == SlotOf(s, seen)
    case CTestReadTail => q != []
    case CTestReadSlot(t) => t == s.tail && q != []
    case CTakeReadTail => q != []
    case CTakeReadSlot(t) => t == s.tail && q != []
    case CClearReadTail(ep) => q != [] && q[0] == ep
    case CClearWrite(ep, t) => t == s.tail && q != [] && q[0] == ep
    case CTailRead(ep) => q != [] && q[0] == ep
    case CTailWrite(ep, t) => t == s.tail && q != [] && q[0] == ep
  }

  /** The slot that the consumer has already cleared but not yet given up. */
  predicate Cleared(s: State) {
    s.c.CTailRead? || s.c.CTailWrite?
  }

  ghost predicate Inv(s: State) {
    && InRange(s)
    && s.received <= s.sent
    && |Queued(s)| < |s.slots|
    && s.head == SlotOf(s, |Queued(s)|)
    && (forall k :: 0 <= k < |Queued(s)| && (k == 0 ==> !Cleared(s)) ==>
         s.slots[SlotOf(s, k)] == Full(Queued(s)[k]))
    && ProducerOk(s) && ConsumerOk(s)
    && !s.nullSlot
  }

  lemma WrapNext(i: nat, n: nat)
    requires i < n
    ensures Wrap(i + 1, n) == if i + 1 == n then 0 else i + 1
  {
  }

  lemma StartOk(n: nat)
    requires n >= 2
    ensures Inv(Start(n))
  {
  }

  lemma ProducerKeepsInv(s: State)
    requires Inv(s)
    ensures Inv(StepProducer(s).0)
  {
    if s.p.PFullReadTail? {
      FullTested(s);
    } else if s.p.PSlotWrite? {
      SlotWritten(s);
    } else if s.p.PHeadWrite? {
      HeadAdvances(s);
    }
  }

  lemma FullExactly(s: State)
    requires Inv(s)
    ensures Wrap(s.head + 1, |s.slots|) == s.tail <==> |Queued(s)| + 1 == |s.slots|
  {
    FullArithmetic(s.tail, |Queued(s)|, s.head, |s.slots|);
  }

  lemma FullArithmetic(tail: nat, count: nat, head: nat, n: nat)
    requires tail < n && count < n && head == if tail + count < n then tail + count else tail + count - n
    ensures Wrap(head + 1, n) == tail <==> count + 1 == n
  {
    WrapNext(head, n);
  }

  lemma ProducerMoves(s: State, p: Producer)
    requires Inv(s) && InRange(s.(p := p)) && ProducerOk(s.(p := p))
    ensures Inv(s.(p := p))
  {
  }

  lemma FullTested(s: State)
    requires Inv(s) && s.p.PFullReadTail?
    ensures Inv(StepProducer(s).0)
    ensures StepProducer(s).1.Rejected? <==> |Queued(s)| + 1 == |s.slots|
  {
    FullExactly(s);
    ProducerMoves(s, StepProducer(s).0.p);
  }

  lemma SlotWritten(s: State)
    requires Inv(s) && s.p.PSlotWrite?
    ensures Inv(StepProducer(s).0)
  {
    assert forall k :: 0 <= k < |Queued(s)| ==> SlotOf(s, k) != s.head;
  }

  lemma HeadAdvances(s: State)
    requires Inv(s) && s.p.PHeadWrite?
    ensures Inv(StepProducer(s).0)
  {
    var u := StepProducer(s).0;
    WrapNext(s.head, |s.slots|);
    assert Queued(u) == Queued(s) + [s.p.ep];
  }

  lemma ConsumerMoves(s: State, c: Consumer)
    requires Inv(s) && InRange(s.(c := c)) && ConsumerOk(s.(c := c)) && Cleared(s.(c := c)) == Cleared(s)
    ensures Inv(s.(c := c))
  {
  }

  lemma ConsumerKeepsInv(s: State)
    requires Inv(s)
    ensures Inv(StepConsumer(s).0)
  {
    if s.c.CTestReadSlot? || s.c.CTakeReadSlot? {
      SlotRead(s);
    } else if s.c.CClearWrite? {
      SlotCleared(s);
    } else if s.c.CTailWrite? {
      TailAdvances(s);
    } else {
      ConsumerMoves(s, StepConsumer(s).0.c);
    }
  }

  lemma SlotRead(s: State)
    requires Inv(s) && (s.c.CTestReadSlot? || s.c.CTakeReadSlot?)
    ensures Inv(StepConsumer(s).0)
  {
    assert s.slots[SlotOf(s, 0)] == Full(Queued(s)[0]);
  }

  lemma SlotCleared(s: State)
    requires Inv(s) && s.c.CClearWrite?
    ensures Inv(StepConsumer(s).0)
  {
    assert forall k :: 0 < k < |Queued(s)| ==> SlotOf(s, k) != s.tail;
  }

  lemma TailQueued(s: State)
    requires Inv(s) && s.c.CTailWrite?
    ensures var u := StepConsumer(s).0;
      u.received <= u.sent && Queued(s) != [] && Queued(u) == Queued(s)[1..]
  {
    assert s.sent == s.received + Queued(s);
    assert s.received + [s.c.ep] <= s.sent;
  }

  lemma TailSlots(s: State, k: nat)
    requires Inv(s) && s.c.CTailWrite? && k + 1 < |s.slots|
    ensures var u := StepConsumer(s).0;
      u.tail < |u.slots| && SlotOf(u, k) == SlotOf(s, k + 1)
  {
    WrapNext(s.tail, |s.slots|);
  }

  lemma TailAdvances(s: State)
    requires Inv(s) && s.c.CTailWrite?
    ensures Inv(StepConsumer(s).0)
  {
    var u, q := StepConsumer(s).0, Queued(s);
    TailQueued(s);
    TailSlots(s, |q| - 1);
    forall k | 0 <= k < |q| - 1 ensures u.slots[SlotOf(u, k)] == Full(Queued(u)[k]) {
      TailSlots(s, k);
      assert s.slots[SlotOf(s, k + 1)] == Full(q[k + 1]);
    }
  }

  lemma NextKeepsInv(s: State, a: Actor)
    requires Inv(s)
    ensures Inv(Next(s, a).0)
  {
    match a
    case Add(_) =>
    case Get =>
    case ProducerStep => ProducerKeepsInv(s);
    case ConsumerStep => ConsumerKeepsInv(s);
  }

  // Refinement of a bounded first-in first-out queue.

  /** What a step may do to a queue of a given capacity. A call that finds nothing is right
      when the queue was empty at some moment during the call. */
  ghost predicate FifoStep(q: seq<Endpoint>, capacity: nat, e: Event, q': seq<Endpoint>) {
    match e
    case Silent => q' == q
    case Added(ep) => |q| < capacity && q' == q + [ep]
    case Rejected(_) => |q| == capacity && q' == q
    case Got(ep) => q != [] && ep == q[0] && q' == q[1..]
    case FoundEmpty(seen) => seen == 0 && q' == q
    case FoundNull => false
  }

  lemma StepRefines(s: State, a: Actor)
    requires Inv(s)
    ensures var (u, e) := Next(s, a);
      Inv(u) && FifoStep(Queued(s), |s.slots| - 1, e, Queued(u))
  {
    NextKeepsInv(s, a);
    var (u, e) := Next(s, a);
    if e.Added? {
      assert Queued(u) == Queued(s) + [e.ep];
    } else if e.Rejected? {
      FullTested(s);
    } else if e.Got? {
      assert Queued(u) == Queued(s)[1..];
    }
  }

  ghost predicate Fifo(q: seq<Endpoint>, capacity: nat, events: seq<Event>, q': seq<Endpoint>)
    decreases |events|
  {
    if events == [] then q' == q
    else exists mid :: FifoStep(q, capacity, events[0], mid) && Fifo(mid, capacity, events[1..], q')
  }

  /** A schedule lets the two threads take turns in any way. */
  ghost function Run(s: State, schedule: seq<Actor>): (r: (State, seq<Event>))
    requires Inv(s)
    ensures Inv(r.0) && |r.0.slots| == |s.slots|
    decreases |schedule|
  {
    if schedule == [] then (s, [])
    else
      NextKeepsInv(s, schedule[0]);
      var (u, e) := Next(s, schedule[0]);
      var (end, events) := Run(u, schedule[1..]);
      (end, [e] + events)
  }

  function AddedIn(events: seq<Event>): seq<Endpoint> {
    if events == [] then []
    else (if events[0].Added? then [events[0].ep] else []) + AddedIn(events[1..])
  }

  function GotIn(events: seq<Event>): seq<Endpoint> {
    if events == [] then []
    else (if events[0].Got? then [events[0].ep] else []) + GotIn(events[1..])
  }

  /** Every interleaving is a run of the bounded queue. */
  lemma {:induction false} RunRefines(s: State, schedule: seq<Actor>)
    requires Inv(s)
    ensures Fifo(Queued(s), |s.slots| - 1, Run(s, schedule).1, Queued(Run(s, schedule).0))
    decreases |schedule|
  {
    if schedule != [] {
      StepRefines(s, schedule[0]);
      var (u, e) := Next(s, schedule[0]);
      RunRefines(u, schedule[1..]);
      var events := Run(s, schedule).1;
      assert events[0] == e && events[1..] == Run(u, schedule[1..]).1;
      assert FifoStep(Queued(s), |s.slots| - 1, events[0], Queued(u));
    }
  }

  lemma HistoryOne(s: State, a: Actor)
    requires Inv(s)
    ensures var (u, e) := Next(s, a);
      && u.sent == s.sent + AddedIn([e]) && u.received == s.received + GotIn([e]) && e != FoundNull
  {
    StepRefines(s, a);
    var (u, e) := Next(s, a);
    assert AddedIn([e]) == if e.Added? then [e.ep] else [];
    assert GotIn([e]) == if e.Got? then [e.ep] else [];
  }

  lemma EventsCons(e: Event, rest: seq<Event>)
    ensures AddedIn([e] + rest) == AddedIn([e]) + AddedIn(rest)
    ensures GotIn([e] + rest) == GotIn([e]) + GotIn(rest)
  {
    assert ([e] + rest)[1..] == rest && [e][1..] == [];
  }

  /** A state continues the history of another by what a list of events says. */
  ghost predicate Continues(s: State, events: seq<Event>, end: State) {
    && end.sent == s.sent + AddedIn(events)
    && end.received == s.received + GotIn(events)
    && FoundNull !in events
  }

  lemma ContinuesCons(s: State, e: Event, u: State, rest: seq<Event>, end: State)
    requires Continues(s, [e], u) && Continues(u, rest, end)
    ensures Continues(s, [e] + rest, end)
  {
    EventsCons(e, rest);
    assert e in [e];
  }

  lemma {:induction false} HistoryIsEvents(s: State, schedule: seq<Actor>)
    requires Inv(s)
    ensures Continues(s, Run(s, schedule).1, Run(s, schedule).0)
    decreases |schedule|
  {
    if schedule != [] {
      HistoryOne(s, schedule[0]);
      NextKeepsInv(s, schedule[0]);
      var (u, e) := Next(s, schedule[0]);
      var (end, rest) := Run(u, schedule[1..]);
      HistoryIsEvents(u, schedule[1..]);
      ContinuesCons(s, e, u, rest, end);
    }
  }

  /** No endpoint is lost, duplicated or reordered: what the host thread got is a prefix of what
      was added, the rest is queued, and at most N - 1 are. */
  lemma NothingLost(n: nat, schedule: seq<Actor>)
    requires n >= 2
    ensures Inv(Start(n))
    ensures var (end, events) := Run(Start(n), schedule);
      && AddedIn(events) == GotIn(events) + Queued(end)
      && |AddedIn(events)| - |GotIn(events)| < n
      && FoundNull !in events
  {
    StartOk(n);
    HistoryIsEvents(Start(n), schedule);
    var (end, events) := Run(Start(n), schedule);
    QueuedIsRest(end);
    assert [] + AddedIn(events) == AddedIn(events) && [] + GotIn(events) == GotIn(events);
  }

  lemma QueuedIsRest(s: State)
    requires Inv(s)
    ensures s.sent == s.received + Queued(s) && |s.sent| - |s.received| < |s.slots|
  {
  }

  // The same code as a sequential object.

  /** The state after i steps of an add that the host thread does not disturb. */
  function AddStage(s: State, ep: Endpoint, i: nat): State
    requires s.head < |s.slots|
  {
    var full := Wrap(s.head + 1, |s.slots|) == s.tail;
    var written := s.(slots := s.slots[s.head := Full(ep)]);
    if i == 0 then s
    else if i == 1 then s.(p := PFullReadHead(ep))
    else if i == 2 then s.(p := PFullReadTail(ep, s.head))
    else if full then s
    else if i == 3 then s.(p := PSlotReadHead(ep))
    else if i == 4 then s.(p := PSlotWrite(ep, s.head))
    else if i == 5 then written.(p := PHeadRead(ep))
    else if i == 6 then written.(p := PHeadWrite(ep, s.head))
    else written.(head := Wrap(s.head + 1, |s.slots|), sent := s.sent + [ep])
  }

  /** ... and after i steps of a get that the interface thread does not disturb. */
  function GetStage(s: State, i: nat): State
    requires Inv(s)
  {
    if i == 0 then s
    else if i == 1 then s.(c := CEmptyReadHead)
    else if i == 2 then s.(c := CEmptyReadTail(s.head, |Queued(s)|))
    else if s.head == s.tail then s
    else if i == 3 then s.(c := CTestReadTail)
    else if i == 4 then s.(c := CTestReadSlot(s.tail))
    else if i == 5 then s.(c := CTakeReadTail)
    else if i == 6 then s.(c := CTakeReadSlot(s.tail))
    else if s.slots[s.tail] == Null then s
    else
      var ep := s.slots[s.tail].ep;
      var cleared := s.(slots := s.slots[s.tail := Null]);
      if i == 7 then s.(c := CClearReadTail(ep))
      else if i == 8 then s.(c := CClearWrite(ep, s.tail))
      else if i == 9 then cleared.(c := CTailRead(ep))
      else if i == 10 then cleared.(c := CTailWrite(ep, s.tail))
      else cleared.(tail := Wrap(s.tail + 1, |s.slots|), received := s.received + [ep])
  }

  function ProducerSteps(n: nat): seq<Actor> {
    seq(n, _ => ProducerStep)
  }

  function ConsumerSteps(n: nat): seq<Actor> {
    seq(n, _ => ConsumerStep)
  }

  lemma AddStageNext(s: State, ep: Endpoint, i: nat)
    requires Inv(s) && s.p.PIdle? && 1 <= i < 7 && Inv(AddStage(s, ep, i))
    ensures Next(AddStage(s, ep, i), ProducerStep).0 == AddStage(s, ep, i + 1)
  {
  }

  lemma GetStageNext(s: State, i: nat)
    requires Inv(s) && s.c.CIdle? && 1 <= i < 11 && Inv(GetStage(s, i))
    ensures Next(GetStage(s, i), ConsumerStep).0 == GetStage(s, i + 1)
  {
    if s.head != s.tail {
      TailIsFull(s);
    }
  }

  lemma TailIsFull(s: State)
    requires Inv(s) && s.c.CIdle? && s.head != s.tail
    ensures s.slots[s.tail].Full?
  {
    assert Queued(s) != [];
    assert s.slots[SlotOf(s, 0)] == Full(Queued(s)[0]);
  }

  lemma {:induction false} AddStages(s: State, ep: Endpoint, i: nat)
    requires Inv(s) && s.p.PIdle? && 1 <= i <= 7 && Inv(AddStage(s, ep, i))
    ensures Run(AddStage(s, ep, i), ProducerSteps(7 - i)).0 == AddStage(s, ep, 7)
    decreases 7 - i
  {
    if i < 7 {
      AddStageNext(s, ep, i);
      NextKeepsInv(AddStage(s, ep, i), ProducerStep);
      assert ProducerSteps(7 - i)[1..] == ProducerSteps(6 - i);
      AddStages(s, ep, i + 1);
    }
  }

  lemma {:induction false} GetStages(s: State, i: nat)
    requires Inv(s) && s.c.CIdle? && 1 <= i <= 11 && Inv(GetStage(s, i))
    ensures Run(GetStage(s, i), ConsumerSteps(11 - i)).0 == GetStage(s, 11)
    decreases 11 - i
  {
    if i < 11 {
      GetStageNext(s, i);
      NextKeepsInv(GetStage(s, i), ConsumerStep);
      assert ConsumerSteps(11 - i)[1..] == ConsumerSteps(10 - i);
      GetStages(s, i + 1);
    }
  }

  /** An add that runs by itself is over after six more steps, and likewise a get. */
  lemma UndisturbedAdd(s: State, ep: Endpoint)
    requires Inv(s) && s.p.PIdle?
    ensures Run(s, [Add(ep)] + ProducerSteps(6)).0 == AddStage(s, ep, 7)
  {
    NextKeepsInv(s, Add(ep));
    assert ([Add(ep)] + ProducerSteps(6))[1..] == ProducerSteps(6);
    AddStages(s, ep, 1);
  }

  lemma UndisturbedGet(s: State)
    requires Inv(s) && s.c.CIdle?
    ensures Run(s, [Get] + ConsumerSteps(10)).0 == GetStage(s, 11)
  {
    NextKeepsInv(s, Get);
    assert ([Get] + ConsumerSteps(10))[1..] == ConsumerSteps(10);
    GetStages(s, 1);
  }

  class Queue {
    var ep: array<Slot>
    var tail: nat
    var head: nat

    ghost var sent: seq<Endpoint>
    ghost var received: seq<Endpoint>

    ghost function View(): State
      reads this, ep
    {
      State(ep[..], head, tail, PIdle, CIdle, sent, received, false)
    }

    ghost predicate Valid()
      reads this, ep
    {
      Inv(View())
    }

    constructor (n: nat)
      requires n >= 2
      ensures Valid() && View() == Start(n) && fresh(ep)
    {
      ep := new Slot[n](_ => Null);
      tail, head := 0, 0;
      sent, received := [], [];
      new;
      assert ep[..] == Start(n).slots;
    }

    predicate IsEmpty()
      reads this
    {
      head == tail
    }

    predicate IsFull()
      requires ep.Length > 0
      reads this
    {
      (head + 1) % ep.Length == tail
    }

    /** add_new_host_conn does what the steps of an undisturbed add do. */
    method AddNewHostConn(x: Endpoint) returns (ret: int)
      requires Valid()
      modifies this, ep
      ensures Valid() && ep == old(ep)
      ensures View() == Run(old(View()), [Add(x)] + ProducerSteps(6)).0
      ensures ret == if |old(Queued(View()))| + 1 < ep.Length then 0 else -1
      ensures Queued(View()) == if ret == 0 then old(Queued(View())) + [x] else old(Queued(View()))
    {
      UndisturbedAdd(View(), x);
      FullExactly(View());
      if IsFull() {
        return -1;
      }
      ep[head] := Full(x);
      head := (head + 1) % ep.Length;
      sent := sent + [x];
      ret := 0;
    }

    /** get_new_host_conn likewise; its third outcome, an endpoint that is not there, never
        comes up. */
    method GetNewHostConn() returns (ret: int, x: Endpoint)
      requires Valid()
      modifies this, ep
      ensures Valid() && ep == old(ep)
      ensures View() == Run(old(View()), [Get] + ConsumerSteps(10)).0
      ensures ret == if old(Queued(View())) == [] then -1 else 0
      ensures ret == 0 ==> [x] + Queued(View()) == old(Queued(View()))
      ensures ret != 0 ==> Queued(View()) == old(Queued(View()))
    {
      UndisturbedGet(View());
      GetOutcome(View());
      x := 0;
      if IsEmpty() {
        return -1, x;
      }
      if ep[tail] == Null {
        assert false;
        return 1, x;
      }
      x := ep[tail].ep;
      ep[tail] := Null;
      tail := (tail + 1) % ep.Length;
      received := received + [x];
      ret := 0;
    }
  }

  lemma GetOutcome(s: State)
    requires Inv(s) && s.c.CIdle? && Inv(GetStage(s, 11))
    ensures s.head == s.tail <==> Queued(s) == []
    ensures s.head == s.tail ==> GetStage(s, 11) == s
    ensures s.head != s.tail ==>
      && s.slots[s.tail] == Full(Queued(s)[0])
      && GetStage(s, 11) == s.(slots := s.slots[s.tail := Null], tail := Wrap(s.tail + 1, |s.slots|),
                               received := s.received + [Queued(s)[0]])
      && [Queued(s)[0]] + Queued(GetStage(s, 11)) == Queued(s)
  {
    if s.head != s.tail {
      assert s.slots[SlotOf(s, 0)] == Full(Queued(s)[0]);
    }
  }
}
