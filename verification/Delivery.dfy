/** Sending operations to an endpoint manager over a connection that may lose requests and
    replies (the send functions of src/dem/config.c), and what a record of such sends says
    about the endpoint. */
module Delivery {
  import opened ConfigFs
  import opened DemTypes
  import opened Push
  import InBand
  import Rest

  /** What becomes of one exchange with the endpoint manager. */
  datatype Trip = Carried | RequestLost | ReplyLost

  /** A send as it turned out: how often the operation was carried out, and what the sender
      was told. */
  datatype Step = Step(op: Op, copies: nat, ok: bool)

  ghost function Again(tree: Tree, op: Op, n: nat): Tree {
    if n == 0 then tree else Exec(Again(tree, op, n - 1), op).tree
  }

  ghost function After(tree: Tree, steps: seq<Step>): Tree {
    if steps == [] then tree
    else
      var last := steps[|steps| - 1];
      Again(After(tree, steps[..|steps| - 1]), last.op, last.copies)
  }

  /** A success report follows a successful execution, and nothing is sent a third time. */
  ghost predicate Possible(tree: Tree, steps: seq<Step>) {
    steps == [] ||
    var front, last := steps[..|steps| - 1], steps[|steps| - 1];
    && Possible(tree, front)
    && last.copies <= 2
    && (last.ok ==> last.copies > 0 && Exec(Again(After(tree, front), last.op, last.copies - 1), last.op).ok)
  }

  /** Nothing fails but what the endpoint refuses. */
  ghost predicate Reliable(tree: Tree, steps: seq<Step>) {
    steps == [] ||
    var front, last := steps[..|steps| - 1], steps[|steps| - 1];
    Reliable(tree, front) && (Exec(After(tree, front), last.op).ok ==> last.ok)
  }

  ghost function Ops(steps: seq<Step>): seq<Op> {
    seq(|steps|, i requires 0 <= i < |steps| => steps[i].op)
  }

  ghost predicate AllOk(steps: seq<Step>) {
    forall s <- steps :: s.ok
  }

  /** The fate of the exchange n places ahead. */
  function TripAt(trips: seq<Trip>, n: nat): Trip {
    if n < |trips| then trips[n] else Carried
  }

  function TripsAfter(trips: seq<Trip>, n: nat): seq<Trip> {
    if n <= |trips| then trips[n..] else []
  }

  predicate Answered(trips: seq<Trip>, tree: Tree, op: Op) {
    TripAt(trips, 0) == Carried && Exec(tree, op).ok
  }

  /** A new connection takes an exchange of its own. */
  predicate AnsweredAnew(trips: seq<Trip>, tree: Tree, op: Op) {
    TripAt(trips, 0) == Carried && Answered(TripsAfter(trips, 1), tree, op)
  }

  /** Whether a message is answered with success: at once over an open connection, or else over
      a new one, when the first copy may have taken effect. */
  predicate GetsThrough(open: bool, trips: seq<Trip>, tree: Tree, op: Op) {
    if open then
      var left := if TripAt(trips, 0) == RequestLost then tree else Exec(tree, op).tree;
      Answered(trips, tree, op) || AnsweredAnew(TripsAfter(trips, 1), left, op)
    else AnsweredAnew(trips, tree, op)
  }

  /** One loss is survived: when an operation succeeds, also a second time, its message gets
      through whatever happens to the first exchange over an open connection. */
  lemma OneLossSurvived(trips: seq<Trip>, tree: Tree, op: Op)
    requires Exec(tree, op).ok && Exec(Exec(tree, op).tree, op).ok
    requires forall n :: 0 < n < |trips| ==> trips[n] == Carried
    ensures GetsThrough(true, trips, tree, op)
  {
  }

  /** Two in a row are not, and neither is a connection that cannot be made. */
  lemma TwoLossesFail(open: bool, trips: seq<Trip>, tree: Tree, op: Op)
    requires open ==> TripAt(trips, 0) != Carried
    requires var n := if open then 1 else 0; TripAt(trips, n) != Carried || TripAt(trips, n + 1) != Carried
    ensures !GetsThrough(open, trips, tree, op)
  {
  }

  class Link {
    const nvmet: Nvmet
    var connected: bool
    var trips: seq<Trip>  // the fate of the exchanges to come; none is lost after these

    ghost const lossless: bool
    ghost const origin: Tree
    ghost var steps: seq<Step>

    ghost predicate Valid()
      reads this, nvmet
    {
      && WellLinked(nvmet.Value())
      && nvmet.Value() == After(origin, steps)
      && Possible(origin, steps)
      && (lossless ==> Reliable(origin, steps)) && Clear()
    }

    constructor (nvmet: Nvmet, trips: seq<Trip>)
      requires WellLinked(nvmet.Value())
      ensures Valid() && this.nvmet == nvmet && steps == [] && origin == nvmet.Value()
      ensures lossless <==> forall x <- trips :: x == Carried
    {
      this.nvmet, this.connected, this.trips := nvmet, false, trips;
      this.lossless, this.origin, this.steps := forall x <- trips :: x == Carried, nvmet.Value(), [];
    }

    ghost predicate Clear()
      reads this
    {
      lossless ==> forall x <- trips :: x == Carried
    }

    method NextTrip() returns (trip: Trip)
      requires Clear()
      modifies this`trips
      ensures Clear() && (lossless ==> trip == Carried)
      ensures trip == TripAt(old(trips), 0) && trips == TripsAfter(old(trips), 1)
    {
      if trips == [] {
        return Carried;
      }
      trip := trips[0];
      assert trip in trips && forall x <- trips[1..] :: x in trips;
      trips := trips[1..];
    }

    /** connect_ctrl, which leaves the flag to its callers. */
    method Connect() returns (ok: bool)
      requires Clear()
      modifies this`trips
      ensures Clear() && (lossless ==> ok)
      ensures (ok <==> TripAt(old(trips), 0) == Carried) && trips == TripsAfter(old(trips), 1)
    {
      var trip := NextTrip();
      ok := trip == Carried;
    }

    method Exchange(op: Op) returns (ok: bool, ghost copies: nat)
      requires WellLinked(nvmet.Value()) && Clear()
      modifies this`trips, nvmet
      ensures WellLinked(nvmet.Value()) && Clear()
      ensures copies <= 1 && nvmet.Value() == Again(old(nvmet.Value()), op, copies)
      ensures ok ==> copies == 1 && Exec(old(nvmet.Value()), op).ok
      ensures lossless && Exec(old(nvmet.Value()), op).ok ==> ok
      ensures ok <==> Answered(old(trips), old(nvmet.Value()), op)
      ensures copies == (if TripAt(old(trips), 0) == RequestLost then 0 else 1) && trips == TripsAfter(old(trips), 1)
    {
      ghost var before := nvmet.Value();
      assert Again(before, op, 0) == before;
      assert Again(before, op, 1) == Exec(before, op).tree;
      var trip := NextTrip();
      if trip == RequestLost {
        return false, 0;
      }
      var ret := nvmet.Call(op);
      return ret == 0 && trip == Carried, 1;
    }

    /** A send that fails is repeated once, over a new connection. */
    method ExchangeTwice(op: Op) returns (ok: bool, ghost copies: nat)
      requires WellLinked(nvmet.Value()) && Clear()
      modifies this`trips, this`connected, nvmet
      ensures WellLinked(nvmet.Value()) && Clear()
      ensures copies <= 2 && nvmet.Value() == Again(old(nvmet.Value()), op, copies)
      ensures ok ==> copies > 0 && Exec(Again(old(nvmet.Value()), op, copies - 1), op).ok
      ensures lossless && Exec(old(nvmet.Value()), op).ok ==> ok
      ensures ok <==> GetsThrough(old(connected), old(trips), old(nvmet.Value()), op)
    {
      ghost var before, first := nvmet.Value(), 0;
      assert Again(before, op, 0) == before;
      if connected {
        ok, first := Exchange(op);
        if ok {
          return ok, first;
        }
        connected := false;
      }
      ghost var second;
      ok, second := ExchangeAnew(op);
      AgainAgain(before, op, first, second);
      copies := first + second;
    }

    /** The second attempt, over a new connection. */
    method ExchangeAnew(op: Op) returns (ok: bool, ghost copies: nat)
      requires WellLinked(nvmet.Value()) && Clear()
      modifies this`trips, this`connected, nvmet
      ensures WellLinked(nvmet.Value()) && Clear()
      ensures copies <= 1 && nvmet.Value() == Again(old(nvmet.Value()), op, copies)
      ensures ok ==> copies == 1
      ensures ok <==> AnsweredAnew(old(trips), old(nvmet.Value()), op)
      ensures lossless && Exec(old(nvmet.Value()), op).ok ==> ok
    {
      assert Again(nvmet.Value(), op, 0) == nvmet.Value();
      copies := 0;
      ok := Connect();
      if ok {
        connected := true;
        ok, copies := Exchange(op);
      }
    }

    /** _send_set_config */
    method SendSetConfig(op: Op) returns (ok: bool)
      requires Valid()
      modifies this, nvmet
      ensures Valid()
      ensures exists copies :: steps == old(steps) + [Step(op, copies, ok)]
      ensures ok <==> GetsThrough(old(connected), old(trips), old(nvmet.Value()), op)
    {
      ghost var copies;
      ok, copies := ExchangeTwice(op);
      Recorded(origin, steps, Step(op, copies, ok));
      steps := steps + [Step(op, copies, ok)];
    }

    /** A message is taken apart by the endpoint manager before it is carried out. */
    method SendInb(m: InBand.Message) returns (ok: bool)
      requires Valid()
      modifies this, nvmet
      ensures Valid()
      ensures InBand.Decode(m).Perform? ==>
        exists copies :: steps == old(steps) + [Step(InBand.Decode(m).op, copies, ok)]
      ensures !InBand.Decode(m).Perform? ==> steps == old(steps) && !ok
    {
      match InBand.Decode(m)
      case Perform(op) =>
        ok := SendSetConfig(op);
      case InvalidField =>
        SendRefused();
        ok := false;
    }

    /** A message that the endpoint manager answers with an error costs a connection, and is
        sent once more. */
    method SendRefused()
      requires Clear()
      modifies this`trips, this`connected
      ensures Clear() && (lossless ==> connected)
    {
      if connected {
        var _ := NextTrip();
        connected := false;
      }
      var ok := Connect();
      if ok {
        connected := true;
        var _ := NextTrip();
      }
    }

    method SendOob(r: Rest.HttpRequest) returns (ok: bool)
      requires Valid()
      modifies this, nvmet
      ensures Valid()
      ensures Rest.Decode(r).Perform? ==>
        exists copies :: steps == old(steps) + [Step(Rest.Decode(r).op, copies, ok)]
      ensures !Rest.Decode(r).Perform? ==> steps == old(steps) && !ok
    {
      match Rest.Decode(r)
      case Perform(op) =>
        ok := Submit(op);
      case _ =>
        var _ := NextTrip();
        ok := false;
    }

    /** exec_post and exec_delete */
    method Submit(op: Op) returns (ok: bool)
      requires Valid()
      modifies this, nvmet
      ensures Valid()
      ensures exists copies :: steps == old(steps) + [Step(op, copies, ok)]
    {
      ghost var copies;
      ok, copies := Exchange(op);
      Recorded(origin, steps, Step(op, copies, ok));
      steps := steps + [Step(op, copies, ok)];
    }
  }

  lemma Recorded(origin: Tree, front: seq<Step>, s: Step)
    ensures var tree, steps := After(origin, front), front + [s];
      && After(origin, steps) == Again(tree, s.op, s.copies)
      && (Possible(origin, steps) <==>
           (Possible(origin, front) && s.copies <= 2
            && (s.ok ==> s.copies > 0 && Exec(Again(tree, s.op, s.copies - 1), s.op).ok)))
      && (Reliable(origin, steps) <==> (Reliable(origin, front) && (Exec(tree, s.op).ok ==> s.ok)))
  {
    assert (front + [s])[..|front + [s]| - 1] == front;
  }

  lemma {:induction false} AgainAgain(tree: Tree, op: Op, a: nat, b: nat)
    ensures Again(Again(tree, op, a), op, b) == Again(tree, op, a + b)
    decreases b
  {
    if b > 0 {
      AgainAgain(tree, op, a, b - 1);
    }
  }

  // What a record of steps says about the endpoint.

  lemma {:induction false} SplitSteps(tree: Tree, a: seq<Step>, b: seq<Step>)
    ensures After(tree, a + b) == After(After(tree, a), b)
    ensures Possible(tree, a + b) ==> Possible(After(tree, a), b)
    ensures Reliable(tree, a + b) ==> Reliable(After(tree, a), b)
    decreases |b|
  {
    if b == [] {
      assert a + b == a;
    } else {
      var front := b[..|b| - 1];
      assert (a + b)[..|a + b| - 1] == a + front;
      SplitSteps(tree, a, front);
    }
  }

  /** Asking again for what is in place changes nothing. */
  lemma AlreadyThere(tree: Tree, m: Tree, op: Op)
    requires Below(tree, m) && Belongs(op, m) && Has(tree, op)
    ensures Exec(tree, op).tree == tree
  {
    if op.CreateSubsys? {
      assert tree.subsystems[op.nqn].(allowAny := op.allowany != 0) == tree.subsystems[op.nqn];
      assert Exec(tree, op).tree.subsystems == tree.subsystems;
    } else if op.CreatePort? {
      assert Exec(tree, op).tree.ports == tree.ports;
    } else if op.CreateHost? {
      assert Exec(tree, op).tree.hosts == tree.hosts;
    }
  }

  lemma {:induction false} RunOverPresent(t: Target, mode: Mode, tree: Tree, ops: seq<Op>)
    requires UniqueIds(t) && Encodable(t, mode) && Toward(tree, t, mode)
    requires forall op <- ops :: op in Script(t, mode) && Has(tree, op)
    ensures Run(tree, ops) == tree
    decreases |ops|
  {
    if ops != [] {
      ScriptBelongs(t, mode, ops[0]);
      AlreadyThere(tree, Meaning(t, mode), ops[0]);
      RunOverPresent(t, mode, tree, ops[1..]);
    }
  }

  /** When everything before it in the script is in place, an operation succeeds. */
  lemma NextSucceeds(t: Target, mode: Mode, tree: Tree, k: nat)
    requires UniqueIds(t) && Encodable(t, mode) && Toward(tree, t, mode)
    requires k < |Script(t, mode)| && forall op <- Script(t, mode)[..k] :: Has(tree, op)
    ensures Exec(tree, Script(t, mode)[k]).ok
  {
    var script := Script(t, mode);
    PushConverges(t, mode, tree);
    assert script == script[..k] + script[k..];
    RunAppend(tree, script[..k], script[k..]);
    RunOverPresent(t, mode, tree, script[..k]);
  }

  lemma StepClimbs(t: Target, mode: Mode, tree: Tree, s: Step)
    requires UniqueIds(t) && Encodable(t, mode) && Toward(tree, t, mode) && s.op in Script(t, mode)
    requires s.copies <= 2 && (s.ok ==> s.copies > 0 && Exec(Again(tree, s.op, s.copies - 1), s.op).ok)
    ensures var after := Again(tree, s.op, s.copies);
      && Toward(after, t, mode) && Below(tree, after) && (s.ok ==> Has(after, s.op))
  {
    var m := Meaning(t, mode);
    ScriptBelongs(t, mode, s.op);
    AgainClimbs(tree, m, s.op, s.copies);
  }

  lemma {:induction false} AgainClimbs(tree: Tree, m: Tree, op: Op, n: nat)
    requires WellLinked(tree) && Below(tree, m) && Belongs(op, m)
    ensures var after := Again(tree, op, n);
      && WellLinked(after) && Below(tree, after) && Below(after, m)
      && (n > 0 && Exec(Again(tree, op, n - 1), op).ok ==> Has(after, op))
  {
    if n > 0 {
      AgainClimbs(tree, m, op, n - 1);
      var before := Again(tree, op, n - 1);
      Climb(before, m, op);
      BelowTransitive(tree, before, Exec(before, op).tree);
    }
  }

  /** Lost requests, lost replies and repeated sends leave a sub-configuration of the target;
      what was reported done is there. */
  lemma {:induction false} StepsStayBelow(t: Target, mode: Mode, tree: Tree, steps: seq<Step>)
    requires UniqueIds(t) && Encodable(t, mode) && Toward(tree, t, mode)
    requires Possible(tree, steps) && forall s <- steps :: s.op in Script(t, mode)
    ensures Toward(After(tree, steps), t, mode) && Below(tree, After(tree, steps))
    ensures forall s <- steps :: s.ok ==> Has(After(tree, steps), s.op)
    decreases |steps|
  {
    if steps != [] {
      var front, last := steps[..|steps| - 1], steps[|steps| - 1];
      StepsStayBelow(t, mode, tree, front);
      var mid, end := After(tree, front), After(tree, steps);
      StepClimbs(t, mode, mid, last);
      BelowTransitive(tree, mid, end);
      forall s <- steps | s.ok ensures Has(end, s.op) {
        if s in front {
          HasGrows(mid, end, s.op);
        }
      }
    }
  }

  lemma SentInOrder(script: seq<Op>, steps: seq<Step>)
    requires Ops(steps) <= script
    ensures forall s <- steps :: s.op in script
    ensures forall op <- script[..|steps|] :: exists s <- steps :: s.op == op
  {
    forall s <- steps ensures s.op in script {
      var i :| 0 <= i < |steps| && steps[i] == s;
      assert s.op == Ops(steps)[i] == script[i];
    }
    forall op <- script[..|steps|] ensures exists s <- steps :: s.op == op {
      var i :| 0 <= i < |steps| && script[i] == op;
      assert steps[i].op == Ops(steps)[i] == op && steps[i] in steps;
    }
  }

  /** Over a connection that loses nothing, a push in script order meets no failure. */
  lemma {:induction false} LosslessSucceeds(t: Target, mode: Mode, tree: Tree, steps: seq<Step>)
    requires UniqueIds(t) && Encodable(t, mode) && Toward(tree, t, mode)
    requires Possible(tree, steps) && Reliable(tree, steps) && Ops(steps) <= Script(t, mode)
    ensures AllOk(steps)
    decreases |steps|
  {
    if steps != [] {
      var k := |steps| - 1;
      var front := steps[..k];
      assert Ops(front) == Ops(steps)[..k];
      LosslessSucceeds(t, mode, tree, front);
      AfterSucceeds(t, mode, tree, front);
      assert Ops(steps)[k] == Script(t, mode)[k];
      assert steps == front + [steps[k]];
    }
  }

  lemma AfterSucceeds(t: Target, mode: Mode, tree: Tree, front: seq<Step>)
    requires UniqueIds(t) && Encodable(t, mode) && Toward(tree, t, mode)
    requires Possible(tree, front) && AllOk(front)
    requires Ops(front) <= Script(t, mode) && |front| < |Script(t, mode)|
    ensures Exec(After(tree, front), Script(t, mode)[|front|]).ok
  {
    SentInOrder(Script(t, mode), front);
    StepsStayBelow(t, mode, tree, front);
    forall op <- Script(t, mode)[..|front|] ensures Has(After(tree, front), op) {
      var s :| s in front && s.op == op;
    }
    NextSucceeds(t, mode, After(tree, front), |front|);
  }

  /** If every operation of the script was sent and reported done, the target is configured. */
  lemma AllSentIsMeaning(t: Target, mode: Mode, tree: Tree, steps: seq<Step>)
    requires UniqueIds(t) && Encodable(t, mode) && Toward(tree, t, mode)
    requires Possible(tree, steps) && AllOk(steps) && Ops(steps) == Script(t, mode)
    ensures After(tree, steps) == Meaning(t, mode)
  {
    SentInOrder(Script(t, mode), steps);
    StepsStayBelow(t, mode, tree, steps);
    forall op <- Script(t, mode) ensures Has(After(tree, steps), op) {
      assert Script(t, mode)[..|steps|] == Script(t, mode);
      var s :| s in steps && s.op == op;
    }
    MeaningCovered(t, mode, After(tree, steps));
  }

  lemma OpsAppend(a: seq<Step>, b: seq<Step>)
    ensures Ops(a + b) == Ops(a) + Ops(b)
    ensures AllOk(a + b) <==> AllOk(a) && AllOk(b)
  {
  }
}
