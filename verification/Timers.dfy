/** The timers of a target (keep_alive_work and periodic_work of src/dem/daemon.c): when keep
    alive commands are sent, and when the log pages are refreshed. */
module Timers {
  import opened DemTypes
  import opened DemLogPages

  const KEEP_ALIVE_TIMER := 120000
  const IDLE_TIMEOUT := 100
  const MINUTES := 60000
  const KATO_TICKS := 600

  /** The counters of a target and its discovery queues. */
  datatype Timers = Timers(kato: int, retry: nat, countdown: int, refresh: int, queues: seq<Queue>)

  /** What comes from outside in a tick: which queues answer a keep alive, and what a refresh,
      if there is one, makes of the queues and whether one of them could not be connected. */
  datatype Input = Input(alive: seq<bool>, missed: bool, after: seq<Queue>)

  function CountdownOf(refresh: int): int {
    refresh * MINUTES / IDLE_TIMEOUT
  }

  predicate Dead(queues: seq<Queue>, alive: seq<bool>, i: nat)
    requires i < |queues| == |alive|
  {
    queues[i].connected && !alive[i]
  }

  /** The first queue whose keep alive fails, or the number of queues. */
  function FirstDead(queues: seq<Queue>, alive: seq<bool>): (i: nat)
    requires |queues| == |alive|
    ensures i <= |queues| && (forall k :: 0 <= k < i ==> !Dead(queues, alive, k))
    ensures i < |queues| ==> Dead(queues, alive, i)
  {
    if queues == [] || Dead(queues, alive, 0) then 0
    else
      var i := FirstDead(queues[1..], alive[1..]);
      assert forall k :: 0 < k <= i ==> Dead(queues, alive, k) == Dead(queues[1..], alive[1..], k - 1);
      1 + i
  }

  predicate Applies(t: Timers, input: Input) {
    |input.alive| == |t.queues| && |input.after| == |t.queues|
  }

  predicate KeepAliveTime(t: Timers) {
    t.kato - 1 <= 0
  }

  predicate Fails(t: Timers, input: Input)
    requires Applies(t, input)
  {
    KeepAliveTime(t) && FirstDead(t.queues, input.alive) < |t.queues|
  }

  /** A failed round drops one queue and leaves the keep alive counter where it is. */
  function KeepAlive(t: Timers, input: Input): Timers
    requires Applies(t, input)
  {
    if !KeepAliveTime(t) then t.(kato := t.kato - 1)
    else
      var i := FirstDead(t.queues, input.alive);
      if i == |t.queues| then t.(kato := KATO_TICKS)
      else t.(kato := t.kato - 1, retry := LOG_PAGE_RETRY, queues := t.queues[i := t.queues[i].(connected := false)])
  }

  /** The counting that follows a round without failure. While the retry counter runs, the
      refresh countdown stands still. */
  function Count(t: Timers, input: Input): (Timers, bool) {
    if t.retry > 1 then (t.(retry := t.retry - 1), false)
    else if t.countdown - 1 != 0 then (t.(retry := 0, countdown := t.countdown - 1), false)
    else
      (t.(retry := if input.missed then LOG_PAGE_RETRY else 0, countdown := CountdownOf(t.refresh),
          queues := input.after), true)
  }

  /** One tick, and whether it refreshed the log pages. */
  function Next(t: Timers, input: Input): (Timers, bool)
    requires Applies(t, input)
  {
    var u := KeepAlive(t, input);
    if Fails(t, input) then (u, false) else Count(u, input)
  }

  /** The first connected queue that does not answer, i, is disconnected, and nothing else. */
  ghost predicate DropsFirst(queues: seq<Queue>, alive: seq<bool>, i: nat, now: seq<Queue>)
    requires |queues| == |alive|
  {
    && i < |queues| == |now| && queues[i].connected && !alive[i]
    && (forall k :: 0 <= k < i && queues[k].connected ==> alive[k])
    && now[i] == queues[i].(connected := false)
    && (forall k :: 0 <= k < |queues| && k != i ==> now[k] == queues[k])
  }

  /** A keep alive round fails if and only if it is due and a connected queue does not answer;
      then exactly the first such queue is dropped, the retry counter starts at 200, and nothing
      is refreshed. */
  lemma FailsExactly(t: Timers, input: Input)
    requires Applies(t, input)
    ensures Fails(t, input) <==> t.kato <= 1 && exists i :: 0 <= i < |t.queues| && t.queues[i].connected && !input.alive[i]
    ensures Fails(t, input) ==>
      var (u, refreshed) := Next(t, input);
      && !refreshed && u.retry == 200 && u.countdown == t.countdown && u.kato == t.kato - 1
      && exists i :: DropsFirst(t.queues, input.alive, i, u.queues)
  {
    if i :| 0 <= i < |t.queues| && t.queues[i].connected && !input.alive[i] {
      assert Dead(t.queues, input.alive, i);
    }
    if Fails(t, input) {
      var i := FirstDead(t.queues, input.alive);
      assert Dead(t.queues, input.alive, i);
      forall k | 0 <= k < i && t.queues[k].connected
        ensures input.alive[k]
      {
        assert !Dead(t.queues, input.alive, k);
      }
      assert DropsFirst(t.queues, input.alive, i, Next(t, input).0.queues);
    }
  }

  /** Without a failure, the tick refreshes if and only if the retry counter has run out and the
      countdown is at one, and starts both counters anew. */
  lemma RefreshTakes(t: Timers, input: Input)
    requires Applies(t, input) && !Fails(t, input)
    ensures var (u, refreshed) := Next(t, input);
      && (refreshed <==> t.retry <= 1 && t.countdown == 1)
      && (refreshed ==> u.countdown == 600 * t.refresh && u.retry == (if input.missed then 200 else 0) && u.queues == input.after)
      && (!refreshed ==> u.queues == t.queues && u.countdown == t.countdown - if t.retry <= 1 then 1 else 0)
      && u.kato == if t.kato > 1 then t.kato - 1 else 600
  {
  }

  // When the next refresh comes.

  function Connected(queues: seq<Queue>): nat {
    if queues == [] then 0 else Connected(queues[1..]) + if queues[0].connected then 1 else 0
  }

  /** The ticks to the next refresh when no keep alive fails. */
  function Due(t: Timers): int {
    (if t.retry > 1 then t.retry - 1 else 0) + t.countdown
  }

  lemma {:induction false} DropOne(queues: seq<Queue>, i: nat)
    requires i < |queues| && queues[i].connected
    ensures Connected(queues[i := queues[i].(connected := false)]) == Connected(queues) - 1
  {
    if i > 0 {
      DropOne(queues[1..], i - 1);
      assert queues[i := queues[i].(connected := false)][1..] == queues[1..][i - 1 := queues[i].(connected := false)];
    }
  }

  /** A tick without refresh either counts down by exactly one, or loses one connected queue
      and is set back by less than 200. */
  lemma TickFalls(t: Timers, input: Input)
    requires Applies(t, input) && t.countdown > 0 && !Next(t, input).1
    ensures var u := Next(t, input).0;
      && |u.queues| == |t.queues| && u.countdown > 0 && u.refresh == t.refresh
      && (if Fails(t, input) then Connected(u.queues) == Connected(t.queues) - 1 && Due(u) < Due(t) + LOG_PAGE_RETRY
          else u.queues == t.queues && Due(u) == Due(t) - 1)
  {
    if Fails(t, input) {
      DropOne(t.queues, FirstDead(t.queues, input.alive));
    }
  }

  lemma RefreshWhenDue(t: Timers, input: Input)
    requires Applies(t, input) && t.countdown > 0 && !Fails(t, input)
    ensures Next(t, input).1 <==> Due(t) == 1
  {
  }

  ghost predicate AllApply(t: Timers, inputs: seq<Input>)
    decreases |inputs|
  {
    inputs == [] || (Applies(t, inputs[0]) && AllApply(Next(t, inputs[0]).0, inputs[1..]))
  }

  /** The index of the first tick that refreshes, or the number of ticks. */
  ghost function FirstRefresh(t: Timers, inputs: seq<Input>): nat
    requires AllApply(t, inputs)
    decreases |inputs|
  {
    if inputs == [] then 0
    else
      var (u, refreshed) := Next(t, inputs[0]);
      if refreshed then 0 else 1 + FirstRefresh(u, inputs[1..])
  }

  ghost predicate NeverFails(t: Timers, inputs: seq<Input>)
    requires AllApply(t, inputs)
    decreases |inputs|
  {
    inputs == [] || (!Fails(t, inputs[0]) && NeverFails(Next(t, inputs[0]).0, inputs[1..]))
  }

  /** With a countdown that has not run out, a refresh comes within the ticks that are due
      and 200 more for each connected queue, whatever keep alives fail. */
  lemma {:induction false} RefreshWithin(t: Timers, inputs: seq<Input>)
    requires AllApply(t, inputs) && t.countdown > 0
    requires |inputs| >= Due(t) + LOG_PAGE_RETRY * Connected(t.queues)
    ensures FirstRefresh(t, inputs) < Due(t) + LOG_PAGE_RETRY * Connected(t.queues)
    decreases |inputs|
  {
    if !Next(t, inputs[0]).1 {
      TickFalls(t, inputs[0]);
      RefreshWithin(Next(t, inputs[0]).0, inputs[1..]);
    }
  }

  /** Without failures it comes in exactly the tick that is due. */
  lemma {:induction false} RefreshExactly(t: Timers, inputs: seq<Input>)
    requires AllApply(t, inputs) && NeverFails(t, inputs) && t.countdown > 0 && |inputs| >= Due(t)
    ensures FirstRefresh(t, inputs) == Due(t) - 1
    decreases |inputs|
  {
    RefreshWhenDue(t, inputs[0]);
    if !Next(t, inputs[0]).1 {
      TickFalls(t, inputs[0]);
      RefreshExactly(Next(t, inputs[0]).0, inputs[1..]);
    }
  }

  /** A countdown that is not positive never refreshes, however long the ticks go on. */
  lemma {:induction false} NeverRefreshes(t: Timers, inputs: seq<Input>)
    requires AllApply(t, inputs) && t.countdown <= 0
    ensures FirstRefresh(t, inputs) == |inputs|
    decreases |inputs|
  {
    if inputs != [] {
      NeverRefreshes(Next(t, inputs[0]).0, inputs[1..]);
    }
  }

  /** Among enough ticks there is a refresh if and only if the countdown is positive. */
  lemma RefreshesIff(t: Timers, inputs: seq<Input>)
    requires AllApply(t, inputs) && |inputs| >= Due(t) + LOG_PAGE_RETRY * Connected(t.queues)
    ensures FirstRefresh(t, inputs) < |inputs| <==> t.countdown > 0
  {
    if t.countdown > 0 {
      RefreshWithin(t, inputs);
    } else {
      NeverRefreshes(t, inputs);
    }
  }

  /** After a refresh, the next one comes if and only if the refresh interval is positive. */
  lemma RefreshesAgain(t: Timers, input: Input, inputs: seq<Input>)
    requires Applies(t, input) && Next(t, input).1 && AllApply(Next(t, input).0, inputs)
    requires |inputs| >= Due(Next(t, input).0) + LOG_PAGE_RETRY * Connected(input.after)
    ensures Next(t, input).0.countdown == KATO_TICKS * t.refresh
    ensures FirstRefresh(Next(t, input).0, inputs) < |inputs| <==> t.refresh > 0
  {
    RefreshesIff(Next(t, input).0, inputs);
  }

  /** How a target starts: with the daemon, or added to it later. */
  function Started(refresh: int, queues: seq<Queue>): Timers {
    Timers(0, LOG_PAGE_RETRY, CountdownOf(refresh), refresh, queues)
  }

  function Added(refresh: int, queues: seq<Queue>): Timers {
    Timers(0, 0, 0, refresh, queues)
  }

  /** A target that the daemon starts with is refreshed if it has an interval; one that is
      added later never is by the timer, whatever its interval. */
  lemma AddedNeverRefreshes(refresh: int, queues: seq<Queue>, inputs: seq<Input>)
    requires AllApply(Added(refresh, queues), inputs)
    ensures FirstRefresh(Added(refresh, queues), inputs) == |inputs|
    ensures refresh > 0 ==> Due(Started(refresh, queues)) == 199 + KATO_TICKS * refresh
  {
    NeverRefreshes(Added(refresh, queues), inputs);
  }

  // When keep alives are sent.

  ghost function After(t: Timers, inputs: seq<Input>): Timers
    requires AllApply(t, inputs)
    decreases |inputs|
  {
    if inputs == [] then t else After(Next(t, inputs[0]).0, inputs[1..])
  }

  /** The ticks to the first round, and then to each next one. */
  function FirstRound(t: Timers): int {
    if t.kato > 1 then t.kato else 1
  }

  lemma {:induction false} KatoAfter(t: Timers, inputs: seq<Input>)
    requires AllApply(t, inputs) && NeverFails(t, inputs)
    ensures var n, first := |inputs|, FirstRound(t);
      After(t, inputs).kato == if n < first then t.kato - n else KATO_TICKS - (n - first) % KATO_TICKS
    decreases |inputs|
  {
    if inputs != [] {
      var u := Next(t, inputs[0]).0;
      KatoAfter(u, inputs[1..]);
      var n, first := |inputs|, FirstRound(t);
      if KeepAliveTime(t) {
        assert u.kato == KATO_TICKS && first == 1;
        OneRound(n - 1);
      }
    }
  }

  lemma OneRound(n: nat)
    ensures n >= KATO_TICKS ==> (n - KATO_TICKS) % KATO_TICKS == n % KATO_TICKS
    ensures n < KATO_TICKS ==> n % KATO_TICKS == n
  {
  }

  /** While no keep alive fails, the rounds are exactly 600 ticks apart. */
  lemma RoundsApart(t: Timers, inputs: seq<Input>)
    requires AllApply(t, inputs) && NeverFails(t, inputs)
    ensures KeepAliveTime(After(t, inputs)) <==>
      |inputs| + 1 >= FirstRound(t) && (|inputs| + 1 - FirstRound(t)) % KATO_TICKS == 0
  {
    KatoAfter(t, inputs);
    var n, first := |inputs|, FirstRound(t);
    if n >= first {
      NextMultiple(n - first);
    }
  }

  lemma NextMultiple(m: nat)
    ensures m % KATO_TICKS == KATO_TICKS - 1 <==> (m + 1) % KATO_TICKS == 0
  {
  }

  // The counters in memory.

  class TargetTimers {
    const target: DemTarget
    var kato: int
    var countdown: int
    var refresh: int

    constructor (t: DemTarget, minutes: int)
      ensures target == t && refresh == minutes && kato == 0 && countdown == 0
    {
      target, kato, countdown, refresh := t, 0, 0, minutes;
    }

    ghost function View(): Timers
      reads this, target
    {
      Timers(kato, target.retry, countdown, refresh, target.queues)
    }

    /** Sends keep alives when it is time; the queues that would answer are given. */
    method KeepAliveWork(alive: seq<bool>, ghost input: Input) returns (failed: bool)
      requires input.alive == alive && Applies(View(), input)
      modifies this`kato, target`retry, target`queues
      ensures View() == KeepAlive(old(View()), input)
      ensures failed == Fails(old(View()), input)
    {
      kato := kato - 1;
      if kato > 0 {
        return false;
      }
      var i := 0;
      while i < |target.queues|
        invariant i <= |target.queues| == |alive| && target.queues == old(target.queues)
        invariant View() == old(View()).(kato := old(kato) - 1)
        invariant forall k :: 0 <= k < i ==> !Dead(target.queues, alive, k)
      {
        if target.queues[i].connected && !alive[i] {
          FirstDeadIs(target.queues, alive, i);
          target.queues := target.queues[i := target.queues[i].(connected := false)];
          target.retry := LOG_PAGE_RETRY;
          return true;
        }
        i := i + 1;
      }
      kato := KEEP_ALIVE_TIMER / IDLE_TIMEOUT / 2;
      return false;
    }

    /** One tick of the target. */
    method PeriodicWork(alive: seq<bool>, answers: seq<Answer>, ghost visits: seq<Visit>) returns (refreshed: bool)
      requires |alive| == |target.queues| == |answers| == |visits|
      requires WellFormed(target.Pages()) && AllPoint(target.subs, visits)
      requires forall i :: 0 <= i < |visits| ==> visits[i] == Visit(target.queues[i], answers[i])
      modifies this`kato, this`countdown, target
      ensures |target.queues| == |alive|
      ensures var missed := exists i :: 0 <= i < |visits| && Missed(old(target.subs), visits[i]);
        (View(), refreshed) == Next(old(View()), Input(alive, missed, target.queues))
      ensures refreshed ==> forall i :: 0 <= i < |visits| ==> target.queues[i] == QueueAfter(old(target.subs), visits[i])
      ensures target.Pages() == if refreshed then Refreshed(old(target.Pages()), visits) else old(target.Pages())
    {
      var failed := KeepAliveWork(alive, Input(alive, false, target.queues));
      if failed {
        return false;
      }
      if target.retry != 0 {
        target.retry := target.retry - 1;
        if target.retry != 0 {
          return false;
        }
      }
      countdown := countdown - 1;
      if countdown != 0 {
        return false;
      }
      target.RefreshLogPages(answers, visits);
      countdown := refresh * MINUTES / IDLE_TIMEOUT;
      return true;
    }
  }

  lemma {:induction false} FirstDeadIs(queues: seq<Queue>, alive: seq<bool>, i: nat)
    requires i < |queues| == |alive| && Dead(queues, alive, i)
    requires forall k :: 0 <= k < i ==> !Dead(queues, alive, k)
    ensures FirstDead(queues, alive) == i
  {
  }
}
