/** Latest-wins coalescing: calls, runs, and the one trailing run that gathers the calls made while a
    run is in flight. The clearing of a finished run and the trailing start are separate steps. */
module Coalesce {
  import opened Basics

  /** A settled run keeps what it came to. */
  datatype Phase = Running | Settled(ok: bool) | Cleared(ok: bool)

  datatype Run = Run(startedAt: nat, phase: Phase)

  /** What a caller holds: a run it started itself, or the k-th trailing promise. */
  datatype Promise = Own(run: nat) | Trailing(k: nat)

  datatype Ticket = Ticket(at: nat, promise: Promise)

  /** `trailing` is the run the pending trailing promise waits for; `chained` lists the runs the earlier
      trailing promises went on to start. */
  datatype Snapshot = Snapshot(
    clock: nat, runs: seq<Run>, inFlight: Option<nat>, trailing: Option<nat>, chained: seq<nat>, calls: seq<Ticket>)

  datatype Event = Call | Settle(run: nat, ok: bool) | Clear(run: nat) | Continue

  const EMPTY := Snapshot(0, [], None, None, [], [])

  function StartRun(s: Snapshot): Snapshot {
    s.(runs := s.runs + [Run(s.clock, Running)], inFlight := Some(|s.runs|))
  }

  /** A call: run at once when nothing is in flight, else join or open the trailing promise. */
  function Called(s: Snapshot): Snapshot {
    if s.inFlight.None? then
      StartRun(s).(calls := s.calls + [Ticket(s.clock, Own(|s.runs|))])
    else
      s.(trailing := if s.trailing.None? then s.inFlight else s.trailing,
         calls := s.calls + [Ticket(s.clock, Trailing(|s.chained|))])
  }

  /** The trailing promise swallows what its run came to, so it goes on after a failure as after a success. */
  predicate Enabled(s: Snapshot, e: Event) {
    match e
    case Call => true
    case Settle(r, _) => r < |s.runs| && s.runs[r].phase == Running
    case Clear(r) => r < |s.runs| && s.runs[r].phase.Settled?
    case Continue => s.trailing.Some? && s.trailing.value < |s.runs| && s.runs[s.trailing.value].phase.Cleared?
  }

  function SetPhase(s: Snapshot, r: nat, phase: Phase): Snapshot
    requires r < |s.runs|
  {
    s.(runs := s.runs[r := s.runs[r].(phase := phase)])
  }

  function Step(s: Snapshot, e: Event): Snapshot
    requires Enabled(s, e)
  {
    var next := match e {
      case Call => Called(s)
      case Settle(r, ok) => SetPhase(s, r, Settled(ok))
      case Clear(r) =>
        SetPhase(s, r, Cleared(s.runs[r].phase.ok)).(inFlight := if s.inFlight == Some(r) then None else s.inFlight)
      case Continue => StartRun(s.(trailing := None, chained := s.chained + [|s.runs|]))
    };
    next.(clock := s.clock + 1)
  }

  /** The states of a history of enabled events from the empty state. */
  ghost predicate IsHistory(states: seq<Snapshot>, events: seq<Event>) {
    && |states| == |events| + 1 && states[0] == EMPTY
    && forall k :: 0 <= k < |events| ==> Enabled(states[k], events[k]) && states[k + 1] == Step(states[k], events[k])
  }

  // ---- every caller is served by a run that could see its change -----------------------------

  /** The run that settles a ticket, once there is one. */
  function Server(s: Snapshot, t: Ticket): Option<nat> {
    match t.promise
    case Own(r) => Some(r)
    case Trailing(k) => if k < |s.chained| then Some(s.chained[k]) else None
  }

  ghost predicate Served(s: Snapshot, t: Ticket) {
    && t.at < s.clock
    && (Server(s, t).Some? ==> Server(s, t).value < |s.runs| && s.runs[Server(s, t).value].startedAt >= t.at)
    && (Server(s, t).None? ==> s.trailing.Some? && t.promise == Trailing(|s.chained|))
  }

  ghost predicate Inv(s: Snapshot) {
    && (forall i :: 0 <= i < |s.calls| ==> Served(s, s.calls[i]))
    && (forall r :: 0 <= r < |s.runs| ==> s.runs[r].startedAt < s.clock)
    && (s.inFlight.Some? ==> s.inFlight.value < |s.runs| && !s.runs[s.inFlight.value].phase.Cleared?)
    && (s.trailing.Some? ==> s.trailing.value < |s.runs|)
    && |s.runs| + (if s.trailing.Some? then 1 else 0) <= |s.calls|
  }

  lemma StepKeepsInv(s: Snapshot, e: Event)
    requires Inv(s) && Enabled(s, e)
    ensures Inv(Step(s, e))
  {
    hide Inv, Step, Enabled;
    match e
    case Call => CallKeepsInv(s);
    case Settle(r, ok) => SettleKeepsInv(s, r, ok);
    case Clear(r) => ClearKeepsInv(s, r);
    case Continue => ContinueKeepsInv(s);
  }

  lemma CallKeepsInv(s: Snapshot)
    requires Inv(s)
    ensures Inv(Step(s, Call))
  {
  }

  lemma SettleKeepsInv(s: Snapshot, r: nat, ok: bool)
    requires Inv(s) && Enabled(s, Settle(r, ok))
    ensures Inv(Step(s, Settle(r, ok)))
  {
  }

  lemma ClearKeepsInv(s: Snapshot, r: nat)
    requires Inv(s) && Enabled(s, Clear(r))
    ensures Inv(Step(s, Clear(r)))
  {
  }

  lemma ContinueKeepsInv(s: Snapshot)
    requires Inv(s) && Enabled(s, Continue)
    ensures Inv(Step(s, Continue))
  {
  }

  lemma {:induction false} HistoryKeepsInv(states: seq<Snapshot>, events: seq<Event>, k: nat)
    requires IsHistory(states, events) && k < |states|
    ensures Inv(states[k])
  {
    if k > 0 {
      HistoryKeepsInv(states, events, k - 1);
      StepKeepsInv(states[k - 1], events[k - 1]);
    }
  }

  /** In every interleaving each caller's promise is settled by a run that started at or after its call,
      and there are never more runs than calls. */
  lemma CallersAreServedFresh(states: seq<Snapshot>, events: seq<Event>, k: nat)
    requires IsHistory(states, events) && k < |states|
    ensures var s := states[k];
            && |s.runs| <= |s.calls|
            && forall i :: 0 <= i < |s.calls| && Server(s, s.calls[i]).Some? ==>
                 && Server(s, s.calls[i]).value < |s.runs|
                 && s.runs[Server(s, s.calls[i]).value].startedAt >= s.calls[i].at
  {
    HistoryKeepsInv(states, events, k);
    var s := states[k];
    forall i | 0 <= i < |s.calls| && Server(s, s.calls[i]).Some?
      ensures Server(s, s.calls[i]).value < |s.runs| && s.runs[Server(s, s.calls[i]).value].startedAt >= s.calls[i].at
    {
      assert Served(s, s.calls[i]);
    }
  }

  /** When nothing but a new call could happen, every caller has its run, and that run is over. */
  lemma RestServesAll(s: Snapshot)
    requires Inv(s) && (forall e :: Enabled(s, e) ==> e == Call)
    ensures forall i :: 0 <= i < |s.calls| ==>
              && Server(s, s.calls[i]).Some? && Server(s, s.calls[i]).value < |s.runs|
              && s.runs[Server(s, s.calls[i]).value].phase.Cleared?
  {
    forall r | 0 <= r < |s.runs| ensures s.runs[r].phase.Cleared? {
      assert !Enabled(s, Settle(r, true)) && !Enabled(s, Clear(r));
    }
    assert !Enabled(s, Continue);
    forall i | 0 <= i < |s.calls|
      ensures Server(s, s.calls[i]).Some? && Server(s, s.calls[i]).value < |s.runs|
    {
      assert Served(s, s.calls[i]);
    }
  }

  function Calls(s: Snapshot, n: nat): Snapshot
    decreases n
  {
    if n == 0 then s else Calls(Step(s, Call), n - 1)
  }

  /** Any number of calls while a run is in flight start no run and share one trailing promise. */
  lemma {:induction false} BurstCostsOneRun(s: Snapshot, n: nat)
    requires s.inFlight.Some? && n > 0
    ensures var b := Calls(s, n);
            && b.runs == s.runs && b.inFlight == s.inFlight && b.chained == s.chained
            && b.trailing == (if s.trailing.None? then s.inFlight else s.trailing)
            && |b.calls| == |s.calls| + n && b.calls[..|s.calls|] == s.calls
            && forall i :: |s.calls| <= i < |b.calls| ==> b.calls[i].promise == Trailing(|s.chained|)
    decreases n
  {
    var one := Step(s, Call);
    if n > 1 {
      BurstCostsOneRun(one, n - 1);
      var b := Calls(s, n);
      assert b == Calls(one, n - 1);
      assert b.calls[..|s.calls|] == b.calls[..|one.calls|][..|s.calls|];
      assert b.calls[|s.calls|] == b.calls[..|one.calls|][|s.calls|];
    } else {
      assert Calls(one, 0) == one;
      assert Calls(s, 1) == one;
    }
  }

  // ---- when runs start and the slot empties ------------------------------------------------------

  /** In every history a run starts at a call that finds the slot empty and at a trailing start, and at no other step;
      it starts there and then and takes the slot, which empties only when the run in it is cleared. The caller who
      started it holds it, and a trailing start comes only once the run it waited for has settled and been cleared. */
  lemma RunsStartExactly(states: seq<Snapshot>, events: seq<Event>, k: nat)
    requires IsHistory(states, events) && k < |events|
    ensures var s, t, e := states[k], states[k + 1], events[k];
            var starts := e == Continue || (e == Call && s.inFlight.None?);
            && |t.runs| == |s.runs| + (if starts then 1 else 0)
            && (starts ==> t.runs[|s.runs|] == Run(k, Running))
            && t.inFlight == (if starts then Some(|s.runs|)
                              else if e.Clear? && s.inFlight == Some(e.run) then None else s.inFlight)
            && (e == Call ==>
                  && |t.calls| == |s.calls| + 1 && t.calls[|s.calls|].at == k
                  && (starts ==> Server(t, t.calls[|s.calls|]) == Some(|s.runs|)))
            && (e == Continue ==>
                  && s.trailing.Some? && s.trailing.value < |s.runs| && t.trailing.None?
                  && exists i, j, ok :: 0 <= i < j < k && events[i] == Settle(s.trailing.value, ok)
                                        && events[j] == Clear(s.trailing.value))
  {
    hide Inv;
    ClockCounts(states, events, k);
    assert states[k + 1] == Step(states[k], events[k]);
    if events[k] == Continue {
      var j := PhaseComesFromAClear(states, events, k, states[k].trailing.value);
      PhaseComesFromASettle(states, events, j, states[k].trailing.value);
    }
  }

  lemma {:induction false} ClockCounts(states: seq<Snapshot>, events: seq<Event>, k: nat)
    requires IsHistory(states, events) && k < |states|
    ensures states[k].clock == k
  {
    if k > 0 {
      ClockCounts(states, events, k - 1);
      assert states[k] == Step(states[k - 1], events[k - 1]);
    }
  }

  lemma {:induction false} PhaseComesFromAClear(states: seq<Snapshot>, events: seq<Event>, k: nat, r: nat)
      returns (j: nat)
    requires IsHistory(states, events) && k < |states| && r < |states[k].runs| && states[k].runs[r].phase.Cleared?
    ensures j < k && events[j] == Clear(r) && r < |states[j].runs| && states[j].runs[r].phase.Settled?
  {
    var s, e := states[k - 1], events[k - 1];
    assert states[k] == Step(s, e);
    if e == Clear(r) {
      j := k - 1;
    } else {
      j := PhaseComesFromAClear(states, events, k - 1, r);
    }
  }

  // ---- what callers are told -------------------------------------------------------------------

  /** What a caller has been told, once its run is over and cleared. */
  function Told(s: Snapshot, t: Ticket): Option<bool> {
    match Server(s, t)
    case None => None
    case Some(r) => if r < |s.runs| && s.runs[r].phase.Cleared? then Some(s.runs[r].phase.ok) else None
  }

  lemma {:induction false} PhaseComesFromASettle(states: seq<Snapshot>, events: seq<Event>, k: nat, r: nat)
    requires IsHistory(states, events) && k < |states| && r < |states[k].runs| && states[k].runs[r].phase != Running
    ensures exists j :: 0 <= j < k && events[j] == Settle(r, states[k].runs[r].phase.ok)
  {
    if k > 0 {
      var s, e := states[k - 1], events[k - 1];
      assert states[k] == Step(s, e);
      if e != Settle(r, states[k].runs[r].phase.ok) {
        assert r < |s.runs| && s.runs[r].phase != Running && s.runs[r].phase.ok == states[k].runs[r].phase.ok;
        PhaseComesFromASettle(states, events, k - 1, r);
      }
    }
  }

  lemma {:induction false} SettledStays(states: seq<Snapshot>, events: seq<Event>, i: nat, j: nat, r: nat)
    requires IsHistory(states, events) && i <= j < |states| && r < |states[i].runs|
             && states[i].runs[r].phase != Running
    ensures r < |states[j].runs| && states[j].runs[r].phase != Running
    decreases j - i
  {
    if i < j {
      SettledStays(states, events, i, j - 1, r);
      assert states[j] == Step(states[j - 1], events[j - 1]);
    }
  }

  /** No run settles twice. */
  lemma RunSettlesOnce(states: seq<Snapshot>, events: seq<Event>, i: nat, j: nat, r: nat)
    requires IsHistory(states, events) && i < j < |events| && events[i].Settle? && events[i].run == r
    ensures !(events[j].Settle? && events[j].run == r)
  {
    assert states[i + 1] == Step(states[i], events[i]);
    SettledStays(states, events, i + 1, j, r);
  }

  /** A caller is told the outcome of the run that served it, which started at or after its call, and of no
      other: not of the run that was in flight when it called, whatever that came to. */
  lemma CallersAreToldTheirOwnRun(states: seq<Snapshot>, events: seq<Event>, k: nat, i: nat)
    requires IsHistory(states, events) && k < |states| && i < |states[k].calls|
             && Told(states[k], states[k].calls[i]).Some?
    ensures var s, t := states[k], states[k].calls[i];
            && Server(s, t).Some? && Server(s, t).value < |s.runs|
            && s.runs[Server(s, t).value].startedAt >= t.at
            && (exists j :: 0 <= j < k && events[j] == Settle(Server(s, t).value, Told(s, t).value))
  {
    HistoryKeepsInv(states, events, k);
    assert Served(states[k], states[k].calls[i]);
    PhaseComesFromASettle(states, events, k, Server(states[k], states[k].calls[i]).value);
  }

  function ForgetPhase(p: Phase): Phase {
    match p
    case Running => Running
    case Settled(_) => Settled(true)
    case Cleared(_) => Cleared(true)
  }

  function ForgetRuns(runs: seq<Run>): (f: seq<Run>)
    ensures |f| == |runs|
  {
    seq(|runs|, i requires 0 <= i < |runs| => runs[i].(phase := ForgetPhase(runs[i].phase)))
  }

  /** A state without its runs' outcomes. */
  function Forget(s: Snapshot): Snapshot {
    s.(runs := ForgetRuns(s.runs))
  }

  predicate SameButOutcome(a: Event, b: Event) {
    a == b || (a.Settle? && b.Settle? && a.run == b.run)
  }

  lemma ForgetStep(s: Snapshot, t: Snapshot, a: Event, b: Event)
    requires Forget(s) == Forget(t) && SameButOutcome(a, b) && Enabled(s, a)
    ensures Enabled(t, b) && Forget(Step(s, a)) == Forget(Step(t, b))
  {
    assert |s.runs| == |ForgetRuns(s.runs)| == |ForgetRuns(t.runs)| == |t.runs|;
    forall r | 0 <= r < |s.runs|
      ensures s.runs[r].startedAt == t.runs[r].startedAt && ForgetPhase(s.runs[r].phase) == ForgetPhase(t.runs[r].phase)
    {
      assert ForgetRuns(s.runs)[r] == ForgetRuns(t.runs)[r];
    }
    assert Forget(s).inFlight == Forget(t).inFlight && Forget(s).trailing == Forget(t).trailing;
    var u, v := Step(s, a), Step(t, b);
    forall r | 0 <= r < |u.runs| ensures r < |v.runs| && ForgetRuns(u.runs)[r] == ForgetRuns(v.runs)[r] {
      if r < |s.runs| {
        assert ForgetRuns(s.runs)[r] == ForgetRuns(t.runs)[r];
      }
    }
    assert ForgetRuns(u.runs) == ForgetRuns(v.runs);
  }

  /** A failed run wedges nothing: whatever its runs come to, the same calls and completions lead to the same
      starts, the same slots and the same servers. */
  lemma {:induction false} OutcomesSteerNothing(states: seq<Snapshot>, events: seq<Event>, others: seq<Event>, k: nat)
      returns (twins: seq<Snapshot>)
    requires IsHistory(states, events) && |others| == |events| && k <= |events|
    requires forall j :: 0 <= j < |events| ==> SameButOutcome(events[j], others[j])
    ensures IsHistory(twins, others[..k])
    ensures forall j :: 0 <= j <= k ==> Forget(twins[j]) == Forget(states[j])
  {
    hide Step, Enabled, Forget, SameButOutcome;
    if k == 0 {
      twins := [EMPTY];
    } else {
      var front := OutcomesSteerNothing(states, events, others, k - 1);
      ForgetStep(states[k - 1], front[k - 1], events[k - 1], others[k - 1]);
      twins := front + [Step(front[k - 1], others[k - 1])];
      HistoryGoesOn(front, others[..k - 1], others[k - 1]);
      assert others[..k] == others[..k - 1] + [others[k - 1]];
    }
  }

  lemma HistoryGoesOn(states: seq<Snapshot>, events: seq<Event>, e: Event)
    requires IsHistory(states, events) && Enabled(states[|events|], e)
    ensures IsHistory(states + [Step(states[|events|], e)], events + [e])
  {
    hide Step, Enabled;
  }

  // ---- how many runs at once -----------------------------------------------------------------

  predicate Busy(s: Snapshot, r: nat) {
    r < |s.runs| && !s.runs[r].phase.Cleared?
  }

  ghost predicate AtMostOneBusy(s: Snapshot) {
    forall a: nat, b: nat :: Busy(s, a) && Busy(s, b) ==> a == b
  }

  /** A trailing start while another run still holds the slot. */
  predicate Collides(s: Snapshot, e: Event) {
    e == Continue && s.inFlight.Some?
  }

  /** Only the run in the slot is unfinished. */
  ghost predicate OneAtATime(s: Snapshot) {
    forall r: nat :: Busy(s, r) ==> s.inFlight == Some(r)
  }

  lemma QuietStepKeepsOne(s: Snapshot, e: Event)
    requires Inv(s) && OneAtATime(s) && Enabled(s, e) && !Collides(s, e)
    ensures OneAtATime(Step(s, e))
  {
    var n := Step(s, e);
    forall r: nat | Busy(n, r) ensures n.inFlight == Some(r) {
      if r < |s.runs| {
        assert Busy(s, r);
      }
    }
  }

  lemma CollisionOverlaps(s: Snapshot, e: Event)
    requires Inv(s) && Enabled(s, e) && Collides(s, e)
    ensures !AtMostOneBusy(Step(s, e))
  {
    var n := Step(s, e);
    assert Busy(n, s.inFlight.value) && Busy(n, |s.runs|);
  }

  lemma {:induction false} QuietHistoryKeepsOne(states: seq<Snapshot>, events: seq<Event>, k: nat)
    requires IsHistory(states, events) && k < |states|
    requires forall j :: 0 <= j < k ==> !Collides(states[j], events[j])
    ensures OneAtATime(states[k])
  {
    if k > 0 {
      QuietHistoryKeepsOne(states, events, k - 1);
      HistoryKeepsInv(states, events, k - 1);
      QuietStepKeepsOne(states[k - 1], events[k - 1]);
    }
  }

  /** Up to any moment of a history at most one run was ever unfinished if and only if no trailing start found
      the slot taken. */
  lemma OneRunAtATime(states: seq<Snapshot>, events: seq<Event>, k: nat)
    requires IsHistory(states, events) && k < |states|
    ensures (forall j :: 0 <= j <= k ==> AtMostOneBusy(states[j]))
            <==> (forall j :: 0 <= j < k ==> !Collides(states[j], events[j]))
  {
    if forall j :: 0 <= j < k ==> !Collides(states[j], events[j]) {
      forall j | 0 <= j <= k ensures AtMostOneBusy(states[j]) {
        QuietHistoryKeepsOne(states, events, j);
      }
    } else {
      var j :| 0 <= j < k && Collides(states[j], events[j]);
      HistoryKeepsInv(states, events, j);
      CollisionOverlaps(states[j], events[j]);
      assert !AtMostOneBusy(states[j + 1]);
    }
  }

  /** A run has been cleared and its trailing run has not yet started. */
  predicate InGap(s: Snapshot) {
    s.inFlight.None? && s.trailing.Some?
  }

  /** The slot holds exactly the unfinished run numbered `from` or above. */
  ghost predicate SlotHolds(s: Snapshot, from: nat) {
    && from <= |s.runs|
    && (forall r: nat :: from <= r && Busy(s, r) ==> s.inFlight == Some(r))
    && (s.inFlight.Some? ==> from <= s.inFlight.value && Busy(s, s.inFlight.value))
  }

  lemma SlotStep(s: Snapshot, e: Event, from: nat)
    requires Inv(s) && SlotHolds(s, from) && Enabled(s, e) && e != Continue
    ensures SlotHolds(Step(s, e), from)
  {
    var n := Step(s, e);
    forall r: nat | from <= r && Busy(n, r) ensures n.inFlight == Some(r) {
      if r < |s.runs| {
        assert Busy(s, r);
      }
    }
  }

  /** From a gap on, until the trailing start, the slot holds exactly the unfinished run that a call put there. */
  lemma {:induction false} GapRuns(states: seq<Snapshot>, events: seq<Event>, i: nat, j: nat)
    requires IsHistory(states, events) && i <= j < |states| && InGap(states[i])
    requires forall m :: i <= m < j ==> events[m] != Continue
    ensures SlotHolds(states[j], |states[i].runs|)
    decreases j - i
  {
    hide SlotHolds, Inv, Step, Enabled;
    if i < j {
      GapRuns(states, events, i, j - 1);
      HistoryKeepsInv(states, events, j - 1);
      SlotStep(states[j - 1], events[j - 1], |states[i].runs|);
    } else {
      NoneAbove(states[i]);
    }
  }

  lemma NoneAbove(s: Snapshot)
    requires InGap(s)
    ensures SlotHolds(s, |s.runs|)
  {
  }

  /** The trailing start that ends a gap runs beside another run if and only if a call made in the gap started one
      that is not yet cleared. */
  lemma GapCallOverlaps(states: seq<Snapshot>, events: seq<Event>, i: nat, j: nat)
    requires IsHistory(states, events) && i <= j < |events| && InGap(states[i]) && events[j] == Continue
    requires forall m :: i <= m < j ==> events[m] != Continue
    ensures Collides(states[j], events[j])
            <==> exists r: nat :: |states[i].runs| <= r < |states[j].runs| && Busy(states[j], r)
  {
    GapRuns(states, events, i, j);
  }

  /** Two calls, the first run settling and clearing: the second call's trailing promise is about to go on. */
  lemma FirstRunOver(ok: bool) returns (states: seq<Snapshot>)
    ensures IsHistory(states, [Call, Call, Settle(0, ok), Clear(0)])
    ensures states[4] == Snapshot(4, [Run(0, Cleared(ok))], None, Some(0), [],
                                  [Ticket(0, Own(0)), Ticket(1, Trailing(0))])
  {
    var s1 := Step(EMPTY, Call);
    var s2 := Step(s1, Call);
    var s3 := Step(s2, Settle(0, ok));
    states := [EMPTY, s1, s2, s3, Step(s3, Clear(0))];
  }

  /** A history that gets there: a third call in the gap, then the trailing start. Its three calls cost three runs,
      two of them at once. */
  lemma TwoRunsAtOnce() returns (states: seq<Snapshot>, events: seq<Event>)
    ensures IsHistory(states, events)
    ensures var s := states[|states| - 1]; Busy(s, 1) && Busy(s, 2) && |s.runs| == 3 && |s.calls| == 3
  {
    var front := FirstRunOver(true);
    var s5 := Step(front[4], Call);
    states, events := front + [s5, Step(s5, Continue)], [Call, Call, Settle(0, true), Clear(0), Call, Continue];
  }

  /** One with a call in the gap that does not: the run of that call is over before the trailing start. */
  lemma GapCallInTime() returns (states: seq<Snapshot>, events: seq<Event>)
    ensures IsHistory(states, events) && |events| == 8 && events[4] == Call && InGap(states[4]) && events[7] == Continue
    ensures forall k :: 0 <= k < |states| ==> AtMostOneBusy(states[k])
  {
    hide Step, Enabled, IsHistory;
    states, events := GapCallEnds();
    OneRunAtATime(states, events, 8);
  }

  lemma GapCallEnds() returns (states: seq<Snapshot>, events: seq<Event>)
    ensures IsHistory(states, events) && |states| == 9
    ensures |events| == 8 && events[4] == Call && InGap(states[4]) && events[7] == Continue
    ensures forall k :: 0 <= k < 8 ==> !Collides(states[k], events[k])
  {
    events := [Call, Call, Settle(0, false), Clear(0), Call, Settle(1, true), Clear(1), Continue];
    var front := FirstRunOver(false);
    var s5 := Step(front[4], Call);
    var s6 := Step(s5, Settle(1, true));
    var s7 := Step(s6, Clear(1));
    states := front + [s5, s6, s7, Step(s7, Continue)];
    assert s7.inFlight.None?;
  }

  // ---- the object ----------------------------------------------------------------------------

  /** The coalescer: two promise slots, and a record of the runs and calls they stand for. */
  class LatestWins {
    var inFlight: Option<nat>
    var trailing: Option<nat>
    ghost var clock: nat
    ghost var runs: seq<Run>
    ghost var chained: seq<nat>
    ghost var calls: seq<Ticket>
    var started: nat

    ghost function State(): Snapshot
      reads this
    {
      Snapshot(clock, runs, inFlight, trailing, chained, calls)
    }

    ghost predicate Valid()
      reads this
    {
      started == |runs|
    }

    constructor ()
      ensures Valid() && State() == EMPTY
    {
      inFlight, trailing, started := None, None, 0;
      clock, runs, chained, calls := 0, [], [], [];
    }

    method Start() returns (run: nat)
      requires Valid()
      modifies this
      ensures Valid() && run == old(started) && State() == StartRun(old(State()))
    {
      run := started;
      runs := runs + [Run(clock, Running)];
      started := started + 1;
      inFlight := Some(run);
    }

    /** A call; the promise handed back is the caller's own run or the shared trailing one. */
    method Invoke() returns (own: Option<nat>)
      requires Valid()
      modifies this
      ensures Valid() && State() == Step(old(State()), Call)
      ensures own.Some? <==> old(inFlight).None?
    {
      if inFlight.None? {
        var r := Start();
        calls := calls + [Ticket(clock, Own(r))];
        own := Some(r);
      } else {
        if trailing.None? {
          trailing := inFlight;
        }
        calls := calls + [Ticket(clock, Trailing(|chained|))];
        own := None;
      }
      clock := clock + 1;
    }

    /** The finished run's cleanup: only the run still in the slot empties it. */
    method ClearRun(run: nat)
      requires Valid() && Enabled(State(), Clear(run))
      modifies this
      ensures Valid() && State() == Step(old(State()), Clear(run))
    {
      runs := runs[run := runs[run].(phase := Cleared(runs[run].phase.ok))];
      if inFlight == Some(run) {
        inFlight := None;
      }
      clock := clock + 1;
    }

    /** The trailing promise's turn: whatever became of the run it waited for, it starts the next. */
    method ContinueTrailing() returns (run: nat)
      requires Valid() && Enabled(State(), Continue)
      modifies this
      ensures Valid() && State() == Step(old(State()), Continue)
    {
      trailing := None;
      chained := chained + [started];
      run := Start();
      clock := clock + 1;
    }
  }
}
