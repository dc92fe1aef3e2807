/** One brush stroke: the sample queue of the paint machine and the single-flight pump that drains it
    into the engine, as a state and the events that move it. */
module BrushPump {
  import opened Basics

  /** A number a pointer event may carry. */
  datatype Reading = Finite(v: real) | NotFinite

  datatype Device = Mouse | Pen | Touch

  datatype Sample = Sample(x: real, y: real, pressure: real)

  /** A pen's finite reading clamped to the unit range; everything else paints at full pressure. */
  function NormalizePressure(p: Reading, device: Device): (r: real)
    ensures 0.0 <= r <= 1.0
    ensures device == Pen && p.Finite? ==>
              (r == p.v <==> 0.0 <= p.v <= 1.0) && (r < p.v ==> r == 1.0) && (r > p.v ==> r == 0.0)
    ensures device != Pen || p.NotFinite? ==> r == 1.0
  {
    if device != Pen || p.NotFinite? then 1.0
    else if p.v < 0.0 then 0.0 else if p.v > 1.0 then 1.0 else p.v
  }

  /** The sample a pointer event queues, unless its point is not finite. */
  function Sampled(x: Reading, y: Reading, pressure: Reading, device: Device): Option<Sample> {
    if x.NotFinite? || y.NotFinite? then None else Some(Sample(x.v, y.v, NormalizePressure(pressure, device)))
  }

  datatype Machine = Machine(drawing: bool, ended: bool, queue: seq<Sample>, accepted: seq<Sample>,
                             last: Option<Sample>)

  const IDLE := Machine(false, false, [], [], None)

  function Push(m: Machine, s: Sample): Machine {
    m.(queue := m.queue + [s], accepted := m.accepted + [s], last := Some(s))
  }

  /** A press opens a stroke with its first sample, unless one is open or the point is not finite. */
  function Down(m: Machine, s: Option<Sample>): (Machine, bool) {
    if m.drawing then (m, false)
    else if s.None? then (IDLE, false)
    else (Push(IDLE, s.value).(drawing := true), true)
  }

  /** A move queues its sample unless no stroke is open, the point is not finite, or it repeats the last one. */
  function Move(m: Machine, s: Option<Sample>): (r: (Machine, bool))
    ensures r.1 ==> s.Some?
  {
    if !m.drawing || s.None? || m.last == s then (m, false) else (Push(m, s.value), true)
  }

  function Up(m: Machine): Machine {
    if m.drawing then m.(drawing := false, ended := true) else m
  }

  predicate Drained(m: Machine) {
    m.ended && m.queue == []
  }

  // ---- the stroke and its pump -----------------------------------------------------------

  datatype Call = Begin | Extend(sample: Sample) | Commit

  /** The machine, the pump's two flags, the calls not yet answered, what has been sent and accepted over
      the stroke, and whether it has been abandoned or has had its commit answered. */
  datatype Stroke = Stroke(
    machine: Machine, pumping: bool, isOpen: bool, outstanding: seq<Call>,
    sent: seq<Sample>, commits: nat, log: seq<Sample>, dead: bool, done: bool)

  datatype Event = Moved(s: Option<Sample>) | Released | Answered(ok: bool) | Deactivated

  /** The press that opens the stroke: the first sample is queued and begin is asked for. */
  function Start(s: Sample): Stroke {
    Stroke(Down(IDLE, Some(s)).0, false, false, [Begin], [], 0, [s], false, false)
  }

  /** The pump's loop up to the next call it must wait for. */
  function Drain(g: Stroke): Stroke {
    if !g.isOpen then g.(pumping := false)
    else if g.machine.queue != [] then
      var s := g.machine.queue[0];
      g.(machine := g.machine.(queue := g.machine.queue[1..]), outstanding := g.outstanding + [Extend(s)],
         sent := g.sent + [s])
    else if Drained(g.machine) then g.(outstanding := g.outstanding + [Commit], commits := g.commits + 1)
    else g.(pumping := false)
  }

  function Pump(g: Stroke): Stroke {
    if g.pumping || !g.isOpen then g else Drain(g.(pumping := true))
  }

  function Answer(g: Stroke, ok: bool): Stroke
    requires g.outstanding != []
  {
    var h := g.(outstanding := g.outstanding[1..]);
    match g.outstanding[0]
    case Begin => if ok then Pump(h.(isOpen := true)) else h.(machine := IDLE, dead := true)
    case Extend(_) => if ok then Drain(h) else h.(isOpen := false, machine := IDLE, pumping := false, dead := true)
    case Commit => h.(machine := IDLE, isOpen := false, pumping := false, done := true)
  }

  function Step(g: Stroke, e: Event): Stroke {
    match e
    case Moved(s) =>
      if !g.machine.drawing then g
      else
        var (m, accepted) := Move(g.machine, s);
        Pump(g.(machine := m, log := if accepted then g.log + [s.value] else g.log))
    case Released => if g.machine.drawing then Pump(g.(machine := Up(g.machine))) else g
    case Answered(ok) => if g.outstanding == [] then g else Answer(g, ok)
    case Deactivated => g.(isOpen := false, machine := IDLE, dead := true)
  }

  function Run(s: Sample, events: seq<Event>): Stroke {
    if events == [] then Start(s) else Step(Run(s, events[..|events| - 1]), events[|events| - 1])
  }

  // ---- what every interleaving keeps -------------------------------------------------------

  /** No sample repeats the one before it. */
  ghost predicate NoRepeat(log: seq<Sample>) {
    forall i :: 0 <= i < |log| - 1 ==> log[i] != log[i + 1]
  }

  /** A stroke still being painted: every accepted sample is sent or queued, and the pump is where its
      one outstanding call says it is. */
  ghost predicate Live(g: Stroke) {
    && g.machine.accepted == g.log && g.log == g.sent + g.machine.queue
    && g.machine.drawing != g.machine.ended
    && g.log != [] && g.machine.last == Some(g.log[|g.log| - 1])
    && |g.outstanding| <= 1
    && (if g.outstanding == [] then g.isOpen && !g.pumping && g.commits == 0 && g.machine.queue == []
        && g.machine.drawing
        else match g.outstanding[0]
          case Begin => !g.isOpen && !g.pumping && g.commits == 0 && g.sent == []
          case Extend(_) => g.isOpen && g.pumping && g.commits == 0
          case Commit => g.isOpen && g.pumping && g.commits == 1 && Drained(g.machine))
  }

  /** A stroke that is over: nothing is queued, and at most the call in flight is still unanswered. */
  ghost predicate Over(g: Stroke) {
    && g.machine == IDLE && g.sent <= g.log && |g.outstanding| <= 1
    && (g.pumping ==> |g.outstanding| == 1)
    && (g.outstanding != [] && g.outstanding[0].Begin? ==> !g.pumping && !g.isOpen)
    && (g.outstanding != [] && !g.outstanding[0].Begin? ==> g.pumping && !g.isOpen)
    && g.commits <= 1 && (g.commits == 1 ==> g.sent == g.log)
    && (g.done && !g.dead ==> g.outstanding == [] && !g.isOpen && g.commits == 1)
  }

  ghost predicate Inv(g: Stroke) {
    NoRepeat(g.log) && if g.dead || g.done then Over(g) else Live(g)
  }

  /** A live stroke about to run the pump's loop. */
  ghost predicate Draining(g: Stroke) {
    && g.machine.accepted == g.log && g.log == g.sent + g.machine.queue
    && g.machine.drawing != g.machine.ended
    && g.log != [] && g.machine.last == Some(g.log[|g.log| - 1])
    && g.outstanding == [] && g.isOpen && g.pumping && g.commits == 0
  }

  lemma DrainIsLive(g: Stroke)
    requires Draining(g)
    ensures Live(Drain(g)) && Drain(g).log == g.log && Drain(g).dead == g.dead && Drain(g).done == g.done
  {
    if g.machine.queue != [] {
      assert g.sent + g.machine.queue == g.sent + [g.machine.queue[0]] + g.machine.queue[1..];
    }
  }

  lemma MovedKeepsInv(g: Stroke, s: Option<Sample>)
    requires Inv(g)
    ensures Inv(Step(g, Moved(s)))
  {
    hide Drain;
    if g.machine.drawing {
      var (m, accepted) := Move(g.machine, s);
      if accepted {
        assert g.sent + (g.machine.queue + [s.value]) == g.sent + g.machine.queue + [s.value];
      }
      var h := g.(machine := m, log := if accepted then g.log + [s.value] else g.log);
      if !g.pumping && g.isOpen {
        DrainIsLive(h.(pumping := true));
      }
    }
  }

  lemma ReleasedKeepsInv(g: Stroke)
    requires Inv(g)
    ensures Inv(Step(g, Released))
  {
    hide Drain;
    if g.machine.drawing && !g.pumping && g.isOpen {
      DrainIsLive(g.(machine := Up(g.machine), pumping := true));
    }
  }

  lemma OverAnswered(g: Stroke, ok: bool)
    requires Over(g) && (g.dead || g.done) && g.outstanding != []
    ensures Over(Answer(g, ok)) && Answer(g, ok).log == g.log && (Answer(g, ok).dead || Answer(g, ok).done)
  {
  }

  lemma LiveRefused(g: Stroke)
    requires Live(g) && !g.dead && !g.done && g.outstanding != []
    ensures Over(Answer(g, false)) && Answer(g, false).log == g.log && (Answer(g, false).dead || Answer(g, false).done)
  {
  }

  lemma LiveGranted(g: Stroke)
    requires Live(g) && !g.dead && !g.done && g.outstanding != []
    ensures Answer(g, true).log == g.log
    ensures if Answer(g, true).dead || Answer(g, true).done then Over(Answer(g, true)) else Live(Answer(g, true))
  {
    hide Drain;
    var h := g.(outstanding := g.outstanding[1..]);
    match g.outstanding[0]
    case Begin => DrainIsLive(h.(isOpen := true, pumping := true));
    case Extend(_) => DrainIsLive(h);
    case Commit =>
  }

  lemma AnsweredKeepsInv(g: Stroke, ok: bool)
    requires Inv(g)
    ensures Inv(Step(g, Answered(ok)))
  {
    hide Answer, Over, Live;
    if g.outstanding != [] {
      if g.dead || g.done {
        OverAnswered(g, ok);
      } else if ok {
        LiveGranted(g);
      } else {
        LiveRefused(g);
      }
    }
  }

  lemma StepKeepsInv(g: Stroke, e: Event)
    requires Inv(g)
    ensures Inv(Step(g, e))
  {
    hide Inv;
    match e
    case Moved(s) => MovedKeepsInv(g, s);
    case Released => ReleasedKeepsInv(g);
    case Answered(ok) => AnsweredKeepsInv(g, ok);
    case Deactivated => DeactivatedKeepsInv(g);
  }

  lemma DeactivatedKeepsInv(g: Stroke)
    requires Inv(g)
    ensures Inv(Step(g, Deactivated))
  {
  }

  /** Whatever the order of moves, release, answers and deactivation. */
  lemma {:induction false} RunKeepsInv(s: Sample, events: seq<Event>)
    ensures Inv(Run(s, events))
  {
    if events != [] {
      RunKeepsInv(s, events[..|events| - 1]);
      StepKeepsInv(Run(s, events[..|events| - 1]), events[|events| - 1]);
    }
  }

  /** What a step leaves, whatever the stroke had come to: one call at most, the sent samples in order, the commit
      last; and a dead stroke stays silent. */
  lemma StepIsSafe(g: Stroke, e: Event)
    requires Inv(g)
    ensures var h := Step(g, e);
            && Inv(h) && |h.outstanding| <= 1 && h.sent <= h.log && h.commits <= 1
            && (h.commits == 1 ==> h.sent == h.log)
            && (g.dead ==> h.dead && h.sent == g.sent && h.commits == g.commits)
  {
    StepKeepsInv(g, e);
    if g.dead { DeadStep(g, e); }
    hide Step;
  }

  // ---- what gets in, and when a stroke dies ------------------------------------------------

  /** While the stroke is drawn a finite sample other than the last accepted one is accepted, whatever still waits;
      any other move changes nothing that is recorded. */
  lemma MoveIsTaken(g: Stroke, s: Option<Sample>)
    requires Inv(g)
    ensures g.machine.drawing ==> g.log != []
    ensures Step(g, Moved(s)).log
            == if g.machine.drawing && s.Some? && s.value != g.log[|g.log| - 1] then g.log + [s.value] else g.log
  {
    hide Drain, Pump, NoRepeat;
    if g.machine.drawing {
      var (m, accepted) := Move(g.machine, s);
      PumpKeeps(g.(machine := m, log := if accepted then g.log + [s.value] else g.log));
    }
  }

  /** The pump never touches what has been accepted. */
  lemma DrainKeeps(g: Stroke)
    ensures var h := Drain(g);
            h.log == g.log && h.dead == g.dead && h.done == g.done && h.machine.drawing == g.machine.drawing
  {
  }

  lemma PumpKeeps(g: Stroke)
    ensures var h := Pump(g);
            h.log == g.log && h.dead == g.dead && h.done == g.done && h.machine.drawing == g.machine.drawing
  {
    hide Drain;
    DrainKeeps(g.(pumping := true));
  }

  /** What an answer leaves of what has been accepted. */
  lemma AnswerKeeps(g: Stroke, ok: bool)
    requires g.outstanding != []
    ensures var h := Answer(g, ok);
            && h.log == g.log
            && (h.dead <==> g.dead || (!ok && !g.outstanding[0].Commit?))
            && h.machine.drawing == (ok && !g.outstanding[0].Commit? && g.machine.drawing)
  {
    hide Drain, Pump;
    var h := g.(outstanding := g.outstanding[1..]);
    match g.outstanding[0]
    case Begin => PumpKeeps(h.(isOpen := true));
    case Extend(_) => DrainKeeps(h);
    case Commit =>
  }

  lemma MoveKeeps(g: Stroke, s: Option<Sample>)
    ensures var h := Step(g, Moved(s)); h.dead == g.dead && h.machine.drawing == g.machine.drawing
  {
    hide Drain, Pump;
    var (m, accepted) := Move(g.machine, s);
    PumpKeeps(g.(machine := m, log := if accepted then g.log + [s.value] else g.log));
  }

  lemma ReleaseKeeps(g: Stroke)
    ensures var h := Step(g, Released); h.log == g.log && h.dead == g.dead && !h.machine.drawing
  {
    hide Drain, Pump;
    PumpKeeps(g.(machine := Up(g.machine)));
  }

  /** A refused begin or extend, or a deactivation, and nothing else, ends a stroke that is not over. */
  lemma DeathMeans(g: Stroke, e: Event)
    ensures Step(g, e).dead
            <==> || g.dead || e == Deactivated
                 || (e == Answered(false) && g.outstanding != [] && !g.outstanding[0].Commit?)
  {
    hide Drain, Pump, Answer, Move;
    match e
    case Moved(s) => MoveKeeps(g, s);
    case Released => ReleaseKeeps(g);
    case Answered(ok) =>
      if g.outstanding != [] {
        AnswerKeeps(g, ok);
      }
    case Deactivated =>
  }

  /** Drawing goes on until the release, or the stroke's death. */
  lemma StepDraws(g: Stroke, e: Event)
    requires Inv(g)
    ensures Step(g, e).machine.drawing <==> g.machine.drawing && e != Released && !Step(g, e).dead
  {
    hide Drain, Pump, Answer, Move, NoRepeat;
    match e
    case Moved(s) => MoveKeeps(g, s);
    case Released => ReleaseKeeps(g);
    case Answered(ok) =>
      if g.outstanding != [] {
        AnswerKeeps(g, ok);
      }
    case Deactivated =>
  }

  lemma StepLogs(g: Stroke, e: Event)
    requires !e.Moved?
    ensures Step(g, e).log == g.log
  {
    hide Drain, Pump, Answer;
    match e
    case Released => ReleaseKeeps(g);
    case Answered(ok) =>
      if g.outstanding != [] {
        AnswerKeeps(g, ok);
      }
    case Deactivated =>
  }

  lemma RunNone(s: Sample)
    ensures var g := Run(s, []); g.log == [s] && g.machine.drawing && !g.dead
  {
  }

  lemma {:induction false} DrawnUntil(s: Sample, events: seq<Event>)
    ensures Run(s, events).machine.drawing <==> Released !in events && !Run(s, events).dead
  {
    hide Step, Inv, Run;
    if events == [] {
      RunNone(s);
    } else {
      var front, e := events[..|events| - 1], events[|events| - 1];
      DrawnUntil(s, front);
      RunKeepsInv(s, front);
      assert events == front + [e];
      RunOn(s, front, e);
      StepDraws(Run(s, front), e);
      DeathMeans(Run(s, front), e);
    }
  }

  /** The path of a stroke: the press, then the finite samples of the moves before the release, an immediate repeat
      counting once. */
  function Path(s: Sample, events: seq<Event>): (path: seq<Sample>)
    ensures path != []
  {
    if events == [] then [s]
    else
      var front, e := events[..|events| - 1], events[|events| - 1];
      var path := Path(s, front);
      if e.Moved? && e.s.Some? && e.s.value != path[|path| - 1] && Released !in front && !Run(s, front).dead
      then path + [e.s.value] else path
  }

  /** In every run what the stroke accepts is its path. */
  lemma {:induction false} LogIsPath(s: Sample, events: seq<Event>)
    ensures Run(s, events).log == Path(s, events)
  {
    hide Step, Inv, Run;
    if events == [] {
      RunNone(s);
    } else {
      var front, e := events[..|events| - 1], events[|events| - 1];
      LogIsPath(s, front);
      DrawnUntil(s, front);
      RunKeepsInv(s, front);
      assert events == front + [e];
      RunOn(s, front, e);
      if e.Moved? {
        MoveIsTaken(Run(s, front), e.s);
      } else {
        StepLogs(Run(s, front), e);
      }
    }
  }

  /** A stroke is dead exactly when a begin or extend of it was refused, or it was deactivated. */
  lemma {:induction false} DeadExactlyWhen(s: Sample, events: seq<Event>)
    ensures Run(s, events).dead <==>
              exists k :: 0 <= k < |events| &&
                (|| events[k] == Deactivated
                 || (&& events[k] == Answered(false) && Run(s, events[..k]).outstanding != []
                     && !Run(s, events[..k]).outstanding[0].Commit?))
  {
    hide Step;
    if events != [] {
      var n := |events| - 1;
      var front, e := events[..n], events[n];
      DeadExactlyWhen(s, front);
      assert events == front + [e];
      RunOn(s, front, e);
      DeathMeans(Run(s, front), e);
      assert forall k :: 0 <= k < n ==> front[..k] == events[..k] && front[k] == events[k];
      hide Run;
    }
  }

  /** A stroke whose commit is answered, and that did not die, has sent its whole path. */
  lemma WholePathIsSent(s: Sample, events: seq<Event>)
    ensures Run(s, events).done && !Run(s, events).dead ==> Run(s, events).sent == Path(s, events)
  {
    RunKeepsInv(s, events);
    LogIsPath(s, events);
    hide Run;
  }

  /** At most one extend or commit is ever unanswered; what has been sent is a prefix, in order, of what
      was accepted; at most one commit is asked for, and only when everything accepted has been sent. */
  lemma StrokeIsSafe(s: Sample, events: seq<Event>)
    ensures var g := Run(s, events);
            |g.outstanding| <= 1 && g.sent <= g.log && g.commits <= 1 && (g.commits == 1 ==> g.sent == g.log)
  {
    RunKeepsInv(s, events);
  }

  /** A stroke that was neither refused nor abandoned and whose pointer is up rests only once every
      sample has been sent and its one commit answered. */
  lemma RestsOnlyWhenDone(s: Sample, events: seq<Event>)
    ensures var g := Run(s, events);
            g.outstanding == [] && !g.machine.drawing && !g.dead ==>
              g.done && g.sent == g.log && g.commits == 1 && !g.pumping && !g.isOpen
  {
    RunKeepsInv(s, events);
  }

  /** Once a stroke is refused or abandoned, no further extend or commit of it is asked for. */
  lemma {:induction false} DeadStaysSilent(s: Sample, before: seq<Event>, after: seq<Event>)
    requires Run(s, before).dead
    ensures var g, h := Run(s, before), Run(s, before + after);
            h.dead && h.sent == g.sent && h.commits == g.commits && h.log == g.log
    decreases |after|
  {
    hide Run, Step;
    if after == [] {
      assert before + after == before;
    } else {
      var front := after[..|after| - 1];
      DeadStaysSilent(s, before, front);
      RunKeepsInv(s, before + front);
      assert before + after == before + front + [after[|after| - 1]];
      RunOn(s, before + front, after[|after| - 1]);
      hide Inv;
      DeadStep(Run(s, before + front), after[|after| - 1]);
    }
  }

  lemma RunOn(s: Sample, events: seq<Event>, e: Event)
    ensures Run(s, events + [e]) == Step(Run(s, events), e)
  {
    assert (events + [e])[..|events|] == events;
  }

  lemma DeadStep(g: Stroke, e: Event)
    requires Inv(g) && g.dead
    ensures Step(g, e).dead && Step(g, e).sent == g.sent && Step(g, e).commits == g.commits && Step(g, e).log == g.log
  {
  }

  /** A refused or abandoned stroke at rest leaves the pump's gate open exactly when begin was answered
      favourably after the abandoning; otherwise the gate is shut. */
  lemma GateAfterDead(g: Stroke, ok: bool)
    requires Inv(g) && g.dead && g.outstanding != []
    ensures Step(g, Answered(ok)).outstanding == []
    ensures Step(g, Answered(ok)).isOpen <==> g.outstanding[0].Begin? && ok
  {
  }

  /** How many answers are left before a released stroke is done. */
  function Owed(g: Stroke): nat {
    (if g.outstanding != [] && g.outstanding[0].Commit? then 1
     else |g.machine.queue| + |g.outstanding| + 1)
  }

  /** With the pointer up, each favourable answer brings a live stroke one step nearer its commit, so
      nothing is lost and it cannot stall. */
  lemma {:induction false} FavourableAnswersFinish(g: Stroke)
    requires Inv(g) && !g.dead && !g.done && !g.machine.drawing
    ensures Answers(g, Owed(g)).done && Answers(g, Owed(g)).sent == g.log && Answers(g, Owed(g)).commits == 1
    decreases Owed(g)
  {
    assert g.outstanding != [];
    var h := Step(g, Answered(true));
    AnsweredKeepsInv(g, true);
    if !g.outstanding[0].Commit? {
      AnswerMakesProgress(g);
      FavourableAnswersFinish(h);
    }
  }

  function Answers(g: Stroke, k: nat): Stroke
    decreases k
  {
    if k == 0 then g else Answers(Step(g, Answered(true)), k - 1)
  }

  lemma AnswerMakesProgress(g: Stroke)
    requires Inv(g) && !g.dead && !g.done && !g.machine.drawing && g.outstanding != [] && !g.outstanding[0].Commit?
    ensures var h := Step(g, Answered(true));
            !h.dead && !h.done && !h.machine.drawing && h.log == g.log && Owed(h) == Owed(g) - 1
  {
  }
}
