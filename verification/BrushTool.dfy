/** The paint machine and the paint gesture as objects: each handler moves the stroke by one event. */
module BrushTool {
  import opened Basics
  import opened BrushPump

  class BrushMachine {
    var drawing: bool
    var ended: bool
    var queue: seq<Sample>
    var accepted: seq<Sample>
    var last: Option<Sample>

    function State(): Machine
      reads this
    {
      Machine(drawing, ended, queue, accepted, last)
    }

    constructor ()
      ensures State() == IDLE
    {
      drawing, ended, queue, accepted, last := false, false, [], [], None;
    }

    method PushSample(x: Reading, y: Reading, pressure: Reading, device: Device) returns (s: Option<Sample>)
      modifies this
      ensures s == Sampled(x, y, pressure, device)
      ensures State() == if s.Some? then Push(old(State()), s.value) else old(State())
    {
      if x.NotFinite? || y.NotFinite? {
        return None;
      }
      var sample := Sample(x.v, y.v, NormalizePressure(pressure, device));
      queue := queue + [sample];
      accepted := accepted + [sample];
      last := Some(sample);
      return Some(sample);
    }

    method Press(x: Reading, y: Reading, pressure: Reading, device: Device) returns (ok: bool)
      modifies this
      ensures (State(), ok) == Down(old(State()), Sampled(x, y, pressure, device))
      ensures ok <==> !old(drawing) && x.Finite? && y.Finite?
      ensures ok ==> var s := Sample(x.v, y.v, NormalizePressure(pressure, device));
                     State() == Machine(true, false, [s], [s], Some(s))
      ensures !ok ==> State() == if old(drawing) then old(State()) else Machine(false, false, [], [], None)
    {
      if drawing {
        return false;
      }
      queue, accepted, last, ended := [], [], None, false;
      var s := PushSample(x, y, pressure, device);
      if s.None? {
        return false;
      }
      drawing := true;
      return true;
    }

    method MoveTo(x: Reading, y: Reading, pressure: Reading, device: Device) returns (ok: bool)
      modifies this
      ensures (State(), ok) == Move(old(State()), Sampled(x, y, pressure, device))
      ensures ok ==> x.Finite? && y.Finite? && old(drawing)
      ensures old(drawing) && x.Finite? && y.Finite? ==>
                var s := Sample(x.v, y.v, NormalizePressure(pressure, device));
                if old(last) == Some(s) then !ok && State() == old(State())
                else ok && queue == old(queue) + [s] && accepted == old(accepted) + [s] && last == Some(s)
    {
      if !drawing {
        return false;
      }
      var p := NormalizePressure(pressure, device);
      if last.Some? && Finite(last.value.x) == x && Finite(last.value.y) == y && last.value.pressure == p {
        return false;
      }
      var s := PushSample(x, y, pressure, device);
      return s.Some?;
    }

    method Release()
      modifies this
      ensures State() == Up(old(State()))
    {
      if !drawing {
        return;
      }
      drawing, ended := false, true;
    }

    method Next() returns (s: Option<Sample>)
      modifies this`queue
      ensures old(queue) == [] ==> s == None && State() == old(State())
      ensures old(queue) != [] ==> s == Some(old(queue)[0]) && State() == old(State()).(queue := old(queue)[1..])
    {
      if queue == [] {
        return None;
      }
      s := Some(queue[0]);
      queue := queue[1..];
    }

    method Cancel()
      modifies this
      ensures State() == IDLE
    {
      drawing, ended, queue, accepted, last := false, false, [], [], None;
    }
  }

  /** The gesture over one stroke: the pump's flags, the session calls not yet answered, and a record of
      the samples accepted and sent. */
  class BrushGesture {
    const machine: BrushMachine
    var pumping: bool
    var isOpen: bool
    var outstanding: seq<Call>
    ghost var sent: seq<Sample>
    ghost var commits: nat
    ghost var log: seq<Sample>
    ghost var dead: bool
    ghost var done: bool

    ghost function State(): Stroke
      reads this, machine
    {
      Stroke(machine.State(), pumping, isOpen, outstanding, sent, commits, log, dead, done)
    }

    /** Whatever has happened to the stroke, its samples and calls are in order. */
    ghost predicate Valid()
      reads this, machine
    {
      Inv(State())
    }

    /** The gesture just after a press that opened a stroke. */
    constructor (x: real, y: real, pressure: Reading, device: Device)
      ensures Valid() && State() == Start(Sample(x, y, NormalizePressure(pressure, device)))
      ensures fresh(machine)
    {
      var m := new BrushMachine();
      var _ := m.Press(Finite(x), Finite(y), pressure, device);
      machine := m;
      pumping, isOpen, outstanding := false, false, [Begin];
      sent, commits, log, dead, done := [], 0, [Sample(x, y, NormalizePressure(pressure, device))], false, false;
    }

    /** The pump's loop up to the next awaited call. */
    method DrainQueue()
      modifies this, machine
      ensures State() == Drain(old(State()))
    {
      if !isOpen {
        pumping := false;
        return;
      }
      var sample := machine.Next();
      if sample.Some? {
        outstanding := outstanding + [Extend(sample.value)];
        sent := sent + [sample.value];
        return;
      }
      if machine.ended && machine.queue == [] {
        outstanding := outstanding + [Commit];
        commits := commits + 1;
        return;
      }
      pumping := false;
    }

    method RunPump()
      modifies this, machine
      ensures State() == Pump(old(State()))
    {
      if pumping || !isOpen {
        return;
      }
      pumping := true;
      DrainQueue();
    }

    method PointerMove(x: Reading, y: Reading, pressure: Reading, device: Device)
      requires Valid()
      modifies this, machine
      ensures State() == Step(old(State()), Moved(Sampled(x, y, pressure, device)))
      ensures old(machine.drawing) && x.Finite? && y.Finite? ==>
                var s := Sample(x.v, y.v, NormalizePressure(pressure, device));
                old(log) != [] && log == if s == old(log)[|old(log)| - 1] then old(log) else old(log) + [s]
      ensures !old(machine.drawing) || x.NotFinite? || y.NotFinite? ==> log == old(log)
      ensures Valid() && |outstanding| <= 1 && sent <= log && commits <= 1 && (commits == 1 ==> sent == log)
      ensures old(dead) ==> dead && sent == old(sent) && commits == old(commits)
    {
      hide Inv, Step, Sampled, BrushMachine.State, NormalizePressure;
      SampleOf(x, y, pressure, device);
      MoveIsTaken(State(), Sampled(x, y, pressure, device));
      StepIsSafe(State(), Moved(Sampled(x, y, pressure, device)));
      DrawingIs();
      TakeMove(x, y, pressure, device);
    }

    lemma DrawingIs()
      ensures State().machine.drawing == machine.drawing
    {
    }

    method TakeMove(x: Reading, y: Reading, pressure: Reading, device: Device)
      modifies this, machine
      ensures State() == Step(old(State()), Moved(Sampled(x, y, pressure, device)))
    {
      hide Drain, Pump, Move, Sampled;
      if machine.drawing {
        var ok := machine.MoveTo(x, y, pressure, device);
        if ok {
          log := log + [Sampled(x, y, pressure, device).value];
        }
        RunPump();
      }
    }

    method PointerUp()
      requires Valid()
      modifies this, machine
      ensures State() == Step(old(State()), Released)
      ensures Valid() && |outstanding| <= 1 && sent <= log && commits <= 1 && (commits == 1 ==> sent == log)
      ensures old(dead) ==> dead && sent == old(sent) && commits == old(commits)
    {
      hide Inv, Drain, Pump;
      StepIsSafe(State(), Released);
      if !machine.drawing {
        return;
      }
      machine.Release();
      RunPump();
    }

    method Deactivate()
      requires Valid()
      modifies this, machine
      ensures State() == Step(old(State()), Deactivated)
      ensures Valid() && |outstanding| <= 1 && sent <= log && commits <= 1 && (commits == 1 ==> sent == log)
      ensures old(dead) ==> dead && sent == old(sent) && commits == old(commits)
    {
      hide Inv;
      StepIsSafe(State(), Deactivated);
      isOpen := false;
      machine.Cancel();
      dead := true;
    }

    /** The session answers the call that has waited longest. */
    method CallAnswered(ok: bool)
      requires Valid() && outstanding != []
      modifies this, machine
      ensures State() == Step(old(State()), Answered(ok))
      ensures Valid() && |outstanding| <= 1 && sent <= log && commits <= 1 && (commits == 1 ==> sent == log)
      ensures old(dead) ==> dead && sent == old(sent) && commits == old(commits)
    {
      hide Inv, Step, Answer, BrushMachine.State;
      StepIsSafe(State(), Answered(ok));
      AnswerTaken(State(), ok);
      TakeAnswer(ok);
    }

    method TakeAnswer(ok: bool)
      requires outstanding != []
      modifies this, machine
      ensures State() == Answer(old(State()), ok)
    {
      hide Drain, Pump, BrushMachine.State;
      var call := outstanding[0];
      outstanding := outstanding[1..];
      match call
      case Begin => BeginAnswered(ok);
      case Extend(_) => ExtendAnswered(ok);
      case Commit => CommitAnswered();
    }

    lemma SampleOf(x: Reading, y: Reading, pressure: Reading, device: Device)
      ensures Sampled(x, y, pressure, device)
              == if x.Finite? && y.Finite? then Some(Sample(x.v, y.v, NormalizePressure(pressure, device))) else None
    {
    }

    lemma AnswerTaken(g: Stroke, ok: bool)
      requires g.outstanding != []
      ensures Step(g, Answered(ok)) == Answer(g, ok)
    {
    }

    method BeginAnswered(ok: bool)
      modifies this, machine
      ensures State() == if ok then Pump(old(State()).(isOpen := true))
                         else old(State()).(machine := IDLE, dead := true)
    {
      if ok {
        isOpen := true;
        RunPump();
      } else {
        machine.Cancel();
        dead := true;
      }
    }

    method ExtendAnswered(ok: bool)
      modifies this, machine
      ensures State() == if ok then Drain(old(State()))
                         else old(State()).(isOpen := false, machine := IDLE, pumping := false, dead := true)
    {
      if ok {
        DrainQueue();
      } else {
        isOpen := false;
        machine.Cancel();
        pumping, dead := false, true;
      }
    }

    method CommitAnswered()
      modifies this, machine
      ensures State() == old(State()).(machine := IDLE, isOpen := false, pumping := false, done := true)
    {
      machine.Cancel();
      isOpen := false;
      pumping, done := false, true;
    }
  }
}
