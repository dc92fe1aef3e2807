/** The engine's live images are exactly the ones the session holds, in every run whose landings are safe and in no
    other; and sequential runs are safe. */
module SessionOwnership {
  import opened Basics
  import opened SessionHandles

  function SourceHandle(s: Session): set<nat>
    requires Shaped(s)
  {
    if s.source.Some? then {Bound(s).handle} else {}
  }

  function PatternHandle(s: Session): set<nat> {
    if s.pattern.Some? then {s.pattern.value} else {}
  }

  function ProxyHandle(s: Session): set<nat> {
    if s.proxy.Some? then {s.proxy.value.handle} else {}
  }

  function Held(s: Session): set<nat>
    requires Shaped(s)
  {
    SourceHandle(s) + PatternHandle(s) + ProxyHandle(s)
  }

  /** The engine's images are exactly those held, each held once, none freed twice. */
  predicate Owned(s: Session)
    requires Shaped(s)
  {
    && s.live == Held(s) && s.misfreed == 0
    && SourceHandle(s) !! PatternHandle(s) && SourceHandle(s) !! ProxyHandle(s) && PatternHandle(s) !! ProxyHandle(s)
  }

  /** Owned, with every handle below the engine's next and the images of objects no longer bound gone. */
  predicate OwnInv(s: Session) {
    && Shaped(s) && Owned(s)
    && (forall h :: h in s.live ==> h < s.next)
    && (forall o :: 0 <= o < |s.objects| ==> s.objects[o].handle < s.next)
    && (forall o :: 0 <= o < |s.objects| && s.source != Some(o) ==> s.objects[o].handle !in s.live)
  }

  /** A new image lands on the object the session still has, and a new proxy where there is none. */
  predicate Safe(s: Session, e: Event)
    requires Shaped(s)
  {
    e.Land? && e.k < |s.pending| && e.result.NewHandle? ==>
      match s.pending[e.k]
      case Swap(obj) => s.source == Some(obj)
      case Edit(obj) => s.source == Some(obj)
      case Canvas(_) => true
      case Resample(_, _) => s.proxy.None?
  }

  lemma IngestKeepsOwned(s: Session, r: Result)
    requires OwnInv(s)
    ensures OwnInv(IngestStep(s, r))
  {
  }

  lemma PatternKeepsOwned(s: Session, accepted: bool)
    requires OwnInv(s)
    ensures OwnInv(DefinePatternStep(s, accepted))
  {
  }

  lemma InPlaceKeepsOwned(s: Session, flag: bool)
    requires OwnInv(s)
    ensures OwnInv(ReopenStep(s, flag)) && OwnInv(RecompositeStep(s, flag)) && OwnInv(ClaimStep(s))
  {
  }

  lemma DisposeKeepsOwned(s: Session)
    requires OwnInv(s)
    ensures OwnInv(DisposeStep(s)) && DisposeStep(s).live == {} && DisposeStep(s).claim.None?
  {
  }

  lemma BeginKeepsOwned(s: Session, e: Event)
    requires OwnInv(s) && IsBegin(e)
    ensures OwnInv(Step(s, e))
  {
  }

  lemma SwapLandsOwned(s: Session, obj: nat, r: Result)
    requires OwnInv(s) && obj < |s.objects|
    ensures if r.NewHandle? && s.source != Some(obj) then !Owned(LandSwap(s, obj, r)) else OwnInv(LandSwap(s, obj, r))
  {
  }

  lemma EditLandsOwned(s: Session, obj: nat, r: Result)
    requires OwnInv(s) && obj < |s.objects|
    ensures if r.NewHandle? && s.source != Some(obj) then !Owned(LandEdit(s, obj, r)) else OwnInv(LandEdit(s, obj, r))
  {
  }

  lemma CanvasLandsOwned(s: Session, obj: nat, r: Result)
    requires OwnInv(s) && obj < |s.objects|
    ensures OwnInv(LandCanvas(s, obj, r))
  {
  }

  lemma PreviewLandsOwned(s: Session, key: Key, of: nat, r: Result)
    requires OwnInv(s)
    ensures if r.NewHandle? && s.proxy.Some? then !Owned(LandPreview(s, key, of, r))
            else OwnInv(LandPreview(s, key, of, r))
  {
  }

  /** A step from an owned state keeps the images owned exactly when it is safe. */
  lemma StepKeepsOwned(s: Session, e: Event)
    requires Shaped(s) && OwnInv(s)
    ensures if Safe(s, e) then OwnInv(Step(s, e)) else !Owned(Step(s, e))
  {
    hide OwnInv, Owned, IngestStep, DefinePatternStep, ReopenStep, RecompositeStep, ClaimStep, DisposeStep,
      BeginPreviewStep, LandSwap, LandEdit, LandCanvas, LandPreview;
    match e
    case Ingest(r) => IngestKeepsOwned(s, r);
    case Reopen(changed) => InPlaceKeepsOwned(s, changed);
    case DefinePattern(accepted) => PatternKeepsOwned(s, accepted);
    case Recomposite(folded) => InPlaceKeepsOwned(s, folded);
    case ClaimTiles => InPlaceKeepsOwned(s, false);
    case Dispose => DisposeKeepsOwned(s);
    case Land(k, r) =>
      if k < |s.pending| {
        DropKeepsOwned(s, k);
        match s.pending[k]
        case Swap(obj) => SwapLandsOwned(Drop(s, k), obj, r);
        case Edit(obj) => EditLandsOwned(Drop(s, k), obj, r);
        case Canvas(obj) => CanvasLandsOwned(Drop(s, k), obj, r);
        case Resample(key, of) => PreviewLandsOwned(Drop(s, k), key, of, r);
      }
    case _ => BeginKeepsOwned(s, e);
  }

  lemma DropKeepsOwned(s: Session, k: nat)
    requires OwnInv(s) && k < |s.pending|
    ensures OwnInv(Drop(s, k))
  {
  }

  lemma StartOwned()
    ensures OwnInv(START)
  {
  }

  lemma {:induction false} SafeRunIsOwned(events: seq<Event>, k: nat)
    requires k <= |events| && forall j :: 0 <= j < k ==> Safe(Run(events[..j]), events[j])
    ensures OwnInv(Run(events[..k]))
  {
    hide OwnInv, Step, Safe;
    if k == 0 {
      StartOwned();
    } else {
      SafeRunIsOwned(events, k - 1);
      RunStep(events, k - 1);
      StepKeepsOwned(Run(events[..k - 1]), events[k - 1]);
    }
  }

  /** In every run the images are owned throughout if and only if every landing is safe: the object it began with
      still bound, or no proxy installed in between. */
  lemma OwnedExactlyWhenLandingsAreSafe(events: seq<Event>)
    ensures (forall j :: 0 <= j <= |events| ==> Owned(Run(events[..j])))
            <==> (forall j :: 0 <= j < |events| ==> Safe(Run(events[..j]), events[j]))
  {
    hide Owned, Step, Run, Safe;
    if forall j :: 0 <= j < |events| ==> Safe(Run(events[..j]), events[j]) {
      forall j | 0 <= j <= |events| ensures Owned(Run(events[..j])) {
        SafeRunIsOwned(events, j);
      }
    } else {
      var j := FirstUnsafe(events, |events|);
      SafeRunIsOwned(events, j);
      RunStep(events, j);
      StepKeepsOwned(Run(events[..j]), events[j]);
      assert !Owned(Run(events[..j + 1]));
    }
  }

  lemma {:induction false} FirstUnsafe(events: seq<Event>, k: nat) returns (j: nat)
    requires k <= |events| && exists i :: 0 <= i < k && !Safe(Run(events[..i]), events[i])
    ensures j < k && !Safe(Run(events[..j]), events[j])
    ensures forall i :: 0 <= i < j ==> Safe(Run(events[..i]), events[i])
  {
    hide Run, Safe;
    if exists i :: 0 <= i < k - 1 && !Safe(Run(events[..i]), events[i]) {
      j := FirstUnsafe(events, k - 1);
    } else {
      j := k - 1;
    }
  }

  /** A disposal frees everything held, and a landing after it leaves the engine empty and nothing freed twice
      exactly when it brings no new image, or is a canvas operation. */
  lemma LandingAfterDispose(s: Session, k: nat, r: Result)
    requires OwnInv(s) && k < |s.pending|
    ensures var d := DisposeStep(s);
            && d.live == {} && d.misfreed == 0 && d.claim.None? && d.pending == s.pending
            && (Step(d, Land(k, r)).live == {} && Step(d, Land(k, r)).misfreed == 0
                <==> !r.NewHandle? || s.pending[k].Canvas?)
  {
    hide DisposeStep, LandSwap, LandEdit, LandCanvas, LandPreview;
    DisposeKeepsOwned(s);
    DisposeKeepsPending(s);
    LandingOnNothing(DisposeStep(s), k, r);
  }

  lemma DisposeKeepsPending(s: Session)
    requires Shaped(s)
    ensures DisposeStep(s).pending == s.pending && DisposeStep(s).source == None && DisposeStep(s).proxy == None
  {
  }

  lemma LandingOnNothing(d: Session, k: nat, r: Result)
    requires OwnInv(d) && k < |d.pending| && d.source == None && d.live == {}
    ensures Step(d, Land(k, r)).live == {} && Step(d, Land(k, r)).misfreed == 0
            <==> !r.NewHandle? || d.pending[k].Canvas?
  {
  }

  // ---- sequential runs -------------------------------------------------------------------------

  /** Each begin is answered before anything else happens. */
  predicate Sequential(events: seq<Event>) {
    && (forall j :: 0 <= j < |events| && events[j].Land? ==> events[j].k == 0 && j > 0 && IsBegin(events[j - 1]))
    && (forall j :: 0 < j < |events| && IsBegin(events[j - 1]) ==> events[j].Land?)
  }

  /** What a begin leaves behind when nothing else was pending. */
  lemma BeginLeavesSafe(s: Session, e: Event, r: Result)
    requires Shaped(s) && s.pending == [] && IsBegin(e)
    ensures Safe(Step(s, e), Land(0, r)) && Step(Step(s, e), Land(0, r)).pending == []
  {
  }

  lemma OthersLeaveNothing(s: Session, e: Event)
    requires Shaped(s) && s.pending == [] && !IsBegin(e)
    ensures Step(s, e).pending == []
  {
  }

  lemma {:induction false} NothingElsePending(events: seq<Event>, k: nat)
    requires Sequential(events) && k <= |events| && (k > 0 ==> !IsBegin(events[k - 1]))
    ensures Run(events[..k]).pending == []
  {
    hide Step, Safe;
    if k > 0 {
      RunStep(events, k - 1);
      if events[k - 1].Land? {
        RunStep(events, k - 2);
        NothingElsePending(events, k - 2);
        BeginLeavesSafe(Run(events[..k - 2]), events[k - 2], events[k - 1].result);
      } else {
        NothingElsePending(events, k - 1);
        OthersLeaveNothing(Run(events[..k - 1]), events[k - 1]);
      }
    } else {
      assert events[..0] == [];
    }
  }

  lemma SequentialIsSafe(events: seq<Event>, j: nat)
    requires Sequential(events) && j < |events|
    ensures Safe(Run(events[..j]), events[j])
  {
    if events[j].Land? {
      hide Step, Safe, Run;
      RunStep(events, j - 1);
      NothingElsePending(events, j - 1);
      BeginLeavesSafe(Run(events[..j - 1]), events[j - 1], events[j].result);
    }
  }

  lemma SequentialIsOwned(events: seq<Event>, n: nat)
    requires Sequential(events) && n <= |events|
    ensures OwnInv(Run(events[..n]))
  {
    hide Sequential, Step, Safe, Run, OwnInv;
    forall j | 0 <= j < n ensures Safe(Run(events[..j]), events[j]) {
      SequentialIsSafe(events, j);
    }
    SafeRunIsOwned(events, n);
  }

  /** Over every sequential run the live images are exactly the distinct source, pattern and proxy held, none is
      freed twice, and after a disposal none is left and no claim stands. */
  lemma NoHandleLeaks(events: seq<Event>)
    requires Sequential(events)
    ensures var s := Run(events);
            && s.live == Held(s) && s.misfreed == 0
            && |s.live| == |SourceHandle(s)| + |PatternHandle(s)| + |ProxyHandle(s)|
            && (events != [] && events[|events| - 1] == Dispose ==> s.live == {} && s.claim.None?)
  {
    hide Sequential, Step, Run, OwnInv, Held, SourceHandle, PatternHandle, ProxyHandle;
    var n := |events|;
    SequentialIsOwned(events, n);
    assert events[..n] == events;
    if n > 0 && events[n - 1] == Dispose {
      RunStep(events, n - 1);
      SequentialIsOwned(events, n - 1);
      DisposeRuns(Run(events[..n - 1]));
    }
    OwnedCount(Run(events));
  }

  lemma DisposeRuns(s: Session)
    requires OwnInv(s)
    ensures Step(s, Dispose).live == {} && Step(s, Dispose).claim.None?
  {
    DisposeKeepsOwned(s);
  }

  lemma OwnedCount(s: Session)
    requires OwnInv(s)
    ensures s.live == Held(s) && s.misfreed == 0
    ensures |s.live| == |SourceHandle(s)| + |PatternHandle(s)| + |ProxyHandle(s)|
  {
    assert |SourceHandle(s) + PatternHandle(s)| == |SourceHandle(s)| + |PatternHandle(s)|;
  }

  // ---- runs that are not -----------------------------------------------------------------------

  /** An image ingested while a resize of the last one is awaited: that one's image is freed a second time, and the
      resized one is held by nobody. */
  lemma ResizeAcrossIngest() returns (events: seq<Event>)
    ensures var s := Run(events); s.misfreed == 1 && s.live == {1, 2} && Held(s) == {1} && s.pending == []
  {
    hide Run, Step;
    var a, d := Ingest(NewHandle(4, 4)), Land(0, NewHandle(2, 2));
    var src := Source(0, 4, 4, 0);
    var s1 := Session([src], Some(0), None, None, None, 0, [], {0}, 1, 0);
    var s2 := Session([src], Some(0), None, None, None, 0, [Swap(0)], {0}, 1, 0);
    var s3 := Session([src, Source(1, 4, 4, 0)], Some(1), None, None, None, 0, [Swap(0)], {1}, 2, 0);
    var s4 := Session([Source(2, 2, 2, 0), Source(1, 4, 4, 0)], Some(1), None, None, None, 1, [], {1, 2}, 3, 1);
    Ingested(s1, 4, 4);
    SwapBegun(s1, s2);
    IngestedOver(s2, s3);
    SwapLanded(s3, s4);
    RunNothing();
    events := RunThrough([], START, a, s1);
    events := RunThrough(events, s1, BeginSwap, s2);
    events := RunThrough(events, s2, a, s3);
    events := RunThrough(events, s3, d, s4);
  }

  lemma Ingested(s1: Session, width: nat, height: nat)
    requires s1 == Session([Source(0, width, height, 0)], Some(0), None, None, None, 0, [], {0}, 1, 0)
    ensures Step(START, Ingest(NewHandle(width, height))) == s1
  {
  }

  lemma SwapBegun(s1: Session, s2: Session)
    requires s1.source == Some(0) && s1.pending == [] && Shaped(s1) && s2 == s1.(pending := [Swap(0)])
    ensures Step(s1, BeginSwap) == s2
  {
  }

  lemma IngestedOver(s2: Session, s3: Session)
    requires s2 == Session([Source(0, 4, 4, 0)], Some(0), None, None, None, 0, [Swap(0)], {0}, 1, 0)
    requires s3 == Session([Source(0, 4, 4, 0), Source(1, 4, 4, 0)], Some(1), None, None, None, 0, [Swap(0)], {1}, 2, 0)
    ensures Step(s2, Ingest(NewHandle(4, 4))) == s3
  {
  }

  lemma SwapLanded(s3: Session, s4: Session)
    requires s3 == Session([Source(0, 4, 4, 0), Source(1, 4, 4, 0)], Some(1), None, None, None, 0, [Swap(0)], {1}, 2, 0)
    requires s4 == Session([Source(2, 2, 2, 0), Source(1, 4, 4, 0)], Some(1), None, None, None, 1, [], {1, 2}, 3, 1)
    ensures Step(s3, Land(0, NewHandle(2, 2))) == s4
  {
  }

  /** Two previews of different sizes awaited at once: the first proxy to land is overwritten by the second. */
  lemma OverlappingPreviews() returns (events: seq<Event>)
    ensures var s := Run(events); s.misfreed == 0 && s.live == {0, 1, 2} && Held(s) == {0, 2} && s.pending == []
  {
    hide Run, Step;
    var a, b, c := Ingest(NewHandle(90, 90)), BeginPreview(9, 9, false), BeginPreview(8, 8, false);
    var d := Land(0, NewHandle(9, 9));
    var src, p, q := Source(0, 90, 90, 0), Key(0, 0, 9, 9), Key(0, 0, 8, 8);
    var s1 := Session([src], Some(0), None, None, None, 0, [], {0}, 1, 0);
    var s2 := Session([src], Some(0), None, None, None, 0, [Resample(p, 0)], {0}, 1, 0);
    var s3 := Session([src], Some(0), None, None, None, 0, [Resample(p, 0), Resample(q, 0)], {0}, 1, 0);
    var s4 := Session([src], Some(0), None, Some(Proxy(1, p, 0)), None, 0, [Resample(q, 0)], {0, 1}, 2, 0);
    var s5 := Session([src], Some(0), None, Some(Proxy(2, q, 0)), None, 0, [], {0, 1, 2}, 3, 0);
    Ingested(s1, 90, 90);
    PreviewsBegun(s1, s2, s3);
    PreviewLanded(s3, s4);
    PreviewLandedOver(s4, s5);
    RunNothing();
    events := RunThrough([], START, a, s1);
    events := RunThrough(events, s1, b, s2);
    events := RunThrough(events, s2, c, s3);
    events := RunThrough(events, s3, d, s4);
    events := RunThrough(events, s4, d, s5);
  }

  lemma PreviewsBegun(s1: Session, s2: Session, s3: Session)
    requires s1 == Session([Source(0, 90, 90, 0)], Some(0), None, None, None, 0, [], {0}, 1, 0)
    requires s2 == s1.(pending := [Resample(Key(0, 0, 9, 9), 0)])
    requires s3 == s1.(pending := [Resample(Key(0, 0, 9, 9), 0), Resample(Key(0, 0, 8, 8), 0)])
    ensures Step(s1, BeginPreview(9, 9, false)) == s2 && Step(s2, BeginPreview(8, 8, false)) == s3
  {
  }

  lemma PreviewLanded(s3: Session, s4: Session)
    requires s3.source == Some(0) && s3.proxy.None? && s3.live == {0} && s3.next == 1 && Shaped(s3)
    requires s3.pending == [Resample(Key(0, 0, 9, 9), 0), Resample(Key(0, 0, 8, 8), 0)]
    requires s4 == s3.(pending := [Resample(Key(0, 0, 8, 8), 0)], proxy := Some(Proxy(1, Key(0, 0, 9, 9), 0)),
                       live := {0, 1}, next := 2)
    ensures Step(s3, Land(0, NewHandle(9, 9))) == s4
  {
  }

  lemma PreviewLandedOver(s4: Session, s5: Session)
    requires s4.source == Some(0) && s4.live == {0, 1} && s4.next == 2 && Shaped(s4)
    requires s4.pending == [Resample(Key(0, 0, 8, 8), 0)]
    requires s5 == s4.(pending := [], proxy := Some(Proxy(2, Key(0, 0, 8, 8), 0)), live := {0, 1, 2}, next := 3)
    ensures Step(s4, Land(0, NewHandle(9, 9))) == s5
  {
  }
}
