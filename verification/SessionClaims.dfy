/** The tile claim and the preview proxy follow the source: when an active claim has the source's extent, when its
    revision has counted every change, and when a proxy that fits its key shows the pixels of the moment. */
module SessionClaims {
  import opened Basics
  import opened SessionHandles

  // ---- the claim's extent ----------------------------------------------------------------------

  predicate ClaimCurrent(s: Session)
    requires Shaped(s)
  {
    s.claim.Some? ==> s.source.Some? && s.claim.value.width == Bound(s).width && s.claim.value.height == Bound(s).height
  }

  /** An edit that lands in place on the bound source, under a claim, reports the extent the source already has. */
  predicate Steady(s: Session, e: Event)
    requires Shaped(s)
  {
    e.Land? && e.k < |s.pending| ==> SteadyLanding(s, s.pending[e.k], e.result)
  }

  predicate SteadyLanding(s: Session, p: Pending, r: Result)
    requires Shaped(s)
  {
    r.SameHandle? && s.claim.Some? && s.source.Some? && p == Edit(s.source.value)
    ==> r.width == Bound(s).width && r.height == Bound(s).height
  }

  /** Whatever held of the claim still holds of it. */
  predicate ClaimKept(s: Session, t: Session)
    requires Shaped(s) && Shaped(t)
  {
    (ClaimCurrent(s) ==> ClaimCurrent(t)) && (ClaimCounts(s) ==> ClaimCounts(t))
  }

  lemma IngestKeepsClaim(s: Session, r: Result)
    requires Shaped(s)
    ensures ClaimKept(s, IngestStep(s, r))
  {
  }

  lemma InPlaceKeepsClaim(s: Session, flag: bool)
    requires Shaped(s)
    ensures ClaimKept(s, ReopenStep(s, flag)) && ClaimKept(s, RecompositeStep(s, flag)) && ClaimKept(s, ClaimStep(s))
  {
  }

  lemma PatternKeepsClaim(s: Session, accepted: bool)
    requires Shaped(s)
    ensures ClaimKept(s, DefinePatternStep(s, accepted))
  {
  }

  lemma DisposeKeepsClaim(s: Session)
    requires Shaped(s)
    ensures ClaimKept(s, DisposeStep(s))
  {
  }

  lemma BeginKeepsClaim(s: Session, e: Event)
    requires Shaped(s) && IsBegin(e)
    ensures ClaimKept(s, Step(s, e))
  {
  }

  lemma OtherStepKeepsClaim(s: Session, e: Event)
    requires Shaped(s) && !e.Land?
    ensures ClaimKept(s, Step(s, e))
  {
    hide ClaimKept, IngestStep, DefinePatternStep, ReopenStep, RecompositeStep, ClaimStep, DisposeStep,
      BeginPreviewStep;
    match e
    case Ingest(r) => IngestKeepsClaim(s, r);
    case Reopen(changed) => InPlaceKeepsClaim(s, changed);
    case DefinePattern(accepted) => PatternKeepsClaim(s, accepted);
    case Recomposite(folded) => InPlaceKeepsClaim(s, folded);
    case ClaimTiles => InPlaceKeepsClaim(s, false);
    case Dispose => DisposeKeepsClaim(s);
    case _ => BeginKeepsClaim(s, e);
  }

  lemma SwapKeepsClaim(s: Session, obj: nat, r: Result)
    requires Shaped(s) && ClaimCurrent(s) && obj < |s.objects|
    ensures ClaimCurrent(LandSwap(s, obj, r))
  {
  }

  lemma EditKeepsClaim(s: Session, obj: nat, r: Result)
    requires Shaped(s) && ClaimCurrent(s) && obj < |s.objects|
    ensures ClaimCurrent(LandEdit(s, obj, r)) <==> SteadyLanding(s, Edit(obj), r)
  {
  }

  lemma CanvasKeepsClaim(s: Session, obj: nat, r: Result)
    requires Shaped(s) && ClaimCurrent(s) && obj < |s.objects|
    ensures ClaimCurrent(LandCanvas(s, obj, r))
  {
  }

  lemma PreviewKeepsClaim(s: Session, key: Key, of: nat, r: Result)
    requires Shaped(s) && ClaimCurrent(s)
    ensures ClaimCurrent(LandPreview(s, key, of, r))
  {
  }

  lemma LandingKeepsClaim(s: Session, p: Pending, r: Result)
    requires Shaped(s) && ClaimCurrent(s) && (!p.Resample? ==> p.obj < |s.objects|)
    ensures ClaimCurrent(Landing(s, p, r)) <==> SteadyLanding(s, p, r)
  {
    hide LandSwap, LandEdit, LandCanvas, LandPreview, ClaimCurrent;
    match p
    case Swap(obj) => SwapKeepsClaim(s, obj, r);
    case Edit(obj) => EditKeepsClaim(s, obj, r);
    case Canvas(obj) => CanvasKeepsClaim(s, obj, r);
    case Resample(key, of) => PreviewKeepsClaim(s, key, of, r);
  }

  /** Taking a pending operation off the list changes nothing a claim looks at. */
  lemma DropKeepsClaim(s: Session, k: nat, r: Result)
    requires Shaped(s) && k < |s.pending|
    ensures Drop(s, k).objects == s.objects
    ensures ClaimCurrent(Drop(s, k)) <==> ClaimCurrent(s)
    ensures ClaimCounts(Drop(s, k)) <==> ClaimCounts(s)
    ensures SteadyLanding(Drop(s, k), s.pending[k], r) <==> SteadyLanding(s, s.pending[k], r)
  {
  }

  /** A step leaves the claim at the source's extent exactly when it is steady. */
  lemma StepKeepsClaimCurrent(s: Session, e: Event)
    requires Shaped(s) && ClaimCurrent(s)
    ensures ClaimCurrent(Step(s, e)) <==> Steady(s, e)
  {
    hide Landing, Drop, ClaimCurrent, ClaimCounts, SteadyLanding;
    if e.Land? {
      if e.k < |s.pending| {
        DropKeepsClaim(s, e.k, e.result);
        LandingKeepsClaim(Drop(s, e.k), s.pending[e.k], e.result);
      }
    } else {
      OtherStepKeepsClaim(s, e);
    }
  }

  /** In every run an active tile claim has the source's extent throughout if and only if every commit that lands in
      place under it reports that extent. */
  lemma ClaimFollowsSource(events: seq<Event>)
    ensures (forall j :: 0 <= j <= |events| ==> ClaimCurrent(Run(events[..j])))
            <==> (forall j :: 0 <= j < |events| ==> Steady(Run(events[..j]), events[j]))
  {
    hide Step, Run, ClaimCurrent, Steady;
    if forall j :: 0 <= j < |events| ==> Steady(Run(events[..j]), events[j]) {
      forall j | 0 <= j <= |events| ensures ClaimCurrent(Run(events[..j])) {
        SteadyRun(events, j);
      }
    } else {
      var j :| 0 <= j < |events| && !Steady(Run(events[..j]), events[j]);
      if ClaimCurrent(Run(events[..j])) {
        RunStep(events, j);
        StepKeepsClaimCurrent(Run(events[..j]), events[j]);
        assert !ClaimCurrent(Run(events[..j + 1]));
      }
    }
  }

  lemma {:induction false} SteadyRun(events: seq<Event>, k: nat)
    requires k <= |events| && forall j :: 0 <= j < k ==> Steady(Run(events[..j]), events[j])
    ensures ClaimCurrent(Run(events[..k]))
  {
    hide Step, ClaimCurrent, Steady;
    if k == 0 {
      StartClaim();
    } else {
      SteadyRun(events, k - 1);
      RunStep(events, k - 1);
      StepKeepsClaimCurrent(Run(events[..k - 1]), events[k - 1]);
    }
  }

  lemma StartClaim()
    ensures ClaimCurrent(START) && ClaimCounts(START) && Fresh(START) && KeysKnown(START)
  {
  }

  /** A run that leaves a claim behind: an image of 4 by 4 claimed, then edited in place to 8 by 8. */
  lemma ClaimLeftBehind() returns (events: seq<Event>)
    ensures var s := Run(events);
            && s.claim == Some(Claim(4, 4, 2, 0)) && s.source == Some(0) && Bound(s) == Source(0, 8, 8, 1)
  {
    hide Run, Step;
    var a, d := Ingest(NewHandle(4, 4)), Land(0, SameHandle(8, 8));
    var s1 := Session([Source(0, 4, 4, 0)], Some(0), None, None, None, 0, [], {0}, 1, 0);
    var s2 := s1.(claim := Some(Claim(4, 4, 1, 0)));
    var s3 := s2.(pending := [Edit(0)]);
    var s4 := Session([Source(0, 8, 8, 1)], Some(0), None, None, Some(Claim(4, 4, 2, 0)), 1, [], {0}, 1, 0);
    ClaimThenEdit(s1, s2, s3);
    EditGrows(s3, s4);
    RunNothing();
    events := RunThrough([], START, a, s1);
    events := RunThrough(events, s1, ClaimTiles, s2);
    events := RunThrough(events, s2, BeginEdit, s3);
    events := RunThrough(events, s3, d, s4);
  }

  lemma ClaimThenEdit(s1: Session, s2: Session, s3: Session)
    requires s1 == Session([Source(0, 4, 4, 0)], Some(0), None, None, None, 0, [], {0}, 1, 0)
    requires s2 == s1.(claim := Some(Claim(4, 4, 1, 0))) && s3 == s2.(pending := [Edit(0)])
    ensures Step(START, Ingest(NewHandle(4, 4))) == s1 && Step(s1, ClaimTiles) == s2 && Step(s2, BeginEdit) == s3
  {
    hide LandSwap, LandEdit, LandCanvas, LandPreview;
  }

  lemma EditGrows(s3: Session, s4: Session)
    requires s3 == Session([Source(0, 4, 4, 0)], Some(0), None, None, Some(Claim(4, 4, 1, 0)), 0, [Edit(0)], {0}, 1, 0)
    requires s4 == Session([Source(0, 8, 8, 1)], Some(0), None, None, Some(Claim(4, 4, 2, 0)), 1, [], {0}, 1, 0)
    ensures Step(s3, Land(0, SameHandle(8, 8))) == s4
  {
  }

  // ---- the claim's revision --------------------------------------------------------------------

  /** The claim's revision has moved on at least once for every change of the source's pixels since it was made. */
  predicate ClaimCounts(s: Session)
    requires Shaped(s)
  {
    s.claim.Some? ==>
      s.source.Some? && s.claim.value.revision >= 1
        && Bound(s).version <= s.claim.value.since + (s.claim.value.revision - 1)
  }

  lemma StepKeepsClaimCounts(s: Session, e: Event)
    requires Shaped(s) && ClaimCounts(s)
    ensures ClaimCounts(Step(s, e))
  {
    hide Landing, Drop, ClaimCurrent, ClaimCounts, SteadyLanding;
    if e.Land? {
      if e.k < |s.pending| {
        DropKeepsClaim(s, e.k, e.result);
        LandingCounts(Drop(s, e.k), s.pending[e.k], e.result);
      }
    } else {
      OtherStepKeepsClaim(s, e);
    }
  }

  lemma LandingCounts(s: Session, p: Pending, r: Result)
    requires Shaped(s) && ClaimCounts(s) && (!p.Resample? ==> p.obj < |s.objects|)
    ensures ClaimCounts(Landing(s, p, r))
  {
    hide LandSwap, LandEdit, LandCanvas, LandPreview, ClaimCounts;
    match p
    case Swap(obj) => SwapCounts(s, obj, r);
    case Edit(obj) => EditCounts(s, obj, r);
    case Canvas(obj) => CanvasCounts(s, obj, r);
    case Resample(key, of) => PreviewCounts(s, key, of, r);
  }

  lemma SwapCounts(s: Session, obj: nat, r: Result)
    requires Shaped(s) && ClaimCounts(s) && obj < |s.objects|
    ensures ClaimCounts(LandSwap(s, obj, r))
  {
  }

  lemma EditCounts(s: Session, obj: nat, r: Result)
    requires Shaped(s) && ClaimCounts(s) && obj < |s.objects|
    ensures ClaimCounts(LandEdit(s, obj, r))
  {
  }

  lemma CanvasCounts(s: Session, obj: nat, r: Result)
    requires Shaped(s) && ClaimCounts(s) && obj < |s.objects|
    ensures ClaimCounts(LandCanvas(s, obj, r))
  {
  }

  lemma PreviewCounts(s: Session, key: Key, of: nat, r: Result)
    requires Shaped(s) && ClaimCounts(s)
    ensures ClaimCounts(LandPreview(s, key, of, r))
  {
  }

  /** In every run, late landings included, no change of the source's pixels goes without a new claim revision. */
  lemma {:induction false} EveryChangeIsCounted(events: seq<Event>)
    ensures ClaimCounts(Run(events))
  {
    hide Step, ClaimCounts;
    if events == [] {
      StartClaim();
    } else {
      EveryChangeIsCounted(events[..|events| - 1]);
      StepKeepsClaimCounts(Run(events[..|events| - 1]), events[|events| - 1]);
    }
  }

  // ---- the proxy -------------------------------------------------------------------------------

  /** A copy made under the key of the moment was made from the pixels of the moment. */
  predicate CopyFresh(s: Session, key: Key, of: nat)
    requires Shaped(s)
  {
    CurrentKey(s, key) ==> of == Bound(s).version
  }

  /** The proxy and every resample still awaited. */
  predicate Fresh(s: Session)
    requires Shaped(s)
  {
    && (s.proxy.Some? ==> CopyFresh(s, s.proxy.value.key, s.proxy.value.of))
    && (forall k :: 0 <= k < |s.pending| && s.pending[k].Resample? ==> CopyFresh(s, s.pending[k].key, s.pending[k].of))
  }

  predicate KeyKnown(s: Session, key: Key)
    requires Shaped(s)
  {
    key.handle < s.next && (s.source.Some? && key.handle == Bound(s).handle ==> key.edits <= s.edits)
  }

  /** No key is of an image still to come, or of edits still to come. */
  predicate KeysKnown(s: Session)
    requires Shaped(s)
  {
    && (s.source.Some? ==> Bound(s).handle < s.next)
    && (s.proxy.Some? ==> KeyKnown(s, s.proxy.value.key))
    && (forall k :: 0 <= k < |s.pending| && s.pending[k].Resample? ==> KeyKnown(s, s.pending[k].key))
  }

  /** Layers reopened with changed pixels find no copy under the key of the moment. */
  predicate Clean(s: Session, e: Event)
    requires Shaped(s)
  {
    e == Reopen(true) ==>
      && (s.proxy.Some? ==> !CurrentKey(s, s.proxy.value.key))
      && (forall k :: 0 <= k < |s.pending| && s.pending[k].Resample? ==> !CurrentKey(s, s.pending[k].key))
  }

  lemma IngestKeepsFresh(s: Session, r: Result)
    requires Shaped(s) && Fresh(s) && KeysKnown(s)
    ensures Fresh(IngestStep(s, r)) && KeysKnown(IngestStep(s, r))
  {
  }

  lemma ReopenKeepsFresh(s: Session, changed: bool)
    requires Shaped(s) && Fresh(s) && KeysKnown(s)
    ensures KeysKnown(ReopenStep(s, changed)) && (Fresh(ReopenStep(s, changed)) <==> Clean(s, Reopen(changed)))
  {
  }

  lemma PatternKeepsFresh(s: Session, accepted: bool)
    requires Shaped(s) && Fresh(s) && KeysKnown(s)
    ensures Fresh(DefinePatternStep(s, accepted)) && KeysKnown(DefinePatternStep(s, accepted))
  {
  }

  lemma RecompositeKeepsFresh(s: Session, folded: bool)
    requires Shaped(s) && Fresh(s) && KeysKnown(s)
    ensures Fresh(RecompositeStep(s, folded)) && KeysKnown(RecompositeStep(s, folded))
  {
  }

  lemma ClaimKeepsFresh(s: Session)
    requires Shaped(s) && Fresh(s) && KeysKnown(s)
    ensures Fresh(ClaimStep(s)) && KeysKnown(ClaimStep(s))
  {
  }

  lemma DisposeKeepsFresh(s: Session)
    requires Shaped(s) && Fresh(s) && KeysKnown(s)
    ensures Fresh(DisposeStep(s)) && KeysKnown(DisposeStep(s))
  {
  }

  lemma BeginKeepsFresh(s: Session, e: Event)
    requires Shaped(s) && Fresh(s) && KeysKnown(s) && IsBegin(e)
    ensures Fresh(Step(s, e)) && KeysKnown(Step(s, e))
  {
  }

  lemma DropKeepsFresh(s: Session, k: nat)
    requires Shaped(s) && Fresh(s) && KeysKnown(s) && k < |s.pending|
    ensures Shaped(Drop(s, k)) && Fresh(Drop(s, k)) && KeysKnown(Drop(s, k))
  {
  }

  lemma SwapLandsFresh(s: Session, obj: nat, r: Result)
    requires Shaped(s) && Fresh(s) && KeysKnown(s) && obj < |s.objects|
    ensures Fresh(LandSwap(s, obj, r)) && KeysKnown(LandSwap(s, obj, r))
  {
  }

  lemma EditLandsFresh(s: Session, obj: nat, r: Result)
    requires Shaped(s) && Fresh(s) && KeysKnown(s) && obj < |s.objects|
    ensures Fresh(LandEdit(s, obj, r)) && KeysKnown(LandEdit(s, obj, r))
  {
    hide LandEdit, Fresh, KeysKnown;
    match r
    case Failed => EditFails(s, obj);
    case SameHandle(w, h) => EditInPlaceFresh(s, obj, w, h);
    case NewHandle(w, h) => EditReplacesFresh(s, obj, w, h);
  }

  lemma EditFails(s: Session, obj: nat)
    requires obj < |s.objects|
    ensures LandEdit(s, obj, Failed) == s
  {
  }

  lemma EditInPlaceFresh(s: Session, obj: nat, w: nat, h: nat)
    requires Shaped(s) && Fresh(s) && KeysKnown(s) && obj < |s.objects|
    ensures Fresh(LandEdit(s, obj, SameHandle(w, h))) && KeysKnown(LandEdit(s, obj, SameHandle(w, h)))
  {
  }

  lemma EditReplacesFresh(s: Session, obj: nat, w: nat, h: nat)
    requires Shaped(s) && Fresh(s) && KeysKnown(s) && obj < |s.objects|
    ensures Fresh(LandEdit(s, obj, NewHandle(w, h))) && KeysKnown(LandEdit(s, obj, NewHandle(w, h)))
  {
  }

  lemma CanvasLandsFresh(s: Session, obj: nat, r: Result)
    requires Shaped(s) && Fresh(s) && KeysKnown(s) && obj < |s.objects|
    ensures Fresh(LandCanvas(s, obj, r)) && KeysKnown(LandCanvas(s, obj, r))
  {
  }

  lemma PreviewLandsFresh(s: Session, key: Key, of: nat, r: Result)
    requires Shaped(s) && Fresh(s) && KeysKnown(s) && CopyFresh(s, key, of) && KeyKnown(s, key)
    ensures Fresh(LandPreview(s, key, of, r)) && KeysKnown(LandPreview(s, key, of, r))
  {
  }

  /** A step leaves every copy fresh exactly when it is clean. */
  lemma StepKeepsFresh(s: Session, e: Event)
    requires Shaped(s) && Fresh(s) && KeysKnown(s)
    ensures KeysKnown(Step(s, e)) && (Fresh(Step(s, e)) <==> Clean(s, e))
  {
    hide Fresh, KeysKnown, LandSwap, LandEdit, LandCanvas, LandPreview, CopyFresh, KeyKnown, CurrentKey,
      IngestStep, DefinePatternStep, ReopenStep, RecompositeStep, ClaimStep, DisposeStep, BeginPreviewStep;
    match e
    case Ingest(r) => IngestKeepsFresh(s, r);
    case Reopen(changed) => ReopenKeepsFresh(s, changed);
    case DefinePattern(accepted) => PatternKeepsFresh(s, accepted);
    case Recomposite(folded) => RecompositeKeepsFresh(s, folded);
    case ClaimTiles => ClaimKeepsFresh(s);
    case Dispose => DisposeKeepsFresh(s);
    case Land(k, r) =>
      if k < |s.pending| {
        DropKeepsFresh(s, k);
        match s.pending[k]
        case Swap(obj) => SwapLandsFresh(Drop(s, k), obj, r);
        case Edit(obj) => EditLandsFresh(Drop(s, k), obj, r);
        case Canvas(obj) => CanvasLandsFresh(Drop(s, k), obj, r);
        case Resample(key, of) =>
          PendingIsFresh(s, k);
          PreviewLandsFresh(Drop(s, k), key, of, r);
      }
    case _ => BeginKeepsFresh(s, e);
  }

  lemma PendingIsFresh(s: Session, k: nat)
    requires Shaped(s) && Fresh(s) && KeysKnown(s) && k < |s.pending| && s.pending[k].Resample?
    ensures Shaped(Drop(s, k))
    ensures CopyFresh(Drop(s, k), s.pending[k].key, s.pending[k].of) && KeyKnown(Drop(s, k), s.pending[k].key)
  {
  }

  lemma {:induction false} CleanRun(events: seq<Event>, k: nat)
    requires k <= |events| && forall j :: 0 <= j < k ==> Clean(Run(events[..j]), events[j])
    ensures Fresh(Run(events[..k])) && KeysKnown(Run(events[..k]))
  {
    hide Step, Fresh, KeysKnown, Clean;
    if k == 0 {
      StartClaim();
    } else {
      CleanRun(events, k - 1);
      RunStep(events, k - 1);
      StepKeepsFresh(Run(events[..k - 1]), events[k - 1]);
    }
  }

  /** In every run, awaited resamples included, a proxy that fits the key of the moment shows the source's pixels of
      the moment throughout, if and only if no reopening changes the pixels while a copy fits it. */
  lemma ReusedProxyIsFresh(events: seq<Event>)
    ensures (forall j :: 0 <= j <= |events| ==> Fresh(Run(events[..j])))
            <==> (forall j :: 0 <= j < |events| ==> Clean(Run(events[..j]), events[j]))
  {
    hide Step, Run, Fresh, KeysKnown, Clean;
    if forall j :: 0 <= j < |events| ==> Clean(Run(events[..j]), events[j]) {
      forall j | 0 <= j <= |events| ensures Fresh(Run(events[..j])) {
        CleanRun(events, j);
      }
    } else {
      var j := FirstUnclean(events, |events|);
      CleanRun(events, j);
      RunStep(events, j);
      StepKeepsFresh(Run(events[..j]), events[j]);
      assert !Fresh(Run(events[..j + 1]));
    }
  }

  lemma {:induction false} FirstUnclean(events: seq<Event>, k: nat) returns (j: nat)
    requires k <= |events| && exists i :: 0 <= i < k && !Clean(Run(events[..i]), events[i])
    ensures j < k && !Clean(Run(events[..j]), events[j])
    ensures forall i :: 0 <= i < j ==> Clean(Run(events[..i]), events[i])
  {
    hide Run, Clean;
    if exists i :: 0 <= i < k - 1 && !Clean(Run(events[..i]), events[i]) {
      j := FirstUnclean(events, k - 1);
    } else {
      j := k - 1;
    }
  }
}
