/** What each event of the session means, said apart from the step functions: the extents objects are given, what is
    counted as an edit, what becomes of the claim, and which copy a preview runs on. */
module SessionMeaning {
  import opened Basics
  import opened SessionHandles

  /** The width and height an event reports for object o: by the ingest that makes it, or by a landing on it that
      succeeds. */
  function Reported(s: Session, e: Event, o: nat): Option<(nat, nat)> {
    match e
    case Ingest(NewHandle(w, h)) => if o == |s.objects| then Some((w, h)) else None
    case Land(k, NewHandle(w, h)) =>
      if k < |s.pending| && s.pending[k] in [Swap(o), Edit(o)] then Some((w, h)) else None
    case Land(k, SameHandle(w, h)) =>
      if k < |s.pending| && s.pending[k] in [Canvas(o), Edit(o)] then Some((w, h)) else None
    case _ => None
  }

  /** An object a landing reports on has that extent afterwards, under the image the engine made for it or, edited in
      place, the one it had; every other object keeps image and extent, and the landing binds none. */
  lemma LandingSetsExtent(s: Session, k: nat, r: Result, o: nat)
    requires Shaped(s) && o < |s.objects|
    ensures var t := Step(s, Land(k, r));
            && |t.objects| == |s.objects| && t.source == s.source
            && match Reported(s, Land(k, r), o)
               case Some((w, h)) =>
                 && t.objects[o].width == w && t.objects[o].height == h
                 && t.objects[o].handle == if r.NewHandle? then s.next else s.objects[o].handle
               case None => t.objects[o] == s.objects[o]
  {
    if k < |s.pending| {
      var d := Drop(s, k);
      assert d.objects == s.objects && d.source == s.source && d.next == s.next;
      match s.pending[k]
      case Swap(obj) =>
      case Edit(obj) =>
      case Canvas(obj) =>
      case Resample(key, of) =>
    }
  }

  /** Of the other events only an ingest makes and binds an object, at the extent it reports, and only a disposal lets
      the bound one go; image and extent of the objects there are stay. */
  lemma OtherStepsKeepExtents(s: Session, e: Event, o: nat)
    requires Shaped(s) && !e.Land? && o < |Step(s, e).objects|
    ensures var t := Step(s, e);
            && |t.objects| == |s.objects| + (if e.Ingest? && e.r.NewHandle? then 1 else 0)
            && (t.source == if e.Ingest? && e.r.NewHandle? then Some(|s.objects|)
                            else if e.Dispose? then None else s.source)
            && match Reported(s, e, o)
               case Some((w, h)) => o == |s.objects| && t.objects[o] == Source(s.next, w, h, 0)
               case None => o < |s.objects| && t.objects[o].(version := 0) == s.objects[o].(version := 0)
  {
    hide FreeSource, FreeProxy, DefinePatternStep;
    match e
    case Ingest(r) => FreeingKeepsObjects(Allocate(s));
    case DefinePattern(accepted) => PatternKeepsObjects(s, accepted);
    case Dispose =>
      FreeingKeepsObjects((if s.pattern.Some? then Free(ReleaseTiles(s), s.pattern.value)
                           else ReleaseTiles(s)).(pattern := None));
    case BeginPreview(w, h, masked) => FreeingProxyKeepsObjects(s);
    case _ =>
  }

  lemma FreeingKeepsObjects(s: Session)
    requires Shaped(s)
    ensures FreeSource(s).objects == s.objects && FreeSource(s).source.None? && FreeSource(s).next == s.next
  {
  }

  lemma FreeingProxyKeepsObjects(s: Session)
    ensures FreeProxy(s).objects == s.objects && FreeProxy(s).source == s.source
  {
  }

  lemma PatternKeepsObjects(s: Session, accepted: bool)
    ensures DefinePatternStep(s, accepted).objects == s.objects && DefinePatternStep(s, accepted).source == s.source
  {
  }

  /** In every run each object has, width as width and height as height, the extent last reported for it. */
  lemma {:induction false} ExtentIsLastReported(events: seq<Event>, o: nat) returns (j: nat)
    requires o < |Run(events).objects|
    ensures j < |events|
    ensures var src := Run(events).objects[o]; Reported(Run(events[..j]), events[j], o) == Some((src.width, src.height))
    ensures forall i :: j < i < |events| ==> Reported(Run(events[..i]), events[i], o).None?
  {
    hide Step, Reported;
    RunNothing();
    var n := |events| - 1;
    var before, e := events[..n], events[n];
    assert Run(events) == Step(Run(before), e);
    if e.Land? {
      LandingSetsObjects(Run(before), e.k, e.result);
      LandingSetsExtent(Run(before), e.k, e.result, o);
    } else {
      OtherStepsKeepExtents(Run(before), e, o);
    }
    if Reported(Run(before), e, o).Some? {
      j := n;
    } else {
      j := ExtentIsLastReported(before, o);
      assert forall i :: 0 <= i < n ==> before[..i] == events[..i];
    }
  }

  lemma LandingSetsObjects(s: Session, k: nat, r: Result)
    requires Shaped(s)
    ensures |Step(s, Land(k, r)).objects| == |s.objects|
  {
  }

  /** The step adopts a new image for the session, or lets its image go. */
  predicate Renews(e: Event) {
    e.Dispose? || (e.Ingest? && e.r.NewHandle?)
  }

  /** An edit of the session's own takes effect: a fold into a bound image, or a landing that succeeds. */
  predicate Edits(s: Session, e: Event) {
    match e
    case Recomposite(folded) => folded && s.source.Some?
    case Land(k, NewHandle(_, _)) => k < |s.pending| && (s.pending[k].Swap? || s.pending[k].Edit?)
    case Land(k, SameHandle(_, _)) => k < |s.pending| && (s.pending[k].Canvas? || s.pending[k].Edit?)
    case _ => false
  }

  /** An edit under the claim: the same image keeps handle and claim, which only moves on a revision. */
  predicate Bumps(s: Session, e: Event) {
    match e
    case Reopen(_) => s.source.Some?
    case Recomposite(_) => Edits(s, e)
    case Land(k, SameHandle(_, _)) => k < |s.pending| && s.pending[k].Edit?
    case _ => false
  }

  /** Edits are counted one by one from the image's arrival on. A claim starts at revision 1, goes with the image or
      the extent it stands on, and otherwise moves on by one at each change in place. */
  lemma StepCounts(s: Session, e: Event)
    requires Shaped(s)
    ensures var t := Step(s, e);
            && t.edits == (if Renews(e) then 0 else if Edits(s, e) then s.edits + 1 else s.edits)
            && if e.ClaimTiles? && s.source.Some? then
                 t.claim == Some(Claim(Bound(s).width, Bound(s).height, 1, Bound(s).version))
               else if Renews(e) || (Edits(s, e) && !Bumps(s, e)) then t.claim == None
               else if Bumps(s, e) && s.claim.Some? then
                 t.claim == Some(s.claim.value.(revision := s.claim.value.revision + 1))
               else t.claim == s.claim
  {
    hide FreeSource, FreeProxy, DefinePatternStep;
    match e
    case Ingest(r) => FreeingLetsGo(Allocate(s));
    case DefinePattern(accepted) => PatternKeepsClaim(s, accepted);
    case Dispose =>
      FreeingLetsGo((if s.pattern.Some? then Free(ReleaseTiles(s), s.pattern.value)
                     else ReleaseTiles(s)).(pattern := None));
    case BeginPreview(w, h, masked) => FreeingProxyKeepsClaim(s);
    case Land(k, r) => LandingCounts(s, k, r);
    case _ =>
  }

  lemma FreeingLetsGo(s: Session)
    requires Shaped(s)
    ensures FreeSource(s).claim == None && FreeSource(s).edits == 0
  {
  }

  lemma FreeingProxyKeepsClaim(s: Session)
    ensures FreeProxy(s).claim == s.claim && FreeProxy(s).edits == s.edits
  {
  }

  lemma PatternKeepsClaim(s: Session, accepted: bool)
    ensures DefinePatternStep(s, accepted).claim == s.claim && DefinePatternStep(s, accepted).edits == s.edits
  {
  }

  lemma LandingCounts(s: Session, k: nat, r: Result)
    requires Shaped(s)
    ensures var t, e := Step(s, Land(k, r)), Land(k, r);
            && t.edits == (if Edits(s, e) then s.edits + 1 else s.edits)
            && t.claim == (if Edits(s, e) && !Bumps(s, e) then None
                           else if Bumps(s, e) && s.claim.Some? then
                             Some(s.claim.value.(revision := s.claim.value.revision + 1))
                           else s.claim)
  {
  }

  /** Which copy a preview runs on: none without a source, under a mask or at full size; else the proxy at hand if it
      is a copy of that image, edits and size, and otherwise that proxy goes and one new resample is awaited. */
  lemma PreviewMeans(s: Session, w: nat, h: nat, masked: bool)
    requires Shaped(s)
    ensures var t := Step(s, BeginPreview(w, h, masked));
            if s.source.None? || masked || (Bound(s).width == w && Bound(s).height == h) then t == s
            else
              var key := Key(Bound(s).handle, s.edits, w, h);
              && t.objects == s.objects && t.source == s.source && t.claim == s.claim && t.edits == s.edits
              && if s.proxy.Some? && s.proxy.value.key == key then t.proxy == s.proxy && t.pending == s.pending
                 else t.proxy.None? && t.pending == s.pending + [Resample(key, Bound(s).version)]
  {
  }
}
