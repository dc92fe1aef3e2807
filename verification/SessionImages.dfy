/** The session's image bookkeeping as objects. Each method takes its step of SessionHandles, keeps the engine's live
    images exactly the held ones, and says what its caller sees; a landing does so exactly when it is safe. */
module SessionImages {
  import opened Basics
  import opened SessionHandles
  import opened SessionOwnership

  class ImageEngine {
    var live: set<nat>
    var next: nat
    var misfreed: nat

    constructor ()
      ensures live == {} && next == 0 && misfreed == 0
    {
      live, next, misfreed := {}, 0, 0;
    }

    method NewImage() returns (handle: nat)
      modifies this
      ensures handle == old(next) && next == old(next) + 1 && live == old(live) + {handle} && misfreed == old(misfreed)
    {
      handle := next;
      live, next := live + {next}, next + 1;
    }

    method FreeImage(handle: nat)
      modifies this
      ensures next == old(next)
      ensures if handle in old(live) then live == old(live) - {handle} && misfreed == old(misfreed)
              else live == old(live) && misfreed == old(misfreed) + 1
    {
      if handle in live {
        live := live - {handle};
      } else {
        misfreed := misfreed + 1;
      }
    }
  }

  class ImageSession {
    const engine: ImageEngine
    var objects: seq<Source>
    var source: Option<nat>
    var patternHandle: Option<nat>
    var proxy: Option<Proxy>
    var tileClaim: Option<Claim>
    var pixelEdits: nat
    var pending: seq<Pending>

    ghost function State(): Session
      reads this, engine
    {
      Session(objects, source, patternHandle, proxy, tileClaim, pixelEdits, pending, engine.live, engine.next,
              engine.misfreed)
    }

    /** The session owns exactly the engine's images, each once, and none was freed twice. */
    ghost predicate Valid()
      reads this, engine
    {
      OwnInv(State())
    }

    constructor (e: ImageEngine)
      requires e.live == {} && e.next == 0 && e.misfreed == 0
      ensures engine == e && State() == START && Valid()
    {
      engine, objects, source, patternHandle, proxy := e, [], None, None, None;
      tileClaim, pixelEdits, pending := None, 0, [];
    }

    method Release()
      modifies this`tileClaim
      ensures State() == ReleaseTiles(old(State()))
    {
      tileClaim := None;
    }

    method Bump()
      modifies this`tileClaim
      ensures State() == BumpTiles(old(State()))
    {
      if tileClaim.Some? {
        tileClaim := Some(tileClaim.value.(revision := tileClaim.value.revision + 1));
      }
    }

    /** From a valid session only the proxy's image goes. */
    method DropProxy()
      modifies this`proxy, engine
      ensures State() == FreeProxy(old(State())) && proxy.None?
      ensures old(Valid()) ==> Valid() && engine.live == old(engine.live - ProxyHandle(State()))
    {
      if old(Valid()) { FreeProxyKeepsOwned(old(State())); }
      hide OwnInv;
      if proxy.Some? {
        engine.FreeImage(proxy.value.handle);
      }
      proxy := None;
    }

    /** Lets go of the source, its claim and its proxy; from a valid session only the pattern's image stays. */
    method DropSource()
      requires Shaped(State())
      modifies this, engine
      ensures State() == FreeSource(old(State())) && source.None? && proxy.None? && tileClaim.None?
      ensures old(Valid()) ==> Valid() && engine.live == PatternHandle(State())
    {
      if old(Valid()) { FreeSourceKeepsOwned(old(State())); }
      hide OwnInv;
      Release();
      if source.Some? {
        engine.FreeImage(objects[source.value].handle);
      }
      source, pixelEdits := None, 0;
      DropProxy();
    }

    method DecodeInto(r: Result)
      requires Valid()
      modifies this, engine
      ensures Valid() && State() == Step(old(State()), Ingest(r))
      ensures !r.NewHandle? ==> State() == old(State())
      ensures r.NewHandle? ==> source.Some? && Bound(State()) == Source(old(engine.next), r.width, r.height, 0)
                               && proxy.None? && tileClaim.None?
                               && engine.live == PatternHandle(State()) + {old(engine.next)}
    {
      IngestKeepsOwned(State(), r);
      if r.NewHandle? { IngestOwns(State(), r); }
      hide OwnInv, PatternHandle;
      if !r.NewHandle? {
        return;
      }
      var handle := engine.NewImage();
      DropSource();
      objects := objects + [Source(handle, r.width, r.height, 0)];
      source := Some(|objects| - 1);
    }

    method ReopenLayers(changed: bool)
      requires Valid()
      modifies this
      ensures Valid() && State() == Step(old(State()), Reopen(changed))
      ensures engine.live == Held(State()) && engine.misfreed == 0
    {
      hide OwnInv, Held;
      OwnedHolds(State());
      InPlaceKeepsOwned(State(), changed);
      OwnedHolds(ReopenStep(State(), changed));
      if source.None? {
        return;
      }
      Bump();
      if changed {
        var src := objects[source.value];
        objects := objects[source.value := src.(version := src.version + 1)];
      }
    }

    method SetPattern(accepted: bool)
      requires Valid()
      modifies this, engine
      ensures Valid() && State() == Step(old(State()), DefinePattern(accepted))
      ensures source.Some? && accepted ==> patternHandle == Some(old(engine.next))
                                           && engine.live == old(engine.live - PatternHandle(State()))
                                                             + {old(engine.next)}
    {
      PatternKeepsOwned(State(), accepted);
      if source.None? || !accepted {
        return;
      }
      var handle := engine.NewImage();
      if patternHandle.Some? {
        engine.FreeImage(patternHandle.value);
      }
      patternHandle := Some(handle);
    }

    method Fold(folded: bool)
      requires Valid()
      modifies this
      ensures Valid() && State() == Step(old(State()), Recomposite(folded))
      ensures engine.live == Held(State()) && engine.misfreed == 0
    {
      hide OwnInv, Held;
      OwnedHolds(State());
      InPlaceKeepsOwned(State(), folded);
      OwnedHolds(RecompositeStep(State(), folded));
      if source.None? || !folded {
        return;
      }
      Bump();
      var src := objects[source.value];
      objects := objects[source.value := src.(version := src.version + 1)];
      pixelEdits := pixelEdits + 1;
    }

    method Claim()
      requires Valid()
      modifies this
      ensures Valid() && State() == Step(old(State()), ClaimTiles)
      ensures source.Some? ==> tileClaim.Some? && tileClaim.value.width == Bound(State()).width
                               && tileClaim.value.height == Bound(State()).height
    {
      if source.None? {
        return;
      }
      Release();
      var src := objects[source.value];
      tileClaim := Some(SessionHandles.Claim(src.width, src.height, 1, src.version));
    }

    method Close()
      requires Valid()
      modifies this, engine
      ensures Valid() && State() == Step(old(State()), Dispose)
      ensures engine.live == {} && engine.misfreed == 0 && tileClaim.None? && source.None?
    {
      hide OwnInv;
      OwnedHolds(State());
      DisposeKeepsOwned(State());
      OwnedHolds(DisposeStep(State()));
      Release();
      if patternHandle.Some? {
        engine.FreeImage(patternHandle.value);
      }
      patternHandle := None;
      DropSource();
    }

    // ---- awaited operations --------------------------------------------------------------------

    /** A resize, crop, commit or canvas operation asks the engine and awaits it. */
    method BeginOn(e: Event)
      requires Valid() && (e.BeginSwap? || e.BeginEdit? || e.BeginCanvas?)
      modifies this`pending
      ensures Valid() && State() == Step(old(State()), e)
    {
      if source.Some? {
        var obj := source.value;
        pending := pending + [if e.BeginSwap? then Swap(obj) else if e.BeginEdit? then Edit(obj) else Canvas(obj)];
      }
    }

    /** A preview below full size finds its proxy, or frees the one there and awaits a resample. */
    method PreviewNow(w: nat, h: nat, masked: bool)
      requires Valid()
      modifies this, engine
      ensures Valid() && State() == Step(old(State()), BeginPreview(w, h, masked))
      ensures |pending| > |old(pending)| ==> proxy.None?
    {
      if source.None? {
        return;
      }
      var src := objects[source.value];
      if !(masked || (w == src.width && h == src.height)) {
        var key := Key(src.handle, pixelEdits, w, h);
        if proxy.None? || proxy.value.key != key {
          DropProxy();
          pending := pending + [Resample(key, src.version)];
        }
      }
    }

    /** Adopts a commit's image for the object it began with. From a session that owns its images and the one just
        made, adopting it for the bound object leaves a session that owns exactly its images; a claim survives only
        together with the handle, one revision on. */
    method SwapSource(obj: nat, handle: nat, width: nat, height: nat)
      requires Shaped(State()) && obj < |objects|
      modifies this, engine
      ensures State() == Adopted(old(State()), obj, handle, width, height)
      ensures old(OwnsWith(State(), handle) && source == Some(obj)) ==>
                Valid() && tileClaim.None? && Bound(State()).handle == handle
      ensures old(Valid() && objects[obj].handle == handle) ==> Valid()
      ensures tileClaim.Some? ==>
                var was := old(tileClaim);
                && handle == old(objects[obj].handle) && was.Some?
                && tileClaim.value == was.value.(revision := was.value.revision + 1)
    {
      hide OwnInv, OwnsWith, Adopted;
      if old(OwnsWith(State(), handle) && source == Some(obj)) {
        AdoptedOwns(old(State()), obj, handle, width, height);
      }
      if old(Valid() && objects[obj].handle == handle) {
        AdoptedInPlaceOwns(old(State()), obj, width, height);
      }
      AdoptedClaim(old(State()), obj, handle, width, height);
      Adopt(obj, handle, width, height);
    }

    method Adopt(obj: nat, handle: nat, width: nat, height: nat)
      requires Shaped(State()) && obj < |objects|
      modifies this, engine
      ensures State() == Adopted(old(State()), obj, handle, width, height)
    {
      pixelEdits := pixelEdits + 1;
      var src := objects[obj];
      if handle == src.handle {
        Bump();
        objects := objects[obj := Source(handle, width, height, src.version + 1)];
      } else {
        Release();
        engine.FreeImage(src.handle);
        objects := objects[obj := Source(handle, width, height, 0)];
      }
    }

    /** An awaited operation lands. It leaves a session that owns exactly its images if and only if it is safe. */
    method LandNow(k: nat, r: Result)
      requires Valid() && k < |pending|
      modifies this, engine
      ensures Shaped(State()) && State() == Step(old(State()), Land(k, r))
      ensures Valid() <==> Safe(old(State()), Land(k, r))
      ensures Valid() ==> engine.live == Held(State()) && engine.misfreed == 0
    {
      hide OwnInv, Owned, Held, Safe, Step, Landing, LandSwap, LandEdit, LandCanvas, LandPreview;
      PendingBound(State(), k);
      StepKeepsOwned(State(), Land(k, r));
      if Safe(State(), Land(k, r)) {
        OwnedHolds(Step(State(), Land(k, r)));
      } else {
        NotOwned(Step(State(), Land(k, r)));
      }
      LandIs(State(), k, r);
      LandingIs(Drop(State(), k), pending[k], r);
      var p := pending[k];
      pending := pending[..k] + pending[k + 1..];
      match p
      case Swap(obj) => LandReplacement(obj, r);
      case Edit(obj) => LandCommit(obj, r);
      case Canvas(obj) => LandExtent(obj, r);
      case Resample(key, of) =>
        LandCopy(key, of, r);
    }

    method LandCopy(key: Key, of: nat, r: Result)
      requires Shaped(State())
      modifies this`proxy, engine
      ensures Shaped(State()) && State() == LandPreview(old(State()), key, of, r)
    {
      if r.NewHandle? {
        var handle := engine.NewImage();
        proxy := Some(Proxy(handle, key, of));
      }
    }

    method LandReplacement(obj: nat, r: Result)
      requires Shaped(State()) && obj < |objects|
      modifies this, engine
      ensures Shaped(State()) && State() == LandSwap(old(State()), obj, r)
    {
      if r.NewHandle? {
        var handle := engine.NewImage();
        Release();
        engine.FreeImage(objects[obj].handle);
        pixelEdits := pixelEdits + 1;
        objects := objects[obj := Source(handle, r.width, r.height, 0)];
      }
    }

    method LandCommit(obj: nat, r: Result)
      requires Shaped(State()) && obj < |objects|
      requires objects[obj].handle < engine.next
      modifies this, engine
      ensures Shaped(State()) && State() == LandEdit(old(State()), obj, r)
    {
      match r
      case Failed =>
      case SameHandle(w, h) => SwapSource(obj, objects[obj].handle, w, h);
      case NewHandle(w, h) =>
        var handle := engine.NewImage();
        SwapSource(obj, handle, w, h);
    }

    method LandExtent(obj: nat, r: Result)
      requires Shaped(State()) && obj < |objects|
      modifies this
      ensures Shaped(State()) && State() == LandCanvas(old(State()), obj, r)
    {
      if r.SameHandle? {
        Release();
        var src := objects[obj];
        objects := objects[obj := Source(src.handle, r.width, r.height, src.version + 1)];
        pixelEdits := pixelEdits + 1;
      }
    }
  }

  /** What adopting an image for an object makes of a session. */
  ghost function Adopted(s: Session, obj: nat, handle: nat, width: nat, height: nat): Session
    requires obj < |s.objects|
  {
    var src := s.objects[obj];
    if handle == src.handle then Write(BumpTiles(MarkEdited(s)), obj, Source(handle, width, height, src.version + 1))
    else Write(Free(ReleaseTiles(MarkEdited(s)), src.handle), obj, Source(handle, width, height, 0))
  }

  /** The session owns the engine's images but for one just made, which nothing refers to yet. */
  ghost predicate OwnsWith(s: Session, made: nat) {
    && OwnInv(s.(live := s.live - {made})) && made in s.live && made < s.next
    && forall o :: 0 <= o < |s.objects| ==> s.objects[o].handle != made
  }

  lemma AdoptedOwns(s: Session, obj: nat, made: nat, width: nat, height: nat)
    requires OwnsWith(s, made) && s.source == Some(obj)
    ensures obj < |s.objects| && OwnInv(Adopted(s, obj, made, width, height))
    ensures var t := Adopted(s, obj, made, width, height);
            && t.claim.None? && t.source == s.source && Bound(t).handle == made
  {
    var was := s.(live := s.live - {made});
    assert Bound(was).handle in was.live;
  }

  lemma AdoptedClaim(s: Session, obj: nat, handle: nat, width: nat, height: nat)
    requires Shaped(s) && obj < |s.objects|
    ensures var t := Adopted(s, obj, handle, width, height);
            t.claim.Some? ==>
              && handle == s.objects[obj].handle && s.claim.Some?
              && t.claim.value == s.claim.value.(revision := s.claim.value.revision + 1)
  {
  }

  lemma AdoptedInPlaceOwns(s: Session, obj: nat, width: nat, height: nat)
    requires OwnInv(s) && obj < |s.objects|
    ensures OwnInv(Adopted(s, obj, s.objects[obj].handle, width, height))
  {
  }

  lemma OwnedHolds(s: Session)
    requires OwnInv(s)
    ensures Shaped(s) && s.live == Held(s) && s.misfreed == 0
  {
  }

  lemma NotOwned(s: Session)
    requires Shaped(s) && !Owned(s)
    ensures !OwnInv(s)
  {
  }

  /** What an awaited operation was begun on is still an object. */
  lemma PendingBound(s: Session, k: nat)
    requires OwnInv(s) && k < |s.pending|
    ensures Shaped(s) && Shaped(Drop(s, k)) && (!s.pending[k].Resample? ==> s.pending[k].obj < |s.objects|)
    ensures !s.pending[k].Resample? ==> s.objects[s.pending[k].obj].handle < s.next
  {
  }

  lemma LandIs(s: Session, k: nat, r: Result)
    requires Shaped(s) && k < |s.pending|
    requires !s.pending[k].Resample? ==> s.pending[k].obj < |s.objects|
    ensures Step(s, Land(k, r)) == Landing(Drop(s, k), s.pending[k], r)
  {
    hide Landing;
  }

  lemma LandingIs(s: Session, p: Pending, r: Result)
    requires !p.Resample? ==> p.obj < |s.objects|
    ensures Landing(s, p, r)
            == match p
               case Swap(obj) => LandSwap(s, obj, r)
               case Edit(obj) => LandEdit(s, obj, r)
               case Canvas(obj) => LandCanvas(s, obj, r)
               case Resample(key, of) => LandPreview(s, key, of, r)
  {
    hide LandSwap, LandEdit, LandCanvas, LandPreview;
  }

  lemma FreeProxyKeepsOwned(s: Session)
    requires OwnInv(s)
    ensures OwnInv(FreeProxy(s)) && FreeProxy(s).live == s.live - ProxyHandle(s)
  {
  }

  lemma FreeSourceKeepsOwned(s: Session)
    requires OwnInv(s)
    ensures OwnInv(FreeSource(s)) && FreeSource(s).live == PatternHandle(FreeSource(s))
  {
  }

  lemma IngestOwns(s: Session, r: Result)
    requires OwnInv(s) && r.NewHandle?
    ensures IngestStep(s, r).live == PatternHandle(IngestStep(s, r)) + {s.next}
  {
    FreeSourceKeepsOwned(s);
  }
}
