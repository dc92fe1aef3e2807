/** Who owns the engine's image handles: the session's source, pattern and preview proxy, and the tile claim that
    stands on the source. An operation that awaits the engine is two events, its begin and its landing, and goes on
    with the source object it began with; anything may happen in between. */
module SessionHandles {
  import opened Basics

  /** An ingested image; `version` counts the changes of its pixels under one handle. */
  datatype Source = Source(handle: nat, width: nat, height: nat, version: nat)

  datatype Key = Key(handle: nat, edits: nat, w: nat, h: nat)

  /** A resampled copy of the source as it was at version `of`. */
  datatype Proxy = Proxy(handle: nat, key: Key, of: nat)

  /** A claim made at the given extent; `since` is the source version it was made at. */
  datatype Claim = Claim(width: nat, height: nat, revision: nat, since: nat)

  /** An awaited call and what its continuation holds on to: a resize or crop, an effect, fill or paint commit,
      a canvas operation, or the resample of a preview. */
  datatype Pending = Swap(obj: nat) | Edit(obj: nat) | Canvas(obj: nat) | Resample(key: Key, of: nat)

  /** `objects` are the source objects ever made and `source` the bound one. `live` are the engine's images, `next`
      its next handle, `misfreed` counts frees of what was not live. */
  datatype Session = Session(
    objects: seq<Source>, source: Option<nat>, pattern: Option<nat>, proxy: Option<Proxy>, claim: Option<Claim>,
    edits: nat, pending: seq<Pending>, live: set<nat>, next: nat, misfreed: nat)

  const START := Session([], None, None, None, None, 0, [], {}, 0, 0)

  predicate Shaped(s: Session) {
    && (s.source.Some? ==> s.source.value < |s.objects|)
    && (forall k :: 0 <= k < |s.pending| ==> !s.pending[k].Resample? ==> s.pending[k].obj < |s.objects|)
  }

  function Bound(s: Session): Source
    requires Shaped(s) && s.source.Some?
  {
    s.objects[s.source.value]
  }

  // ---- what the engine does --------------------------------------------------------------------

  function Allocate(s: Session): Session {
    s.(live := s.live + {s.next}, next := s.next + 1)
  }

  function Free(s: Session, handle: nat): Session {
    if handle in s.live then s.(live := s.live - {handle}) else s.(misfreed := s.misfreed + 1)
  }

  // ---- what the session does -------------------------------------------------------------------

  function ReleaseTiles(s: Session): Session {
    s.(claim := None)
  }

  function BumpTiles(s: Session): Session {
    if s.claim.None? then s else s.(claim := Some(s.claim.value.(revision := s.claim.value.revision + 1)))
  }

  function MarkEdited(s: Session): Session {
    s.(edits := s.edits + 1)
  }

  function FreeProxy(s: Session): Session {
    if s.proxy.None? then s else Free(s, s.proxy.value.handle).(proxy := None)
  }

  function FreeSource(s: Session): Session
    requires Shaped(s)
  {
    var released := ReleaseTiles(s);
    var freed := if s.source.Some? then Free(released, Bound(s).handle) else released;
    FreeProxy(freed.(source := None, edits := 0))
  }

  function Write(s: Session, obj: nat, src: Source): Session
    requires obj < |s.objects|
  {
    s.(objects := s.objects[obj := src])
  }

  /** What an awaited call of the engine comes back with. */
  datatype Result =
    | Failed
    | SameHandle(width: nat, height: nat)
    | NewHandle(width: nat, height: nat)

  datatype Event =
    | Ingest(r: Result)
    | Reopen(changed: bool)
    | DefinePattern(accepted: bool)
    | Recomposite(folded: bool)
    | ClaimTiles
    | Dispose
    | BeginSwap
    | BeginEdit
    | BeginCanvas
    | BeginPreview(w: nat, h: nat, masked: bool)
    | Land(k: nat, result: Result)

  predicate IsBegin(e: Event) {
    e.BeginSwap? || e.BeginEdit? || e.BeginCanvas? || e.BeginPreview?
  }

  /** A new image decoded: everything the old one held goes first, but only once the decode succeeded. */
  function IngestStep(s: Session, r: Result): (t: Session)
    requires Shaped(s)
    ensures Shaped(t)
  {
    if !r.NewHandle? then s
    else
      var freed := FreeSource(Allocate(s));
      freed.(objects := freed.objects + [Source(s.next, r.width, r.height, 0)], source := Some(|freed.objects|))
  }

  /** Stored layers imported into the bound image: a new revision for its claim, but no edit of the session's own. */
  function ReopenStep(s: Session, changed: bool): (t: Session)
    requires Shaped(s)
    ensures Shaped(t)
  {
    if s.source.None? then s
    else
      var bumped := BumpTiles(s);
      if changed then Write(bumped, s.source.value, Bound(s).(version := Bound(s).version + 1)) else bumped
  }

  function DefinePatternStep(s: Session, accepted: bool): (t: Session)
    ensures Shaped(s) ==> Shaped(t)
  {
    if s.source.None? || !accepted then s
    else
      var a := Allocate(s);
      (if s.pattern.Some? then Free(a, s.pattern.value) else a).(pattern := Some(s.next))
  }

  /** Folding the layer stack into the bound image changes its pixels in place. */
  function RecompositeStep(s: Session, folded: bool): (t: Session)
    requires Shaped(s)
    ensures Shaped(t)
  {
    if s.source.None? || !folded then s
    else Write(MarkEdited(BumpTiles(s)), s.source.value, Bound(s).(version := Bound(s).version + 1))
  }

  function ClaimStep(s: Session): (t: Session)
    requires Shaped(s)
    ensures Shaped(t)
  {
    if s.source.None? then s else s.(claim := Some(Claim(Bound(s).width, Bound(s).height, 1, Bound(s).version)))
  }

  function DisposeStep(s: Session): (t: Session)
    requires Shaped(s)
    ensures Shaped(t)
  {
    var released := ReleaseTiles(s);
    FreeSource((if s.pattern.Some? then Free(released, s.pattern.value) else released).(pattern := None))
  }

  function Await(s: Session, p: Pending): (t: Session)
    ensures Shaped(s) && (!p.Resample? ==> p.obj < |s.objects|) ==> Shaped(t)
  {
    s.(pending := s.pending + [p])
  }

  predicate CurrentKey(s: Session, key: Key)
    requires Shaped(s)
  {
    s.source.Some? && key.handle == Bound(s).handle && key.edits == s.edits
  }

  /** A preview below full size and without a mask runs on a proxy: the one at hand when its key fits, else it is
      freed and a new one asked for. */
  function BeginPreviewStep(s: Session, w: nat, h: nat, masked: bool): (t: Session)
    requires Shaped(s)
    ensures Shaped(t)
  {
    if s.source.None? || masked || (w == Bound(s).width && h == Bound(s).height) then s
    else
      var key := Key(Bound(s).handle, s.edits, w, h);
      if s.proxy.Some? && s.proxy.value.key == key then s
      else Await(FreeProxy(s), Resample(key, Bound(s).version))
  }

  /** A resize or crop lands: the image of the object it began with is freed and replaced. */
  function LandSwap(s: Session, obj: nat, r: Result): (t: Session)
    requires obj < |s.objects|
    ensures Shaped(s) ==> Shaped(t)
  {
    if !r.NewHandle? then s
    else
      Write(MarkEdited(Free(ReleaseTiles(Allocate(s)), s.objects[obj].handle)), obj,
            Source(s.next, r.width, r.height, 0))
  }

  /** A commit lands: edited in place under the same handle, or replaced by a new image. */
  function LandEdit(s: Session, obj: nat, r: Result): (t: Session)
    requires obj < |s.objects|
    ensures Shaped(s) ==> Shaped(t)
  {
    var src := s.objects[obj];
    match r
    case Failed => s
    case SameHandle(w, h) => Write(BumpTiles(MarkEdited(s)), obj, Source(src.handle, w, h, src.version + 1))
    case NewHandle(w, h) => Write(Free(ReleaseTiles(MarkEdited(Allocate(s))), src.handle), obj, Source(s.next, w, h, 0))
  }

  /** A whole-canvas operation lands: the same handle at a new extent. */
  function LandCanvas(s: Session, obj: nat, r: Result): (t: Session)
    requires obj < |s.objects|
    ensures Shaped(s) ==> Shaped(t)
  {
    if !r.SameHandle? then s
    else
      var src := s.objects[obj];
      Write(MarkEdited(ReleaseTiles(s)), obj, Source(src.handle, r.width, r.height, src.version + 1))
  }

  /** A resample lands: it becomes the proxy, whatever the proxy is by then. */
  function LandPreview(s: Session, key: Key, of: nat, r: Result): (t: Session)
    ensures Shaped(s) ==> Shaped(t)
  {
    if !r.NewHandle? then s else Allocate(s).(proxy := Some(Proxy(s.next, key, of)))
  }

  function Landing(s: Session, p: Pending, r: Result): (t: Session)
    requires !p.Resample? ==> p.obj < |s.objects|
    ensures Shaped(s) ==> Shaped(t)
  {
    match p
    case Swap(obj) => LandSwap(s, obj, r)
    case Edit(obj) => LandEdit(s, obj, r)
    case Canvas(obj) => LandCanvas(s, obj, r)
    case Resample(key, of) => LandPreview(s, key, of, r)
  }

  function Drop(s: Session, k: nat): (t: Session)
    requires k < |s.pending|
    ensures Shaped(s) ==> Shaped(t)
  {
    s.(pending := s.pending[..k] + s.pending[k + 1..])
  }

  function Step(s: Session, e: Event): (t: Session)
    requires Shaped(s)
    ensures Shaped(t)
  {
    match e
    case Ingest(r) => IngestStep(s, r)
    case Reopen(changed) => ReopenStep(s, changed)
    case DefinePattern(accepted) => DefinePatternStep(s, accepted)
    case Recomposite(folded) => RecompositeStep(s, folded)
    case ClaimTiles => ClaimStep(s)
    case Dispose => DisposeStep(s)
    case BeginSwap => if s.source.None? then s else Await(s, Swap(s.source.value))
    case BeginEdit => if s.source.None? then s else Await(s, Edit(s.source.value))
    case BeginCanvas => if s.source.None? then s else Await(s, Canvas(s.source.value))
    case BeginPreview(w, h, masked) => BeginPreviewStep(s, w, h, masked)
    case Land(k, r) => if k < |s.pending| then Landing(Drop(s, k), s.pending[k], r) else s
  }

  function Run(events: seq<Event>): (s: Session)
    ensures Shaped(s)
  {
    if events == [] then START else Step(Run(events[..|events| - 1]), events[|events| - 1])
  }

  lemma RunStep(events: seq<Event>, k: nat)
    requires k < |events|
    ensures Run(events[..k + 1]) == Step(Run(events[..k]), events[k])
  {
    assert events[..k + 1][..k] == events[..k];
  }

  lemma RunNothing()
    ensures Run([]) == START
  {
  }

  /** A run goes on by a step. */
  lemma RunThrough(events: seq<Event>, s: Session, e: Event, t: Session) returns (more: seq<Event>)
    requires Run(events) == s && Shaped(s) && Step(s, e) == t
    ensures more == events + [e] && Run(more) == t
  {
    more := events + [e];
    assert more[..|events|] == events;
  }
}
