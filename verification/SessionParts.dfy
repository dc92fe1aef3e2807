/** The content-addressed part store a committed image session lives in, as a map from part names to
    bytes: what a record names, what reading it back gives, what a write adds and a collection drops. */
module SessionParts {
  import opened Basics
  import opened PartPaths

  type Bytes = seq<byte>
  type Parts = map<string, Bytes>

  /** One stored revision. */
  datatype Record = Record(v: int, width: int, height: int, manifest: string, buffers: seq<string>, baked: string)

  /** The hash, and the JSON text of a record in both directions. Text that holds no record decodes to nothing; when
      it still parses, but to something without a list of buffers, `manifest` is the manifest it gives. */
  datatype Codec = Codec(sha: Bytes -> string, encode: Record -> Bytes, decode: Bytes -> Option<Record>,
                         manifest: Bytes -> Option<string>)

  ghost predicate Lawful(c: Codec) {
    && (forall a, b :: c.sha(a) == c.sha(b) ==> a == b)
    && (forall r :: c.decode(c.encode(r)) == Some(r))
  }

  /** The hashes a record names, the manifest first. */
  function Names(r: Record): seq<string> {
    [r.manifest] + r.buffers
  }

  /** The record stored under a name, when the name is a record's and its text holds one. */
  function RecordIn(c: Codec, parts: Parts, p: string): Option<Record> {
    if p in parts && "f/" <= p && EndsWith(p, JSON) then c.decode(parts[p]) else None
  }

  /** The buffer with hash h is stored, and its bytes have that hash. */
  predicate Backed(c: Codec, parts: Parts, h: string) {
    BlobPath(h) in parts && c.sha(parts[BlobPath(h)]) == h
  }

  /** Every readable record has all its buffers. */
  ghost predicate Sound(c: Codec, parts: Parts) {
    forall p, h :: RecordIn(c, parts, p).Some? && h in Names(RecordIn(c, parts, p).value) ==> Backed(c, parts, h)
  }

  /** Every stored buffer has the hash it is named by. */
  ghost predicate Honest(c: Codec, parts: Parts) {
    forall h :: BlobPath(h) in parts ==> Backed(c, parts, h)
  }

  ghost predicate Healthy(c: Codec, parts: Parts) {
    Sound(c, parts) && Honest(c, parts)
  }

  // ---- reading -------------------------------------------------------------------------------

  datatype Reason = Missing | NotReadable | OtherVersion(v: int) | LayerMissing(sha: string) | LayerDamaged(sha: string)

  datatype Fetched = Got(bytes: Bytes) | Lost(reason: Reason)

  datatype FetchedAll = GotAll(all: seq<Bytes>) | LostOne(reason: Reason)

  datatype Session = Loaded(record: Record, manifest: Bytes, buffers: seq<Bytes>) | Refused(reason: Reason)

  function Fetch(c: Codec, parts: Parts, h: string): Fetched {
    if BlobPath(h) !in parts then Lost(LayerMissing(h))
    else if c.sha(parts[BlobPath(h)]) != h then Lost(LayerDamaged(h))
    else Got(parts[BlobPath(h)])
  }

  function FetchAll(c: Codec, parts: Parts, hs: seq<string>): FetchedAll {
    if hs == [] then GotAll([])
    else
      match FetchAll(c, parts, hs[..|hs| - 1])
      case LostOne(e) => LostOne(e)
      case GotAll(all) =>
        match Fetch(c, parts, hs[|hs| - 1])
        case Lost(e) => LostOne(e)
        case Got(b) => GotAll(all + [b])
  }

  function ReadSession(c: Codec, parts: Parts, path: string): Session {
    if path !in parts then Refused(Missing)
    else
      match c.decode(parts[path])
      case None => Refused(NotReadable)
      case Some(r) =>
        if r.v != 1 then Refused(OtherVersion(r.v))
        else
          match Fetch(c, parts, r.manifest)
          case Lost(e) => Refused(e)
          case Got(m) =>
            match FetchAll(c, parts, r.buffers)
            case LostOne(e) => Refused(e)
            case GotAll(bs) => Loaded(r, m, bs)
  }

  lemma {:induction false} FetchAllIs(c: Codec, parts: Parts, hs: seq<string>)
    ensures FetchAll(c, parts, hs).GotAll? <==> forall i :: 0 <= i < |hs| ==> Backed(c, parts, hs[i])
    ensures FetchAll(c, parts, hs).GotAll? ==>
              && |FetchAll(c, parts, hs).all| == |hs|
              && forall i :: 0 <= i < |hs| ==>
                   BlobPath(hs[i]) in parts && FetchAll(c, parts, hs).all[i] == parts[BlobPath(hs[i])]
  {
    if hs != [] {
      var front := hs[..|hs| - 1];
      FetchAllIs(c, parts, front);
      assert forall i :: 0 <= i < |front| ==> front[i] == hs[i];
    }
  }

  /** On any store whatever, a session loads exactly when its record is of version 1 and all it names is
      stored intact, and then every buffer it hands back has the hash the record names for it. */
  lemma LoadsIntactOrNotAtAll(c: Codec, parts: Parts, path: string)
    ensures ReadSession(c, parts, path).Loaded? <==>
              && path in parts && c.decode(parts[path]).Some?
              && var r := c.decode(parts[path]).value;
                 r.v == 1 && forall h :: h in Names(r) ==> Backed(c, parts, h)
    ensures ReadSession(c, parts, path).Loaded? ==>
              var s := ReadSession(c, parts, path);
              && c.decode(parts[path]) == Some(s.record)
              && c.sha(s.manifest) == s.record.manifest
              && |s.buffers| == |s.record.buffers|
              && forall i :: 0 <= i < |s.buffers| ==> c.sha(s.buffers[i]) == s.record.buffers[i]
  {
    hide BlobPath;
    if path in parts && c.decode(parts[path]).Some? {
      var r := c.decode(parts[path]).value;
      FetchAllIs(c, parts, r.buffers);
      NamesAre(r);
      hide FetchAll, Names;
    }
  }

  lemma {:induction false} FetchFails(c: Codec, parts: Parts, hs: seq<string>)
    requires FetchAll(c, parts, hs).LostOne?
    ensures var e := FetchAll(c, parts, hs).reason;
            || (e.LayerMissing? && e.sha in hs && BlobPath(e.sha) !in parts)
            || (e.LayerDamaged? && e.sha in hs && BlobPath(e.sha) in parts && c.sha(parts[BlobPath(e.sha)]) != e.sha)
  {
    hide BlobPath;
    var front := hs[..|hs| - 1];
    if FetchAll(c, parts, front).LostOne? {
      FetchFails(c, parts, front);
      assert forall h :: h in front ==> h in hs;
    }
  }

  /** What each refusal to load means. */
  lemma RefusalsMean(c: Codec, parts: Parts, path: string)
    ensures var s, text := ReadSession(c, parts, path), if path in parts then c.decode(parts[path]) else None;
            && (s == Refused(Missing) <==> path !in parts)
            && (s == Refused(NotReadable) <==> path in parts && text == None)
            && (forall v :: s == Refused(OtherVersion(v)) <==> text.Some? && text.value.v == v && v != 1)
            && (forall h :: s == Refused(LayerMissing(h)) ==>
                  text.Some? && text.value.v == 1 && h in Names(text.value) && BlobPath(h) !in parts)
            && (forall h :: s == Refused(LayerDamaged(h)) ==>
                  && text.Some? && text.value.v == 1 && h in Names(text.value)
                  && BlobPath(h) in parts && c.sha(parts[BlobPath(h)]) != h)
  {
    hide BlobPath;
    if path in parts && c.decode(parts[path]).Some? {
      var r := c.decode(parts[path]).value;
      NamesAre(r);
      if FetchAll(c, parts, r.buffers).LostOne? {
        FetchFails(c, parts, r.buffers);
        hide FetchAll, Names;
      }
    }
  }

  lemma NamesAre(r: Record)
    ensures r.manifest in Names(r) && forall i :: 0 <= i < |r.buffers| ==> r.buffers[i] in Names(r)
    ensures forall h :: h in Names(r) ==> h == r.manifest || exists i :: 0 <= i < |r.buffers| && h == r.buffers[i]
  {
  }

  // ---- writing -------------------------------------------------------------------------------

  /** The store after keeping each buffer under its hash, leaving names already taken alone. */
  function Stored(c: Codec, parts: Parts, exported: seq<Bytes>): Parts {
    if exported == [] then parts
    else
      var before := Stored(c, parts, exported[..|exported| - 1]);
      var b := exported[|exported| - 1];
      var p := BlobPath(c.sha(b));
      if p in before then before else before[p := b]
  }

  function Hashes(c: Codec, exported: seq<Bytes>): (hs: seq<string>)
    ensures |hs| == |exported|
  {
    seq(|exported|, i requires 0 <= i < |exported| => c.sha(exported[i]))
  }

  function RecordFor(c: Codec, exported: seq<Bytes>, width: int, height: int, baked: string): Record
    requires |exported| > 0
  {
    Record(1, width, height, Hashes(c, exported)[0], Hashes(c, exported)[1..], baked)
  }

  function Written(c: Codec, parts: Parts, path: string, exported: seq<Bytes>, width: int, height: int,
                   baked: string): Parts
    requires |exported| > 0
  {
    Stored(c, parts, exported)[path := c.encode(RecordFor(c, exported, width, height, baked))]
  }

  /** The record of a session of the given extent: version 1, the first buffer's hash as manifest, the others' in
      order, and the hash of what was baked. */
  predicate Describes(c: Codec, r: Record, exported: seq<Bytes>, width: int, height: int, baked: string)
    requires |exported| > 0
  {
    && r.v == 1 && r.width == width && r.height == height && r.baked == baked
    && r.manifest == c.sha(exported[0]) && |r.buffers| == |exported| - 1
    && forall i :: 0 <= i < |r.buffers| ==> r.buffers[i] == c.sha(exported[i + 1])
  }

  /** A session loaded just as it was committed. */
  predicate LoadedAs(c: Codec, s: Session, exported: seq<Bytes>, width: int, height: int, baked: string)
    requires |exported| > 0
  {
    s.Loaded? && Describes(c, s.record, exported, width, height, baked)
    && s.manifest == exported[0] && s.buffers == exported[1..]
  }

  lemma OneRecordDescribes(c: Codec, r: Record, exported: seq<Bytes>, width: int, height: int, baked: string)
    requires |exported| > 0
    ensures Describes(c, r, exported, width, height, baked) <==> r == RecordFor(c, exported, width, height, baked)
  {
    if Describes(c, r, exported, width, height, baked) {
      assert r.buffers == Hashes(c, exported)[1..];
    }
  }

  lemma LoadedAsCommitted(c: Codec, s: Session, exported: seq<Bytes>, width: int, height: int, baked: string)
    requires |exported| > 0
    ensures LoadedAs(c, s, exported, width, height, baked)
            <==> s == Loaded(RecordFor(c, exported, width, height, baked), exported[0], exported[1..])
  {
    hide Describes, RecordFor;
    if s.Loaded? {
      OneRecordDescribes(c, s.record, exported, width, height, baked);
    }
  }

  ghost predicate Agrees(c: Codec, parts: Parts, b: Bytes) {
    var p := BlobPath(c.sha(b));
    p in parts ==> parts[p] == b
  }

  /** Storing buffers keeps every part, adds only buffers under their own hash, and then holds every
      buffer: intact exactly when no part of another content already sat under its name. */
  lemma StoredParts(c: Codec, parts: Parts, exported: seq<Bytes>)
    requires Lawful(c)
    ensures forall p :: p in parts ==> p in Stored(c, parts, exported) && Stored(c, parts, exported)[p] == parts[p]
    ensures forall p :: p in Stored(c, parts, exported) && p !in parts ==>
              AddedBy(c, exported, p, Stored(c, parts, exported)[p])
    ensures forall i :: 0 <= i < |exported| ==> BlobPath(c.sha(exported[i])) in Stored(c, parts, exported)
    ensures forall i :: 0 <= i < |exported| ==>
              (Agrees(c, parts, exported[i])
               <==> Stored(c, parts, exported)[BlobPath(c.sha(exported[i]))] == exported[i])
  {
    hide BlobPath, Stored;
    StoredKeeps(c, parts, exported);
    StoredAdds(c, parts, exported);
    var after := Stored(c, parts, exported);
    forall i | 0 <= i < |exported|
      ensures Agrees(c, parts, exported[i]) <==> after[BlobPath(c.sha(exported[i]))] == exported[i]
    {
      var p := BlobPath(c.sha(exported[i]));
      if p !in parts {
        var j :| 0 <= j < |exported| && exported[j] == after[p] && p == BlobPath(c.sha(exported[j]));
        BlobPathInjective(c.sha(exported[i]), c.sha(exported[j]));
      }
    }
  }

  lemma {:induction false} StoredKeeps(c: Codec, parts: Parts, exported: seq<Bytes>)
    ensures forall p :: p in parts ==> p in Stored(c, parts, exported) && Stored(c, parts, exported)[p] == parts[p]
    ensures forall i :: 0 <= i < |exported| ==> BlobPath(c.sha(exported[i])) in Stored(c, parts, exported)
  {
    hide BlobPath;
    if exported != [] {
      StoredKeeps(c, parts, exported[..|exported| - 1]);
    }
  }

  lemma {:induction false} StoredAdds(c: Codec, parts: Parts, exported: seq<Bytes>)
    ensures forall p :: p in Stored(c, parts, exported) && p !in parts ==>
              AddedBy(c, exported, p, Stored(c, parts, exported)[p])
  {
    hide BlobPath;
    if exported != [] {
      var front, b := exported[..|exported| - 1], exported[|exported| - 1];
      StoredAdds(c, parts, front);
      var before := Stored(c, parts, front);
      forall q | q in before && q !in parts ensures AddedBy(c, exported, q, before[q]) {
        assert AddedBy(c, front, q, before[q]);
        var i :| 0 <= i < |front| && front[i] == before[q] && q == BlobPath(c.sha(front[i]));
        assert exported[i] == front[i];
      }
      assert AddedBy(c, exported, BlobPath(c.sha(b)), b);
    }
  }

  ghost predicate AddedBy(c: Codec, exported: seq<Bytes>, p: string, bytes: Bytes) {
    exists i :: 0 <= i < |exported| && exported[i] == bytes && p == BlobPath(c.sha(exported[i]))
  }

  // ---- collecting ----------------------------------------------------------------------------

  /** The hashes that bytes in a record's place keep alive: all a readable record names, or the manifest read out
      before its missing list of buffers stops the reading. */
  function HashesIn(c: Codec, bytes: Bytes): seq<string> {
    match c.decode(bytes)
    case Some(r) => Names(r)
    case None => match c.manifest(bytes) case Some(h) => [h] case None => []
  }

  /** The hashes kept alive by the part stored under a name. */
  function KeptBy(c: Codec, parts: Parts, q: string): seq<string> {
    if q in parts && "f/" <= q && EndsWith(q, JSON) then HashesIn(c, parts[q]) else []
  }

  /** Some record, readable or only in part, names the buffer at p. */
  ghost predicate IsLive(c: Codec, parts: Parts, p: string) {
    exists q, h :: h in KeptBy(c, parts, q) && p == BlobPath(h)
  }

  lemma RecordsKeep(c: Codec, parts: Parts, q: string, h: string)
    requires RecordIn(c, parts, q).Some? && h in Names(RecordIn(c, parts, q).value)
    ensures h in KeptBy(c, parts, q)
  {
  }

  predicate Expired(path: string, dir: string, cutoff: int) {
    dir <= path && RevOf(path).Some? && RevOf(path).value <= cutoff
  }

  /** A collection that is refused no deletion: first the expired records, then the buffers no
      remaining record names. */
  ghost function Collected(c: Codec, parts: Parts, dir: string, cutoff: int): Parts {
    var kept := map p | p in parts && !Expired(p, dir, cutoff) :: parts[p];
    map p | p in kept && ("px/" <= p ==> IsLive(c, kept, p)) :: kept[p]
  }

  /** Any collection: parts only disappear, and only expired records and buffers nobody names do. */
  ghost predicate CollectStep(c: Codec, parts: Parts, parts': Parts, dir: string, cutoff: int) {
    && (forall p :: p in parts' ==> p in parts && parts'[p] == parts[p])
    && (forall p :: p in parts && p !in parts' ==> Expired(p, dir, cutoff) || ("px/" <= p && !IsLive(c, parts', p)))
  }

  // ---- what writing and collecting keep ------------------------------------------------------

  lemma StoredKeepsHealthy(c: Codec, parts: Parts, exported: seq<Bytes>)
    requires Lawful(c) && Healthy(c, parts)
    ensures Healthy(c, Stored(c, parts, exported))
  {
    hide BlobPath, Stored;
    StoredParts(c, parts, exported);
    var s := Stored(c, parts, exported);
    forall h | BlobPath(h) in s ensures Backed(c, s, h) {
      if BlobPath(h) !in parts {
        var i :| 0 <= i < |exported| && exported[i] == s[BlobPath(h)] && BlobPath(h) == BlobPath(c.sha(exported[i]));
        BlobPathInjective(h, c.sha(exported[i]));
      } else {
        assert Backed(c, parts, h);
      }
    }
    forall p, h | RecordIn(c, s, p).Some? && h in Names(RecordIn(c, s, p).value) ensures Backed(c, s, h) {
      OnlyBuffersAdded(c, parts, exported, p);
      assert RecordIn(c, parts, p) == RecordIn(c, s, p);
      assert Backed(c, parts, h);
    }
  }

  /** Storing buffers adds no record. */
  lemma OnlyBuffersAdded(c: Codec, parts: Parts, exported: seq<Bytes>, p: string)
    requires Lawful(c) && p in Stored(c, parts, exported) && "f/" <= p
    ensures p in parts
  {
    hide BlobPath, Stored;
    StoredParts(c, parts, exported);
    FoldersDiffer(p);
  }

  /** The record of a write names exactly the hashes of what was exported. */
  lemma NamesOfWritten(c: Codec, exported: seq<Bytes>, width: int, height: int, baked: string)
    requires |exported| > 0
    ensures Names(RecordFor(c, exported, width, height, baked)) == Hashes(c, exported)
  {
  }

  lemma WriteKeepsHealthy(c: Codec, parts: Parts, path: string, exported: seq<Bytes>, width: int, height: int,
                          baked: string)
    requires Lawful(c) && Healthy(c, parts) && |exported| > 0 && "f/" <= path
    ensures Healthy(c, Written(c, parts, path, exported, width, height, baked))
  {
    hide BlobPath, Stored, Names, RecordFor, EndsWith;
    var s, w, r := Stored(c, parts, exported), Written(c, parts, path, exported, width, height, baked),
                   RecordFor(c, exported, width, height, baked);
    StoredParts(c, parts, exported);
    StoredKeepsHealthy(c, parts, exported);
    NamesOfWritten(c, exported, width, height, baked);
    FoldersDiffer(path);
    assert forall h :: Backed(c, s, h) ==> Backed(c, w, h);
    forall p, h | RecordIn(c, w, p).Some? && h in Names(RecordIn(c, w, p).value) ensures Backed(c, w, h) {
      if p == path {
        assert RecordIn(c, w, p) == Some(r);
        var i :| 0 <= i < |exported| && h == Hashes(c, exported)[i];
        assert BlobPath(c.sha(exported[i])) in s;
      } else {
        assert RecordIn(c, s, p) == RecordIn(c, w, p);
      }
    }
  }

  lemma AgreesIsBacked(c: Codec, parts: Parts, path: string, exported: seq<Bytes>, width: int, height: int,
                       baked: string)
    requires Lawful(c) && |exported| > 0 && "f/" <= path
    ensures var w := Written(c, parts, path, exported, width, height, baked);
            forall i :: 0 <= i < |exported| ==>
              && (Agrees(c, parts, exported[i]) <==> Backed(c, w, Hashes(c, exported)[i]))
              && (Backed(c, w, Hashes(c, exported)[i]) ==> w[BlobPath(Hashes(c, exported)[i])] == exported[i])
  {
    hide BlobPath, Stored, RecordFor;
    var s, w := Stored(c, parts, exported), Written(c, parts, path, exported, width, height, baked);
    StoredParts(c, parts, exported);
    FoldersDiffer(path);
    var hs := Hashes(c, exported);
    forall i | 0 <= i < |exported|
      ensures Agrees(c, parts, exported[i]) <==> Backed(c, w, hs[i])
      ensures Backed(c, w, hs[i]) ==> w[BlobPath(hs[i])] == exported[i]
    {
      assert w[BlobPath(hs[i])] == s[BlobPath(hs[i])];
    }
  }

  /** A finished write reads back as exactly what was exported, with its extent, if and only if no part of another
      content already sat under one of its hashes. */
  lemma WrittenReadsBack(c: Codec, parts: Parts, path: string, exported: seq<Bytes>, width: int, height: int,
                         baked: string)
    requires Lawful(c) && |exported| > 0 && "f/" <= path
    ensures var w := Written(c, parts, path, exported, width, height, baked);
            LoadedAs(c, ReadSession(c, w, path), exported, width, height, baked)
            <==> forall i :: 0 <= i < |exported| && BlobPath(c.sha(exported[i])) in parts ==>
                   parts[BlobPath(c.sha(exported[i]))] == exported[i]
  {
    hide BlobPath, RecordFor, Written, ReadSession;
    WrittenLoads(c, parts, path, exported, width, height, baked);
    LoadedAsCommitted(c, ReadSession(c, Written(c, parts, path, exported, width, height, baked), path), exported, width,
                      height, baked);
    hide LoadedAs;
    assert forall i :: 0 <= i < |exported| ==>
        (Agrees(c, parts, exported[i])
         <==> (BlobPath(c.sha(exported[i])) in parts ==> parts[BlobPath(c.sha(exported[i]))] == exported[i]));
  }

  lemma WrittenLoads(c: Codec, parts: Parts, path: string, exported: seq<Bytes>, width: int, height: int,
                     baked: string)
    requires Lawful(c) && |exported| > 0 && "f/" <= path
    ensures var w := Written(c, parts, path, exported, width, height, baked);
            ReadSession(c, w, path) == Loaded(RecordFor(c, exported, width, height, baked), exported[0], exported[1..])
            <==> forall i :: 0 <= i < |exported| ==> Agrees(c, parts, exported[i])
  {
    hide BlobPath, Stored, Names, EndsWith, FetchAll;
    var s, w, r := Stored(c, parts, exported), Written(c, parts, path, exported, width, height, baked),
                   RecordFor(c, exported, width, height, baked);
    AgreesIsBacked(c, parts, path, exported, width, height, baked);
    FetchAllIs(c, w, r.buffers);
    var hs := Hashes(c, exported);
    hide Agrees;
    assert forall i :: 0 <= i < |r.buffers| ==> r.buffers[i] == hs[i + 1] && exported[1..][i] == exported[i + 1];
    if forall i :: 0 <= i < |exported| ==> Backed(c, w, hs[i]) {
      assert FetchAll(c, w, r.buffers).all == exported[1..];
    }
    if ReadSession(c, w, path).Loaded? {
      forall i | 0 <= i < |exported| ensures Backed(c, w, hs[i]) {
        if i > 0 {
          assert r.buffers[i - 1] == hs[i];
        }
      }
    }
  }

  lemma CollectKeepsHealthy(c: Codec, parts: Parts, parts': Parts, dir: string, cutoff: int)
    requires Healthy(c, parts) && CollectStep(c, parts, parts', dir, cutoff) && "f/" <= dir
    ensures Healthy(c, parts')
  {
    hide BlobPath, Names, RevOf, EndsWith, KeptBy;
    forall h | BlobPath(h) in parts' ensures Backed(c, parts', h) {
      assert Backed(c, parts, h);
    }
    forall p, h | RecordIn(c, parts', p).Some? && h in Names(RecordIn(c, parts', p).value)
      ensures Backed(c, parts', h)
    {
      assert RecordIn(c, parts, p) == RecordIn(c, parts', p);
      assert Backed(c, parts, h);
      FoldersDiffer(BlobPath(h));
      RecordsKeep(c, parts', p, h);
      assert IsLive(c, parts', BlobPath(h));
    }
  }

  /** Dropping parts that are not records changes no liveness. */
  lemma SameLive(c: Codec, a: Parts, b: Parts, p: string)
    requires forall q :: "f/" <= q ==> (q in a <==> q in b) && (q in a ==> a[q] == b[q])
    ensures IsLive(c, a, p) <==> IsLive(c, b, p)
  {
    hide BlobPath, HashesIn, EndsWith;
    assert forall q :: KeptBy(c, a, q) == KeptBy(c, b, q);
  }

  /** A collection refused nothing is a collection; it leaves no buffer that nobody names, and a second
      one finds nothing to delete. */
  lemma CollectedIsClean(c: Codec, parts: Parts, dir: string, cutoff: int)
    ensures var s := Collected(c, parts, dir, cutoff);
            && CollectStep(c, parts, s, dir, cutoff)
            && (forall p :: p in s && "px/" <= p ==> IsLive(c, s, p))
            && Collected(c, s, dir, cutoff) == s
  {
    hide IsLive, RevOf;
    var kept := map p | p in parts && !Expired(p, dir, cutoff) :: parts[p];
    var s := Collected(c, parts, dir, cutoff);
    forall p ensures IsLive(c, kept, p) <==> IsLive(c, s, p) {
      forall q | "f/" <= q ensures (q in kept <==> q in s) && (q in kept ==> kept[q] == s[q]) {
        FoldersDiffer(q);
      }
      SameLive(c, kept, s, p);
    }
    assert (map p | p in s && !Expired(p, dir, cutoff) :: s[p]) == s;
  }

  // ---- what a collection leaves, said apart from its functions -----------------------------------

  /** A revision of the folder, numbered at most cutoff. */
  ghost predicate IsOld(p: string, dir: string, cutoff: int) {
    dir <= p && exists front, digits, tail :: IsRevisionPath(p, front, digits, tail) && Number(digits) <= cutoff
  }

  /** The stored text of the record at q names the buffer at p: as manifest or in its list, or, where the text holds no
      record but gives a manifest, as that. */
  ghost predicate Mentions(c: Codec, text: Bytes, p: string) {
    match c.decode(text)
    case Some(r) =>
      || p == "px/" + r.manifest + ".bin"
      || exists i :: 0 <= i < |r.buffers| && p == "px/" + r.buffers[i] + ".bin"
    case None => c.manifest(text).Some? && p == "px/" + c.manifest(text).value + ".bin"
  }

  /** What is left after a collection that is refused nothing: of the folder's revisions those above the cutoff, of
      the buffers those that a record left, of any folder, mentions, and everything else; all as it was. */
  lemma CollectedExactly(c: Codec, parts: Parts, dir: string, cutoff: int)
    ensures var s := Collected(c, parts, dir, cutoff);
            && (forall p :: p in s <==>
                  && p in parts && !IsOld(p, dir, cutoff)
                  && ("px/" <= p ==>
                        exists q :: q in parts && !IsOld(q, dir, cutoff) && "f/" <= q && EndsWith(q, ".json")
                                    && Mentions(c, parts[q], p)))
            && forall p :: p in s ==> s[p] == parts[p]
  {
    hide RevOf, IsRevisionPath, EndsWith, KeptBy, Mentions, Expired, IsOld;
    var kept := map p | p in parts && !Expired(p, dir, cutoff) :: parts[p];
    forall p ensures Expired(p, dir, cutoff) <==> IsOld(p, dir, cutoff) {
      ExpiredMeans(p, dir, cutoff);
    }
    forall p ensures IsLive(c, kept, p) <==> exists q :: q in kept && "f/" <= q && EndsWith(q, ".json")
                                                          && Mentions(c, kept[q], p)
    {
      if h, q :| h in KeptBy(c, kept, q) && p == BlobPath(h) {
        KeptIsMentioned(c, kept, q, p);
      }
      if q :| q in kept && "f/" <= q && EndsWith(q, ".json") && Mentions(c, kept[q], p) {
        KeptIsMentioned(c, kept, q, p);
      }
    }
  }

  lemma ExpiredMeans(p: string, dir: string, cutoff: int)
    ensures Expired(p, dir, cutoff) <==> IsOld(p, dir, cutoff)
  {
    hide RevOf, Number;
    if RevOf(p).Some? {
      RevOfMeans(p, RevOf(p).value);
    }
    if front, digits, tail :| IsRevisionPath(p, front, digits, tail) && Number(digits) <= cutoff {
      RevOfMeans(p, Number(digits));
    }
  }

  lemma KeptIsMentioned(c: Codec, parts: Parts, q: string, p: string)
    ensures (exists h :: h in KeptBy(c, parts, q) && p == BlobPath(h))
            <==> q in parts && "f/" <= q && EndsWith(q, ".json") && Mentions(c, parts[q], p)
  {
    hide EndsWith;
    if q in parts && "f/" <= q && EndsWith(q, ".json") {
      match c.decode(parts[q])
      case Some(r) =>
        NamesAre(r);
        if Mentions(c, parts[q], p) {
          assert exists h :: h in Names(r) && p == BlobPath(h) by {
            if p == "px/" + r.manifest + ".bin" {
              assert p == BlobPath(r.manifest);
            } else {
              var i :| 0 <= i < |r.buffers| && p == "px/" + r.buffers[i] + ".bin";
              assert p == BlobPath(r.buffers[i]);
            }
          }
        }
      case None =>
        if c.manifest(parts[q]).Some? {
          assert c.manifest(parts[q]).value in KeptBy(c, parts, q);
        }
    }
  }
}
