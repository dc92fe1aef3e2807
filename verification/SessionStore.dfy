/** Writing a session into the document's part store, reading it back, and collecting what no
    revision needs, one awaited part operation at a time. */
module SessionStore {
  import opened Basics
  import opened PartPaths
  import opened SessionParts

  /** The host's part store. `refuses` says which deletions it turns down, by how many came before and
      by name; `history` records the store after every write and deletion. */
  class PartStore {
    const refuses: (nat, string) -> bool
    var parts: Parts
    var deletions: nat
    ghost var history: seq<Parts>
    ghost var refusals: nat

    constructor (parts: Parts, refuses: (nat, string) -> bool)
      ensures this.parts == parts && this.refuses == refuses && history == [] && refusals == 0
    {
      this.parts, this.refuses, deletions := parts, refuses, 0;
      history, refusals := [], 0;
    }

    /** The names under a prefix, in some order. */
    method List(prefix: string) returns (names: seq<string>)
      ensures forall p :: p in names <==> p in parts && prefix <= p
      ensures Distinct(names)
    {
      names := [];
      var rest := parts.Keys;
      while rest != {}
        invariant rest <= parts.Keys
        invariant forall p :: p in names <==> p in parts && p !in rest && prefix <= p
        invariant Distinct(names)
        decreases |rest|
      {
        if forall p :: p !in rest {
          assert false;
        }
        var p :| p in rest;
        if prefix <= p {
          names := names + [p];
        }
        rest := rest - {p};
      }
    }

    method Read(path: string) returns (bytes: Option<Bytes>)
      ensures bytes == if path in parts then Some(parts[path]) else None
    {
      bytes := if path in parts then Some(parts[path]) else None;
    }

    method Write(path: string, bytes: Bytes)
      modifies this`parts, this`history
      ensures parts == old(parts)[path := bytes] && history == old(history) + [parts]
    {
      parts := parts[path := bytes];
      history := history + [parts];
    }

    method Delete(path: string) returns (ok: bool)
      modifies this`parts, this`history, this`refusals, this`deletions
      ensures parts == (if ok then old(parts) - {path} else old(parts)) && history == old(history) + [parts]
      ensures refusals == old(refusals) + if ok then 0 else 1
      ensures ok == !refuses(old(deletions), path)
    {
      ok := !refuses(deletions, path);
      deletions := deletions + 1;
      if ok {
        parts := parts - {path};
      } else {
        refusals := refusals + 1;
      }
      history := history + [parts];
    }
  }

  ghost predicate Distinct(names: seq<string>) {
    forall i, j :: 0 <= i < j < |names| ==> names[i] != names[j]
  }

  /** A store a write passes through: some of the buffers in, or finished. */
  ghost predicate WriteState(c: Codec, parts: Parts, path: string, exported: seq<Bytes>, width: int, height: int,
                             baked: string, s: Parts)
    requires |exported| > 0
  {
    || (exists k :: 0 <= k <= |exported| && s == Stored(c, parts, exported[..k]))
    || s == Written(c, parts, path, exported, width, height, baked)
  }

  /** `after` continues `before` with stores that a write to `parts` passes through. */
  ghost predicate Writing(c: Codec, parts: Parts, path: string, exported: seq<Bytes>, width: int, height: int,
                          baked: string, before: seq<Parts>, after: seq<Parts>)
    requires |exported| > 0
  {
    && |before| <= |after| && after[..|before|] == before
    && forall i :: |before| <= i < |after| ==> WriteState(c, parts, path, exported, width, height, baked, after[i])
  }

  lemma WritingMore(c: Codec, parts: Parts, path: string, exported: seq<Bytes>, width: int, height: int, baked: string,
                    k: nat, before: seq<Parts>, after: seq<Parts>)
    requires 0 <= k <= |exported| && |exported| > 0
    requires Writing(c, parts, path, exported, width, height, baked, before, after)
    ensures Writing(c, parts, path, exported, width, height, baked, before, after + [Stored(c, parts, exported[..k])])
    ensures Writing(c, parts, path, exported, width, height, baked, before,
                    after + [Written(c, parts, path, exported, width, height, baked)])
  {
  }

  lemma NothingWritten(c: Codec, parts: Parts, path: string, exported: seq<Bytes>, width: int, height: int,
                       baked: string, before: seq<Parts>)
    requires |exported| > 0
    ensures Writing(c, parts, path, exported, width, height, baked, before, before)
  {
  }

  /** The names gathered so far are those of the buffers in the store. */
  ghost predicate Knows(have: set<string>, parts: Parts) {
    forall h :: BlobPath(h) in have <==> BlobPath(h) in parts
  }

  lemma KnowsMore(have: set<string>, parts: Parts, h: string, b: Bytes)
    requires Knows(have, parts)
    ensures BlobPath(h) in have <==> BlobPath(h) in parts
    ensures Knows(have + {BlobPath(h)}, parts[BlobPath(h) := b])
  {
    hide BlobPath;
  }

  lemma KnowsListed(listed: seq<string>, parts: Parts)
    requires forall p :: p in listed <==> p in parts && "px/" <= p
    ensures Knows((set p | p in listed), parts)
  {
    FoldersDiffer("");
    hide BlobPath;
  }

  lemma StoredNext(c: Codec, parts: Parts, exported: seq<Bytes>, i: nat)
    requires i < |exported|
    ensures var before, p := Stored(c, parts, exported[..i]), BlobPath(c.sha(exported[i]));
            Stored(c, parts, exported[..i + 1]) == if p in before then before else before[p := exported[i]]
  {
    hide BlobPath;
    assert exported[..i + 1][..i] == exported[..i];
  }

  method HashAll(c: Codec, exported: seq<Bytes>) returns (hashes: seq<string>)
    ensures hashes == Hashes(c, exported)
  {
    hashes := [];
    for i := 0 to |exported|
      invariant hashes == Hashes(c, exported)[..i]
    {
      hashes := hashes + [c.sha(exported[i])];
    }
  }

  /** Buffer i, written under its hash unless that name is known. */
  method PutBuffer(store: PartStore, c: Codec, hash: string, exported: seq<Bytes>, i: nat, have: set<string>,
                   ghost start: Parts, ghost path: string, ghost width: int, ghost height: int, ghost baked: string,
                   ghost before: seq<Parts>)
    returns (known: set<string>, added: nat)
    requires i < |exported| && hash == c.sha(exported[i])
    requires store.parts == Stored(c, start, exported[..i]) && Knows(have, store.parts)
    requires Writing(c, start, path, exported, width, height, baked, before, store.history)
    modifies store`parts, store`history
    ensures store.parts == Stored(c, start, exported[..i + 1]) && Knows(known, store.parts)
    ensures added == |store.parts| - |old(store.parts)|
    ensures Writing(c, start, path, exported, width, height, baked, before, store.history)
  {
    hide BlobPath, Writing, Stored, Knows;
    StoredNext(c, start, exported, i);
    KnowsMore(have, store.parts, hash, exported[i]);
    known, added := have, 0;
    var p := BlobPath(hash);
    if p !in have {
      WritingMore(c, start, path, exported, width, height, baked, i + 1, before, store.history);
      store.Write(p, exported[i]);
      known, added := have + {p}, 1;
    }
  }

  /** Every buffer not already stored, then the record. */
  method WriteSession(store: PartStore, c: Codec, frame: string, rev: nat, exported: seq<Bytes>,
                      width: int, height: int, baked: string) returns (path: string, written: nat)
    requires |exported| > 0
    modifies store`parts, store`history
    ensures path == RecordPath(frame, rev)
    ensures store.parts == Written(c, old(store.parts), path, exported, width, height, baked)
    ensures Lawful(c) ==>
              && path in store.parts && c.decode(store.parts[path]).Some?
              && Describes(c, c.decode(store.parts[path]).value, exported, width, height, baked)
    ensures written == |Stored(c, old(store.parts), exported)| - |old(store.parts)|
    ensures Writing(c, old(store.parts), path, exported, width, height, baked, old(store.history), store.history)
  {
    hide BlobPath, RecordPath, Writing, Knows;
    var listed := store.List("px/");
    KnowsListed(listed, store.parts);
    var have := set p | p in listed;
    path := RecordPath(frame, rev);
    var hashes := HashAll(c, exported);
    written := 0;
    NothingWritten(c, store.parts, path, exported, width, height, baked, store.history);
    var i := 0;
    while i < |exported|
      invariant 0 <= i <= |exported| && store.parts == Stored(c, old(store.parts), exported[..i])
      invariant Knows(have, store.parts) && written == |store.parts| - |old(store.parts)|
      invariant Writing(c, old(store.parts), path, exported, width, height, baked, old(store.history), store.history)
    {
      var added: nat;
      have, added := PutBuffer(store, c, hashes[i], exported, i, have, old(store.parts), path, width, height, baked,
                               old(store.history));
      written := written + added;
      i := i + 1;
    }
    assert exported[..i] == exported;
    var record := Record(1, width, height, hashes[0], hashes[1..], baked);
    WritingMore(c, old(store.parts), path, exported, width, height, baked, i, old(store.history), store.history);
    store.Write(path, c.encode(record));
    OneRecordDescribes(c, record, exported, width, height, baked);
  }

  /** Reads a session back, each buffer checked against its hash. */
  method ReadBack(store: PartStore, c: Codec, path: string) returns (s: Session)
    ensures s == ReadSession(c, store.parts, path)
  {
    hide BlobPath;
    var raw := store.Read(path);
    if raw.None? {
      return Refused(Missing);
    }
    var decoded := c.decode(raw.value);
    if decoded.None? {
      return Refused(NotReadable);
    }
    var record := decoded.value;
    if record.v != 1 {
      return Refused(OtherVersion(record.v));
    }
    var manifest := FetchOne(store, c, record.manifest);
    if manifest.Lost? {
      return Refused(manifest.reason);
    }
    var buffers := [];
    var i := 0;
    while i < |record.buffers|
      invariant 0 <= i <= |record.buffers| && FetchAll(c, store.parts, record.buffers[..i]) == GotAll(buffers)
    {
      assert record.buffers[..i + 1][..i] == record.buffers[..i];
      var b := FetchOne(store, c, record.buffers[i]);
      if b.Lost? {
        LostStaysLost(c, store.parts, record.buffers, i + 1, b.reason);
        return Refused(b.reason);
      }
      buffers := buffers + [b.bytes];
      i := i + 1;
    }
    assert record.buffers[..i] == record.buffers;
    return Loaded(record, manifest.bytes, buffers);
  }

  method FetchOne(store: PartStore, c: Codec, sha: string) returns (f: Fetched)
    ensures f == Fetch(c, store.parts, sha)
  {
    var b := store.Read(BlobPath(sha));
    if b.None? {
      return Lost(LayerMissing(sha));
    }
    if c.sha(b.value) != sha {
      return Lost(LayerDamaged(sha));
    }
    return Got(b.value);
  }

  lemma {:induction false} LostStaysLost(c: Codec, parts: Parts, hs: seq<string>, k: nat, reason: Reason)
    requires k <= |hs| && FetchAll(c, parts, hs[..k]) == LostOne(reason)
    ensures FetchAll(c, parts, hs) == LostOne(reason)
    decreases |hs|
  {
    if k < |hs| {
      assert hs[..|hs| - 1][..k] == hs[..k];
      LostStaysLost(c, parts, hs[..|hs| - 1], k, reason);
    } else {
      assert hs[..k] == hs;
    }
  }

  /** The buffers some record names, as far as it can be read. */
  method LiveBuffers(store: PartStore, c: Codec) returns (live: set<string>)
    ensures forall p :: p in live <==> IsLive(c, store.parts, p)
  {
    hide BlobPath, EndsWith, NamedIn, IsLive, BlobsOf;
    live := {};
    var names := store.List("f/");
    var k := 0;
    NothingNamed(c, store.parts, names[..0]);
    while k < |names|
      invariant 0 <= k <= |names|
      invariant forall p :: p in live <==> NamedIn(c, store.parts, names[..k], p)
    {
      assert names[..k + 1] == names[..k] + [names[k]];
      NamedInStep(c, store.parts, names[..k], names[k]);
      NoBlobs();
      if EndsWith(names[k], JSON) {
        var raw := store.Read(names[k]);
        if raw.Some? {
          live := live + BlobsOf(HashesIn(c, raw.value));
        }
      }
      k := k + 1;
    }
    assert names[..k] == names;
    forall p ensures IsLive(c, store.parts, p) <==> NamedIn(c, store.parts, names, p) {
      LiveIsNamed(c, store.parts, names, p);
    }
  }

  function BlobsOf(hs: seq<string>): (s: set<string>)
    ensures forall p :: p in s <==> exists h :: h in hs && p == BlobPath(h)
  {
    set h | h in hs :: BlobPath(h)
  }

  lemma NoBlobs()
    ensures BlobsOf([]) == {}
  {
  }

  /** Some record among `names` names the buffer at p. */
  ghost predicate NamedIn(c: Codec, parts: Parts, names: seq<string>, p: string) {
    exists k :: 0 <= k < |names| && p in BlobsOf(KeptBy(c, parts, names[k]))
  }

  lemma NothingNamed(c: Codec, parts: Parts, names: seq<string>)
    requires names == []
    ensures forall p :: !NamedIn(c, parts, names, p)
  {
  }

  lemma NamedInStep(c: Codec, parts: Parts, names: seq<string>, n: string)
    ensures forall p ::
              NamedIn(c, parts, names + [n], p) <==> NamedIn(c, parts, names, p) || p in BlobsOf(KeptBy(c, parts, n))
  {
    hide KeptBy, BlobsOf;
    var more := names + [n];
    forall p ensures NamedIn(c, parts, more, p) <==> NamedIn(c, parts, names, p) || p in BlobsOf(KeptBy(c, parts, n)) {
      if p in BlobsOf(KeptBy(c, parts, n)) {
        assert more[|names|] == n;
      }
      if NamedIn(c, parts, names, p) {
        var k :| 0 <= k < |names| && p in BlobsOf(KeptBy(c, parts, names[k]));
        assert more[k] == names[k];
      }
    }
  }

  lemma LiveIsNamed(c: Codec, parts: Parts, names: seq<string>, p: string)
    requires forall q :: q in names <==> q in parts && "f/" <= q
    ensures IsLive(c, parts, p) <==> NamedIn(c, parts, names, p)
  {
    hide BlobPath, HashesIn, EndsWith;
    if IsLive(c, parts, p) {
      var q, h :| h in KeptBy(c, parts, q) && p == BlobPath(h);
      assert q in names;
      var k :| 0 <= k < |names| && names[k] == q;
      assert p in BlobsOf(KeptBy(c, parts, names[k]));
    }
    if NamedIn(c, parts, names, p) {
      var k :| 0 <= k < |names| && p in BlobsOf(KeptBy(c, parts, names[k]));
      var h :| h in KeptBy(c, parts, names[k]) && p == BlobPath(h);
    }
  }

  ghost function Picked(names: seq<string>, test: string -> bool): set<string> {
    set p | p in names && test(p)
  }

  /** Dropping any of `doomed` from a store part-way through a collection stays within the collection. */
  ghost predicate MayGo(c: Codec, start: Parts, parts: Parts, dir: string, cutoff: int, doomed: set<string>) {
    forall d :: d <= doomed ==> CollectStep(c, start, parts - d, dir, cutoff)
  }

  /** `after` continues `before` with stores that a collection of `start` may pass through. */
  ghost predicate Collecting(c: Codec, start: Parts, dir: string, cutoff: int, before: seq<Parts>, after: seq<Parts>) {
    && |before| <= |after| && after[..|before|] == before
    && forall i :: |before| <= i < |after| ==> CollectStep(c, start, after[i], dir, cutoff)
  }

  lemma CollectingMore(c: Codec, start: Parts, parts: Parts, dir: string, cutoff: int, doomed: set<string>,
                       d: set<string>,
                       before: seq<Parts>, after: seq<Parts>)
    requires Collecting(c, start, dir, cutoff, before, after) && MayGo(c, start, parts, dir, cutoff, doomed)
             && d <= doomed
    ensures Collecting(c, start, dir, cutoff, before, after + [parts - d])
  {
  }

  /** One deletion of a collection under way, which the host may turn down. */
  method DropOne(store: PartStore, c: Codec, name: string, ghost before: Parts, ghost deleted: set<string>,
                 ghost doomed: set<string>,
                 ghost start: Parts, ghost dir: string, ghost cutoff: int, ghost h0: seq<Parts>) returns (ok: bool)
    requires store.parts == before - deleted && deleted + {name} <= doomed
             && MayGo(c, start, before, dir, cutoff, doomed)
    requires Collecting(c, start, dir, cutoff, h0, store.history)
    modifies store`parts, store`history, store`refusals, store`deletions
    ensures store.parts == before - (if ok then deleted + {name} else deleted)
    ensures store.refusals == old(store.refusals) + if ok then 0 else 1
    ensures Collecting(c, start, dir, cutoff, h0, store.history)
  {
    hide MayGo, Collecting;
    ghost var history := store.history;
    ok := store.Delete(name);
    DropMore(before, deleted, name);
    CollectingMore(c, start, before, dir, cutoff, doomed, if ok then deleted + {name} else deleted, h0, history);
  }

  /** Deletes the listed parts the test picks; those the host turns down stay. `deleted` is what went. */
  method Sweep(store: PartStore, c: Codec, names: seq<string>, test: string -> bool,
               ghost start: Parts, ghost dir: string, ghost cutoff: int)
    returns (gone: nat, ghost deleted: set<string>)
    requires Distinct(names)
    requires MayGo(c, start, store.parts, dir, cutoff, Picked(names, test))
    modifies store`parts, store`history, store`refusals, store`deletions
    ensures store.parts == old(store.parts) - deleted && deleted <= Picked(names, test) && gone == |deleted|
    ensures store.refusals >= old(store.refusals)
    ensures store.refusals == old(store.refusals) ==> deleted == Picked(names, test)
    ensures Collecting(c, start, dir, cutoff, old(store.history), store.history)
  {
    hide MayGo, Collecting, Picked, Distinct;
    gone, deleted := 0, {};
    var k := 0;
    ghost var before, picked, all := store.parts, {}, Picked(names, test);
    NothingYet(c, start, dir, cutoff, store.history, names, test);
    assert store.parts == before - deleted;
    while k < |names|
      invariant 0 <= k <= |names| && picked == Picked(names[..k], test)
      invariant store.parts == before - deleted && deleted <= picked && gone == |deleted|
      invariant store.refusals >= old(store.refusals)
      invariant store.refusals == old(store.refusals) ==> deleted == picked
      invariant Collecting(c, start, dir, cutoff, old(store.history), store.history)
    {
      PickNext(names, test, k);
      if test(names[k]) {
        var ok := DropOne(store, c, names[k], before, deleted, all, start, dir, cutoff, old(store.history));
        picked := picked + {names[k]};
        if ok {
          assert |deleted + {names[k]}| == |deleted| + 1;
          gone, deleted := gone + 1, deleted + {names[k]};
        }
      }
      k := k + 1;
    }
    assert names[..k] == names;
  }

  lemma NothingYet(c: Codec, start: Parts, dir: string, cutoff: int, history: seq<Parts>, names: seq<string>,
                   test: string -> bool)
    ensures Collecting(c, start, dir, cutoff, history, history)
    ensures Picked(names[..0], test) == {}
  {
  }

  lemma DropMore(parts: Parts, d: set<string>, p: string)
    ensures parts - d - {p} == parts - (d + {p})
  {
  }

  lemma PickNext(names: seq<string>, test: string -> bool, k: nat)
    requires k < |names| && Distinct(names)
    ensures Picked(names[..k + 1], test) == Picked(names[..k], test) + (if test(names[k]) then {names[k]} else {})
    ensures names[k] !in Picked(names[..k], test) && Picked(names[..k + 1], test) <= Picked(names, test)
  {
  }

  ghost function ExpiredIn(parts: Parts, dir: string, cutoff: int): set<string> {
    set p | p in parts && Expired(p, dir, cutoff)
  }

  ghost function UnnamedIn(c: Codec, parts: Parts): set<string> {
    set p | p in parts && "px/" <= p && !IsLive(c, parts, p)
  }

  /** The first half: this frame's records with a revision at or below the cutoff. */
  method CollectRecords(store: PartStore, c: Codec, dir: string, cutoff: int)
    returns (records: nat, ghost gone: set<string>)
    modifies store`parts, store`history, store`refusals, store`deletions
    ensures store.parts == old(store.parts) - gone && records == |gone|
            && gone <= ExpiredIn(old(store.parts), dir, cutoff)
    ensures store.refusals >= old(store.refusals)
    ensures store.refusals == old(store.refusals) ==> gone == ExpiredIn(old(store.parts), dir, cutoff)
    ensures Collecting(c, old(store.parts), dir, cutoff, old(store.history), store.history)
  {
    hide CollectStep, MayGo, Collecting, RevOf;
    var listed := store.List(dir);
    var expired := (path: string) => RevOf(path).Some? && RevOf(path).value <= cutoff;
    assert Picked(listed, expired) == ExpiredIn(store.parts, dir, cutoff);
    ExpiredMayGo(c, store.parts, dir, cutoff);
    records, gone := Sweep(store, c, listed, expired, store.parts, dir, cutoff);
  }

  /** The second half: every stored buffer that no remaining record, of any frame, names. */
  method CollectBuffers(store: PartStore, c: Codec, ghost start: Parts, dir: string, cutoff: int,
                        ghost gone1: set<string>)
    returns (buffers: nat, ghost gone: set<string>)
    requires store.parts == start - gone1 && gone1 <= ExpiredIn(start, dir, cutoff)
    modifies store`parts, store`history, store`refusals, store`deletions
    ensures store.parts == old(store.parts) - gone && buffers == |gone| && gone <= UnnamedIn(c, old(store.parts))
    ensures store.refusals >= old(store.refusals)
    ensures store.refusals == old(store.refusals) ==> gone == UnnamedIn(c, old(store.parts))
    ensures Collecting(c, start, dir, cutoff, old(store.history), store.history)
  {
    hide CollectStep, MayGo, Collecting, ExpiredIn, IsLive;
    var live := LiveBuffers(store, c);
    var listed := store.List("px/");
    var unnamed := (path: string) => path !in live;
    assert Picked(listed, unnamed) == UnnamedIn(c, store.parts);
    UnnamedMayGo(c, start, store.parts, dir, cutoff, gone1);
    buffers, gone := Sweep(store, c, listed, unnamed, start, dir, cutoff);
  }

  ghost function PartCount(parts: Parts): nat {
    |parts|
  }

  /** This frame's records older than its newest `keep`, then every buffer no remaining record names. */
  method CollectGarbage(store: PartStore, c: Codec, frame: string, rev: nat, keep: nat)
    returns (records: nat, buffers: nat)
    modifies store`parts, store`history, store`refusals, store`deletions
    ensures CollectStep(c, old(store.parts), store.parts, FrameDir(frame), rev - keep)
    ensures store.refusals == old(store.refusals) ==>
              store.parts == Collected(c, old(store.parts), FrameDir(frame), rev - keep)
    ensures PartCount(old(store.parts)) == PartCount(store.parts) + records + buffers
    ensures Collecting(c, old(store.parts), FrameDir(frame), rev - keep, old(store.history), store.history)
  {
    hide CollectStep, MayGo, Collecting, Collected, ExpiredIn, UnnamedIn, FrameDir, Sanitize, PartCount;
    var dir, cutoff := FrameDir(frame), rev - keep;
    ghost var start, gone1, gone2 := store.parts, {}, {};
    records, gone1 := CollectRecords(store, c, dir, cutoff);
    ghost var kept, history := store.parts, store.history;
    buffers, gone2 := CollectBuffers(store, c, start, dir, cutoff, gone1);
    ghost var end := store.parts;
    CollectEnds(c, start, kept, end, dir, cutoff, gone1, gone2, old(store.history), history, store.history);
    if store.refusals == old(store.refusals) {
      AllDropped(c, start, kept, dir, cutoff, gone1, gone2);
    }
  }

  lemma CollectEnds(c: Codec, start: Parts, kept: Parts, end: Parts, dir: string, cutoff: int,
                    gone1: set<string>, gone2: set<string>, h0: seq<Parts>, h1: seq<Parts>, h2: seq<Parts>)
    requires kept == start - gone1 && end == kept - gone2 && gone1 <= ExpiredIn(start, dir, cutoff)
             && gone2 <= UnnamedIn(c, kept)
    requires Collecting(c, start, dir, cutoff, h0, h1) && Collecting(c, start, dir, cutoff, h1, h2)
    ensures CollectStep(c, start, end, dir, cutoff) && Collecting(c, start, dir, cutoff, h0, h2)
    ensures PartCount(start) == PartCount(end) + |gone1| + |gone2|
  {
    hide Collecting, Expired, IsLive, CollectStep;
    DropCount(start, gone1);
    DropCount(kept, gone2);
    CollectingJoins(c, start, dir, cutoff, h0, h1, h2);
    UnnamedMayGo(c, start, kept, dir, cutoff, gone1);
  }

  lemma CollectingJoins(c: Codec, start: Parts, dir: string, cutoff: int, h0: seq<Parts>, h1: seq<Parts>,
                        h2: seq<Parts>)
    requires Collecting(c, start, dir, cutoff, h0, h1) && Collecting(c, start, dir, cutoff, h1, h2)
    ensures Collecting(c, start, dir, cutoff, h0, h2)
  {
  }

  lemma DropCount(parts: Parts, gone: set<string>)
    requires gone <= parts.Keys
    ensures |parts - gone| + |gone| == |parts|
  {
  }

  lemma ExpiredMayGo(c: Codec, start: Parts, dir: string, cutoff: int)
    ensures MayGo(c, start, start, dir, cutoff, ExpiredIn(start, dir, cutoff))
  {
  }

  lemma UnnamedMayGo(c: Codec, start: Parts, kept: Parts, dir: string, cutoff: int, gone1: set<string>)
    requires kept == start - gone1 && gone1 <= ExpiredIn(start, dir, cutoff)
    ensures MayGo(c, start, kept, dir, cutoff, UnnamedIn(c, kept))
  {
    hide Expired, IsLive;
    forall d | d <= UnnamedIn(c, kept) ensures CollectStep(c, start, kept - d, dir, cutoff) {
      forall p ensures IsLive(c, kept - d, p) <==> IsLive(c, kept, p) {
        forall q | "f/" <= q ensures (q in kept - d <==> q in kept) && (q in kept - d ==> (kept - d)[q] == kept[q]) {
          FoldersDiffer(q);
        }
        SameLive(c, kept - d, kept, p);
      }
    }
  }

  lemma AllDropped(c: Codec, start: Parts, kept: Parts, dir: string, cutoff: int, gone1: set<string>,
                   gone2: set<string>)
    requires kept == start - gone1 && gone1 == ExpiredIn(start, dir, cutoff) && gone2 == UnnamedIn(c, kept)
    ensures kept - gone2 == Collected(c, start, dir, cutoff)
  {
    hide Expired, IsLive;
    var k := map p | p in start && !Expired(p, dir, cutoff) :: start[p];
    assert k == kept;
  }
}
