/** Runs of commits, each a write followed by a collection that keeps the newest revisions. */
module SessionRuns {
  import opened Basics
  import opened PartPaths
  import opened SessionParts
  import opened SessionStore

  /** How a commit ends: with its record marked in the document and old revisions collected; with the marker refused
      after the record was written; or with a write refused after the first k buffers. */
  datatype Ending = Completed | Unmarked | Cut(k: nat)

  /** One commit of a frame's session at a revision. */
  datatype Commit = Commit(frame: string, rev: nat, exported: seq<Bytes>, width: int, height: int, baked: string,
                           ending: Ending) {
    function Path(): string {
      RecordPath(frame, rev)
    }

    function Stored(c: Codec): Record
      requires |exported| > 0
    {
      RecordFor(c, exported, width, height, baked)
    }

    function After(c: Codec, parts: Parts): Parts
      requires |exported| > 0
    {
      Written(c, parts, Path(), exported, width, height, baked)
    }
  }

  predicate SameFrame(a: Commit, b: Commit) {
    Sanitize(a.frame) == Sanitize(b.frame)
  }

  /** What a commit that is not completed leaves behind. */
  ghost predicate Abandoned(c: Codec, before: Parts, m: Commit, after: Parts) {
    && |m.exported| > 0
    && match m.ending
       case Completed => false
       case Unmarked => after == m.After(c, before)
       case Cut(k) => k <= |m.exported| && after == SessionParts.Stored(c, before, m.exported[..k])
  }

  /** A commit whose collection may have been refused some deletions. */
  ghost predicate CommitStep(c: Codec, before: Parts, m: Commit, after: Parts, keep: nat) {
    if m.ending.Completed? then
      |m.exported| > 0 && CollectStep(c, m.After(c, before), after, FrameDir(m.frame), m.rev - keep)
    else Abandoned(c, before, m, after)
  }

  /** A commit whose collection was refused nothing. */
  ghost predicate CleanCommitStep(c: Codec, before: Parts, m: Commit, after: Parts, keep: nat) {
    if m.ending.Completed? then
      |m.exported| > 0 && after == Collected(c, m.After(c, before), FrameDir(m.frame), m.rev - keep)
    else Abandoned(c, before, m, after)
  }

  /** Writes a revision and, once the document has taken its marker, collects, as a commit to the document does. */
  method CommitToDocument(store: PartStore, c: Codec, m: Commit, keep: nat)
    requires |m.exported| > 0 && Lawful(c) && !m.ending.Cut?
    modifies store`parts, store`history, store`refusals, store`deletions
    ensures CommitStep(c, old(store.parts), m, store.parts, keep)
    ensures store.refusals == old(store.refusals) ==> CleanCommitStep(c, old(store.parts), m, store.parts, keep)
    ensures Healthy(c, old(store.parts)) ==>
              && |old(store.history)| <= |store.history| && store.history[..|old(store.history)|] == old(store.history)
              && forall i :: |old(store.history)| <= i < |store.history| ==> Healthy(c, store.history[i])
  {
    hide CollectStep, Written, Collected, RecordPath, FrameDir, Healthy, Writing, Collecting;
    ghost var parts0, history0 := store.parts, store.history;
    var path, _ := WriteSession(store, c, m.frame, m.rev, m.exported, m.width, m.height, m.baked);
    ghost var parts1, history1 := store.parts, store.history;
    if m.ending.Unmarked? {
      if Healthy(c, parts0) {
        HealthyWrite(c, parts0, m, history0, history1);
      }
      return;
    }
    var _, _ := CollectGarbage(store, c, m.frame, m.rev, keep);
    if Healthy(c, parts0) {
      HealthyThroughout(c, parts0, m, parts1, keep, history0, history1, store.history);
    }
  }

  /** At every store a write passes through, each readable record has its buffers. */
  lemma HealthyWrite(c: Codec, parts: Parts, m: Commit, h0: seq<Parts>, h1: seq<Parts>)
    requires Lawful(c) && Healthy(c, parts) && |m.exported| > 0
    requires Writing(c, parts, m.Path(), m.exported, m.width, m.height, m.baked, h0, h1)
    ensures |h0| <= |h1| && h1[..|h0|] == h0 && forall i :: |h0| <= i < |h1| ==> Healthy(c, h1[i])
  {
    hide Written, Healthy, RecordPath, SessionParts.Stored;
    RecordPathShape(m.frame, m.rev);
    WriteKeepsHealthy(c, parts, m.Path(), m.exported, m.width, m.height, m.baked);
    forall i | |h0| <= i < |h1| ensures Healthy(c, h1[i]) {
      if h1[i] != m.After(c, parts) {
        var k :| 0 <= k <= |m.exported| && h1[i] == SessionParts.Stored(c, parts, m.exported[..k]);
        StoredKeepsHealthy(c, parts, m.exported[..k]);
      }
    }
  }

  /** At every store a commit passes through, each readable record has its buffers. */
  lemma HealthyThroughout(c: Codec, parts: Parts, m: Commit, written: Parts, keep: nat,
                          h0: seq<Parts>, h1: seq<Parts>, h2: seq<Parts>)
    requires Lawful(c) && Healthy(c, parts) && |m.exported| > 0 && written == m.After(c, parts)
    requires Writing(c, parts, m.Path(), m.exported, m.width, m.height, m.baked, h0, h1)
    requires Collecting(c, written, FrameDir(m.frame), m.rev - keep, h1, h2)
    ensures |h0| <= |h2| && h2[..|h0|] == h0 && forall i :: |h0| <= i < |h2| ==> Healthy(c, h2[i])
  {
    hide CollectStep, Written, Healthy, RecordPath, FrameDir, Writing;
    RecordPathShape(m.frame, m.rev);
    HealthyWrite(c, parts, m, h0, h1);
    WriteKeepsHealthy(c, parts, m.Path(), m.exported, m.width, m.height, m.baked);
    assert forall i :: 0 <= i < |h1| ==> h2[i] == h2[..|h1|][i] == h1[i];
    assert forall i :: 0 <= i < |h0| ==> h1[i] == h1[..|h0|][i] == h0[i];
    forall i | |h1| <= i < |h2| ensures Healthy(c, h2[i]) {
      CollectKeepsHealthy(c, written, h2[i], FrameDir(m.frame), m.rev - keep);
    }
  }

  // ---- runs ----------------------------------------------------------------------------------

  /** states[k + 1] is what commits[k] makes of states[k]. */
  ghost predicate Run(c: Codec, states: seq<Parts>, commits: seq<Commit>, keep: nat) {
    && |states| == |commits| + 1
    && forall k :: 0 <= k < |commits| ==> CommitStep(c, states[k], commits[k], states[k + 1], keep)
  }

  ghost predicate CleanRun(c: Codec, states: seq<Parts>, commits: seq<Commit>, keep: nat) {
    && |states| == |commits| + 1
    && forall k :: 0 <= k < |commits| ==> CleanCommitStep(c, states[k], commits[k], states[k + 1], keep)
  }

  /** Commit j, completed or not, is of the frame of the completed commit i, and none of that frame was completed in
      between. */
  ghost predicate Follows(commits: seq<Commit>, i: int, j: int) {
    && 0 <= i < j < |commits| && commits[i].ending.Completed? && SameFrame(commits[i], commits[j])
    && forall l :: i < l < j ==> !Completes(commits[i], commits[l])
  }

  /** A completed commit of the same frame. */
  predicate Completes(a: Commit, m: Commit) {
    SameFrame(a, m) && m.ending.Completed?
  }

  /** A commit carries the revision after its frame's last completed one: an abandoned one's number is used again. */
  ghost predicate Numbered(commits: seq<Commit>) {
    forall i, j :: Follows(commits, i, j) ==> commits[j].rev == commits[i].rev + 1
  }

  /** How many of the commits after i and before k complete the same frame. */
  function Later(commits: seq<Commit>, i: nat, k: nat): nat
    requires i < k <= |commits|
  {
    if k == i + 1 then 0
    else Later(commits, i, k - 1) + if Completes(commits[i], commits[k - 1]) then 1 else 0
  }

  /** The last completed commit of i's frame before k. */
  function Latest(commits: seq<Commit>, i: nat, k: nat): (l: nat)
    requires i < k <= |commits| && commits[i].ending.Completed?
    ensures i <= l < k && Completes(commits[i], commits[l])
    ensures forall j :: l < j < k ==> !Completes(commits[i], commits[j])
  {
    if k == i + 1 then i
    else if Completes(commits[i], commits[k - 1]) then k - 1
    else Latest(commits, i, k - 1)
  }

  lemma {:induction false} LatestRevision(commits: seq<Commit>, i: nat, k: nat)
    requires Numbered(commits) && i < k <= |commits| && commits[i].ending.Completed?
    ensures commits[Latest(commits, i, k)].rev == commits[i].rev + Later(commits, i, k)
  {
    hide Sanitize;
    if k > i + 1 {
      LatestRevision(commits, i, k - 1);
      var l := Latest(commits, i, k - 1);
      if Completes(commits[i], commits[k - 1]) {
        assert Follows(commits, l, k - 1);
      }
    }
  }

  /** A later commit of a completed one's frame has a revision higher by one more than the completed ones between. */
  lemma RevisionGap(commits: seq<Commit>, i: nat, j: nat)
    requires Numbered(commits) && i < j < |commits| && SameFrame(commits[i], commits[j]) && commits[i].ending.Completed?
    ensures commits[j].rev == commits[i].rev + Later(commits, i, j) + 1
  {
    hide Sanitize;
    LatestRevision(commits, i, j);
    assert Follows(commits, Latest(commits, i, j), j);
  }

  lemma StepStaysHealthy(c: Codec, before: Parts, m: Commit, after: Parts, keep: nat)
    requires Lawful(c) && CommitStep(c, before, m, after, keep) && Healthy(c, before)
    ensures Healthy(c, after)
  {
    hide CollectStep, Written, Healthy, RecordPath, FrameDir;
    RecordPathShape(m.frame, m.rev);
    WriteKeepsHealthy(c, before, m.Path(), m.exported, m.width, m.height, m.baked);
    match m.ending
    case Completed => CollectKeepsHealthy(c, m.After(c, before), after, FrameDir(m.frame), m.rev - keep);
    case Unmarked =>
    case Cut(k) => StoredKeepsHealthy(c, before, m.exported[..k]);
  }

  lemma {:induction false} RunStaysHealthy(c: Codec, states: seq<Parts>, commits: seq<Commit>, keep: nat, k: nat)
    requires Lawful(c) && Run(c, states, commits, keep) && Healthy(c, states[0]) && k < |states|
    ensures Healthy(c, states[k])
  {
    hide CommitStep, Healthy;
    if k > 0 {
      RunStaysHealthy(c, states, commits, keep, k - 1);
      StepStaysHealthy(c, states[k - 1], commits[k - 1], states[k], keep);
    }
  }

  /** A record survives every commit of another revision that is not completed `keep` or more revisions ahead of it
      in its own frame. */
  lemma RecordSurvives(c: Codec, before: Parts, m: Commit, after: Parts, keep: nat, frame: string, rev: nat)
    requires Lawful(c) && CommitStep(c, before, m, after, keep) && RecordPath(frame, rev) in before
    requires Sanitize(frame) == Sanitize(m.frame) ==> rev != m.rev && (m.ending.Completed? ==> m.rev - keep < rev)
    ensures RecordPath(frame, rev) in after && after[RecordPath(frame, rev)] == before[RecordPath(frame, rev)]
  {
    hide RecordPath, RevOf, IsLive, FrameDir, SessionParts.Stored;
    var p := RecordPath(frame, rev);
    RecordPathShape(frame, rev);
    RevOfRecordPath(frame, rev);
    FoldersDiffer(p);
    StoredParts(c, before, m.exported);
    if p == m.Path() {
      RecordPathInjective(frame, rev, m.frame, m.rev);
    }
    if FrameDir(m.frame) <= p {
      FrameDirOfRecord(frame, rev, m.frame);
    }
    if m.ending.Cut? {
      StoredParts(c, before, m.exported[..m.ending.k]);
    }
  }

  lemma FreshRecord(c: Codec, before: Parts, m: Commit, after: Parts, keep: nat)
    requires CommitStep(c, before, m, after, keep) && keep > 0 && m.ending.Completed?
    ensures m.Path() in after && after[m.Path()] == c.encode(m.Stored(c))
  {
    hide RecordPath, RevOf, IsLive, FrameDir, SessionParts.Stored;
    RecordPathShape(m.frame, m.rev);
    RevOfRecordPath(m.frame, m.rev);
    FoldersDiffer(m.Path());
  }

  lemma {:induction false} RecordKept(c: Codec, states: seq<Parts>, commits: seq<Commit>, keep: nat, i: nat, k: nat)
    requires Lawful(c) && Run(c, states, commits, keep) && Numbered(commits)
    requires i < k <= |commits| && commits[i].ending.Completed? && Later(commits, i, k) < keep
    ensures |commits[i].exported| > 0
    ensures commits[i].Path() in states[k] && states[k][commits[i].Path()] == c.encode(commits[i].Stored(c))
  {
    hide CommitStep, RecordPath, Sanitize, Numbered, RecordFor;
    assert CommitStep(c, states[k - 1], commits[k - 1], states[k], keep);
    assert CommitStep(c, states[i], commits[i], states[i + 1], keep);
    assert |commits[i].exported| > 0 by {
      StepExports(c, states[i], commits[i], states[i + 1], keep);
    }
    if k == i + 1 {
      FreshRecord(c, states[i], commits[i], states[k], keep);
    } else {
      RecordKept(c, states, commits, keep, i, k - 1);
      if SameFrame(commits[i], commits[k - 1]) {
        RevisionGap(commits, i, k - 1);
      }
      RecordSurvives(c, states[k - 1], commits[k - 1], states[k], keep, commits[i].frame, commits[i].rev);
    }
  }

  lemma StepExports(c: Codec, before: Parts, m: Commit, after: Parts, keep: nat)
    requires CommitStep(c, before, m, after, keep)
    ensures |m.exported| > 0
  {
  }

  /** After any run of commits from a healthy store, whatever deletions were refused and whatever commits were
      abandoned, a completed session that fewer than `keep` completed commits of its frame have followed reads back
      exactly as it was committed. */
  lemma NewestReadBack(c: Codec, states: seq<Parts>, commits: seq<Commit>, keep: nat, i: nat, k: nat)
    requires Lawful(c) && Run(c, states, commits, keep) && Numbered(commits) && Healthy(c, states[0])
    requires i < k <= |commits| && commits[i].ending.Completed? && Later(commits, i, k) < keep
    ensures |commits[i].exported| > 0
    ensures var m := commits[i];
            LoadedAs(c, ReadSession(c, states[k], m.Path()), m.exported, m.width, m.height, m.baked)
  {
    hide CommitStep, RecordPath, Sanitize, Numbered, RecordFor, ReadSession, Healthy, LoadedAs;
    RecordKept(c, states, commits, keep, i, k);
    RunStaysHealthy(c, states, commits, keep, k);
    RecordPathShape(commits[i].frame, commits[i].rev);
    HealthyReadsBack(c, states[k], commits[i].Path(), commits[i].exported, commits[i].width, commits[i].height,
                     commits[i].baked);
    LoadedAsCommitted(c, ReadSession(c, states[k], commits[i].Path()), commits[i].exported, commits[i].width,
                      commits[i].height, commits[i].baked);
  }

  /** In a healthy store a record reads back as the buffers whose hashes it was made from. */
  lemma HealthyReadsBack(c: Codec, parts: Parts, path: string, exported: seq<Bytes>, width: int, height: int,
                         baked: string)
    requires Lawful(c) && Healthy(c, parts) && |exported| > 0 && "f/" <= path && EndsWith(path, JSON)
    requires path in parts && parts[path] == c.encode(RecordFor(c, exported, width, height, baked))
    ensures ReadSession(c, parts, path) == Loaded(RecordFor(c, exported, width, height, baked), exported[0],
                                                  exported[1..])
  {
    hide BlobPath, Names, EndsWith, FetchAll;
    var r, hs := RecordFor(c, exported, width, height, baked), Hashes(c, exported);
    NamesOfWritten(c, exported, width, height, baked);
    assert RecordIn(c, parts, path) == Some(r);
    forall i | 0 <= i < |exported| ensures Backed(c, parts, hs[i]) && parts[BlobPath(hs[i])] == exported[i] {
      assert hs[i] in Names(r);
    }
    FetchAllIs(c, parts, r.buffers);
    assert forall i :: 0 <= i < |r.buffers| ==> r.buffers[i] == hs[i + 1] && exported[1..][i] == exported[i + 1];
    assert FetchAll(c, parts, r.buffers).all == exported[1..];
  }

  /** When no deletion is refused, a session that `keep` completed commits of its frame have followed is gone. */
  lemma {:induction false} OldRecordGone(c: Codec, states: seq<Parts>, commits: seq<Commit>, keep: nat, i: nat, k: nat)
    requires CleanRun(c, states, commits, keep) && Numbered(commits) && Lawful(c)
    requires i < k <= |commits| && commits[i].ending.Completed? && Later(commits, i, k) >= keep > 0
    ensures commits[i].Path() !in states[k]
  {
    hide RecordPath, RevOf, Sanitize, Numbered, IsLive, Collected, Written, SessionParts.Stored;
    var m := commits[k - 1];
    var p := commits[i].Path();
    RecordPathShape(commits[i].frame, commits[i].rev);
    RevOfRecordPath(commits[i].frame, commits[i].rev);
    FoldersDiffer(p);
    assert CleanCommitStep(c, states[k - 1], m, states[k], keep);
    if SameFrame(commits[i], m) {
      RevisionGap(commits, i, k - 1);
    }
    if Completes(commits[i], m) {
      assert FrameDir(m.frame) == FrameDir(commits[i].frame) && FrameDir(m.frame) <= p;
      GoneNow(c, m.After(c, states[k - 1]), FrameDir(m.frame), m.rev - keep, p);
    } else {
      OldRecordGone(c, states, commits, keep, i, k - 1);
      StaysGone(c, states[k - 1], m, states[k], keep, commits[i].frame, commits[i].rev);
    }
  }

  /** A commit brings back no record but its own. */
  lemma StaysGone(c: Codec, before: Parts, m: Commit, after: Parts, keep: nat, frame: string, rev: nat)
    requires Lawful(c) && CleanCommitStep(c, before, m, after, keep) && RecordPath(frame, rev) !in before
    requires Sanitize(frame) == Sanitize(m.frame) ==> rev != m.rev
    ensures RecordPath(frame, rev) !in after
  {
    hide RecordPath, RevOf, Sanitize, IsLive, Collected, Written, SessionParts.Stored;
    match m.ending
    case Completed =>
      NotWritten(c, before, m, frame, rev);
      CollectedIsClean(c, m.After(c, before), FrameDir(m.frame), m.rev - keep);
    case Unmarked => NotWritten(c, before, m, frame, rev);
    case Cut(k) =>
      RecordPathShape(frame, rev);
      if RecordPath(frame, rev) in SessionParts.Stored(c, before, m.exported[..k]) {
        OnlyBuffersAdded(c, before, m.exported[..k], RecordPath(frame, rev));
      }
  }

  lemma GoneNow(c: Codec, parts: Parts, dir: string, cutoff: int, p: string)
    requires Expired(p, dir, cutoff)
    ensures p !in Collected(c, parts, dir, cutoff)
  {
  }

  lemma NotWritten(c: Codec, parts: Parts, m: Commit, frame: string, rev: nat)
    requires Lawful(c) && |m.exported| > 0 && RecordPath(frame, rev) !in parts
    requires Sanitize(frame) == Sanitize(m.frame) ==> rev != m.rev
    ensures RecordPath(frame, rev) !in m.After(c, parts)
  {
    hide RecordPath, SessionParts.Stored;
    var p := RecordPath(frame, rev);
    RecordPathShape(frame, rev);
    if p == m.Path() {
      RecordPathInjective(frame, rev, m.frame, m.rev);
    }
    if p in SessionParts.Stored(c, parts, m.exported) {
      OnlyBuffersAdded(c, parts, m.exported, p);
    }
  }

  /** A commit leaves every record outside its own frame's folder as it was. */
  lemma OtherFramesUntouched(c: Codec, before: Parts, m: Commit, after: Parts, keep: nat, p: string)
    requires Lawful(c) && CommitStep(c, before, m, after, keep) && "f/" <= p && !(FrameDir(m.frame) <= p)
    ensures p in after <==> p in before
    ensures p in before ==> after[p] == before[p]
  {
    hide RecordPath, RevOf, IsLive, FrameDir, SessionParts.Stored;
    RecordPathShape(m.frame, m.rev);
    FoldersDiffer(p);
    StoredParts(c, before, m.exported);
    if p in SessionParts.Stored(c, before, m.exported) {
      OnlyBuffersAdded(c, before, m.exported, p);
    }
    if m.ending.Cut? {
      StoredParts(c, before, m.exported[..m.ending.k]);
      if p in SessionParts.Stored(c, before, m.exported[..m.ending.k]) {
        OnlyBuffersAdded(c, before, m.exported[..m.ending.k], p);
      }
    }
  }

  /** When no deletion is refused, a completed commit leaves every buffer named by a record left, and collecting
      again deletes nothing. */
  lemma NothingLeftBehind(c: Codec, before: Parts, m: Commit, after: Parts, keep: nat)
    requires CleanCommitStep(c, before, m, after, keep) && m.ending.Completed?
    ensures CommitStep(c, before, m, after, keep)
    ensures forall p :: p in after && "px/" <= p ==> IsLive(c, after, p)
    ensures Collected(c, after, FrameDir(m.frame), m.rev - keep) == after
  {
    hide RecordPath, FrameDir, IsLive, Collected, Written, Expired;
    CollectedIsClean(c, m.After(c, before), FrameDir(m.frame), m.rev - keep);
  }
}
