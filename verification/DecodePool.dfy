/** The decode pool as a transition system: requests are numbered and posted to workers, replies and disposal
    settle them, and every request ever issued is accounted for exactly once. */
module DecodePool {
  import opened Basics

  type Bytes = seq<byte>

  /** A decoded image; `display` is the code of the display transform it went through, when that is known. */
  datatype Image = Image(width: nat, height: nat, rgba: Bytes, display: Option<nat>)

  /** What a worker posts back. */
  datatype Answer = Decoded(width: nat, height: nat, rgba: Bytes) | Failed(error: string)

  datatype Outcome = Resolved(image: Image) | Rejected(why: string)

  /** What an answer settles its request with. */
  function OutcomeOf(a: Answer): Outcome {
    match a
    case Decoded(width, height, rgba) => Resolved(Image(width, height, rgba, None))
    case Failed(error) => Rejected(error)
  }

  const DISPOSED := Rejected("decode pool disposed")

  /** Pending ids in the order they were posted. */
  datatype Worker = Worker(pending: seq<nat>, inflight: nat, terminated: bool)

  datatype Posted = Posted(worker: nat, id: nat, bytes: Bytes)

  /** A promise settled, by a reply of one worker or by disposal. */
  datatype Settled = Settled(id: nat, outcome: Outcome, from: Option<nat>)

  /** `posts` and `settled` record everything posted and settled so far; `refused` counts the calls turned away. */
  datatype Pool = Pool(workers: seq<Worker>, nextId: nat, disposed: bool, posts: seq<Posted>, settled: seq<Settled>,
                       refused: nat)

  function Fresh(n: nat): Pool
    requires n > 0
  {
    Pool(seq(n, _ => Worker([], 0, false)), 1, false, [], [], 0)
  }

  // ---- steps -----------------------------------------------------------------------------------

  function Without(s: seq<nat>, id: nat): (r: seq<nat>)
    ensures |r| <= |s|
  {
    if s == [] then [] else if s[0] == id then s[1..] else [s[0]] + Without(s[1..], id)
  }

  /** The first worker with the fewest requests in flight. */
  function LeastBusy(ws: seq<Worker>): (w: nat)
    requires |ws| > 0
    ensures w < |ws|
            && forall v :: 0 <= v < |ws| ==>
                 ws[w].inflight <= ws[v].inflight && (v < w ==> ws[w].inflight < ws[v].inflight)
  {
    if |ws| == 1 then 0
    else
      var a := LeastBusy(ws[..|ws| - 1]);
      if ws[|ws| - 1].inflight < ws[a].inflight then |ws| - 1 else a
  }

  function PostOn(p: Pool, w: nat, bytes: Bytes): (q: Pool)
    requires w < |p.workers|
    ensures |q.workers| == |p.workers|
  {
    var was := p.workers[w];
    p.(workers := p.workers[w := was.(pending := was.pending + [p.nextId], inflight := was.inflight + 1)],
       nextId := p.nextId + 1, posts := p.posts + [Posted(w, p.nextId, bytes)])
  }

  /** Whose turn it is for item i among n workers. */
  function Turn(i: nat, n: nat): (w: nat)
    requires n > 0
    ensures w < n
  {
    i % n
  }

  /** The first i items of a batch, dealt out in turn. */
  function Deal(p: Pool, items: seq<Bytes>, i: nat): (q: Pool)
    requires |p.workers| > 0 && i <= |items|
    ensures |q.workers| == |p.workers|
  {
    if i == 0 then p else PostOn(Deal(p, items, i - 1), Turn(i - 1, |p.workers|), items[i - 1])
  }

  function AllPending(ws: seq<Worker>): seq<nat> {
    if ws == [] then [] else AllPending(ws[..|ws| - 1]) + ws[|ws| - 1].pending
  }

  function Cancelled(ids: seq<nat>): (s: seq<Settled>)
    ensures |s| == |ids|
  {
    seq(|ids|, i requires 0 <= i < |ids| => Settled(ids[i], DISPOSED, None))
  }

  function Terminated(ws: seq<Worker>): (r: seq<Worker>)
    ensures |r| == |ws|
  {
    seq(|ws|, i requires 0 <= i < |ws| => Worker([], ws[i].inflight, true))
  }

  datatype Event =
    | Decode(bytes: Bytes)
    | Batch(items: seq<Bytes>)
    | Reply(worker: nat, id: nat, answer: Answer)
    | Dispose

  function DecodeStep(p: Pool, bytes: Bytes): Pool
    requires |p.workers| > 0
  {
    if p.disposed then p.(refused := p.refused + 1) else PostOn(p, LeastBusy(p.workers), bytes)
  }

  function BatchStep(p: Pool, items: seq<Bytes>): Pool
    requires |p.workers| > 0
  {
    if p.disposed then p.(refused := p.refused + 1) else Deal(p, items, |items|)
  }

  function ReplyStep(p: Pool, w: nat, id: nat, answer: Answer): Pool
    requires w < |p.workers|
  {
    var was := p.workers[w];
    if id !in was.pending then p
    else
      p.(workers := p.workers[w := was.(pending := Without(was.pending, id), inflight := Max(0, was.inflight - 1))],
         settled := p.settled + [Settled(id, OutcomeOf(answer), Some(w))])
  }

  function DisposeStep(p: Pool): Pool {
    if p.disposed then p
    else p.(disposed := true, settled := p.settled + Cancelled(AllPending(p.workers)), workers := Terminated(p.workers))
  }

  predicate Possible(p: Pool, e: Event) {
    |p.workers| > 0 && (e.Reply? ==> e.worker < |p.workers|)
  }

  function Step(p: Pool, e: Event): (q: Pool)
    requires Possible(p, e)
    ensures |q.workers| == |p.workers|
  {
    match e
    case Decode(bytes) => DecodeStep(p, bytes)
    case Batch(items) => BatchStep(p, items)
    case Reply(w, id, answer) => ReplyStep(p, w, id, answer)
    case Dispose => DisposeStep(p)
  }

  /** A run from a fresh pool of n workers. */
  predicate Arranged(n: nat, events: seq<Event>) {
    n > 0 && forall i :: 0 <= i < |events| && events[i].Reply? ==> events[i].worker < n
  }

  function Run(n: nat, events: seq<Event>): (p: Pool)
    requires Arranged(n, events)
    ensures |p.workers| == n
  {
    if events == [] then Fresh(n) else Step(Run(n, events[..|events| - 1]), events[|events| - 1])
  }

  // ---- the ledger ------------------------------------------------------------------------------

  function Ids(s: seq<Settled>): (ids: seq<nat>)
    ensures |ids| == |s|
  {
    seq(|s|, i requires 0 <= i < |s| => s[i].id)
  }

  function Issued(nextId: nat): seq<nat> {
    if nextId <= 1 then [] else Issued(nextId - 1) + [nextId - 1]
  }

  /** Every request the pool knows of, pending or settled, with multiplicity. */
  function Ledger(p: Pool): multiset<nat> {
    multiset(AllPending(p.workers)) + multiset(Ids(p.settled))
  }

  /** Requests are pending where they were posted, and a reply settles only what its worker was given. */
  predicate Owned(p: Pool) {
    && |p.posts| == p.nextId - 1
    && (forall i :: 0 <= i < |p.posts| ==> p.posts[i].id == i + 1 && p.posts[i].worker < |p.workers|)
    && (forall w, id :: 0 <= w < |p.workers| && id in p.workers[w].pending ==>
          1 <= id < p.nextId && p.posts[id - 1].worker == w)
    && (forall i :: 0 <= i < |p.settled| ==> 1 <= p.settled[i].id < p.nextId)
    && (forall i :: 0 <= i < |p.settled| && p.settled[i].from.Some? ==>
          p.posts[p.settled[i].id - 1].worker == p.settled[i].from.value)
  }

  predicate Counted(p: Pool) {
    if p.disposed then forall w :: 0 <= w < |p.workers| ==> p.workers[w].pending == [] && p.workers[w].terminated
    else forall w :: 0 <= w < |p.workers| ==>
           p.workers[w].inflight == |p.workers[w].pending| && !p.workers[w].terminated
  }

  predicate Inv(p: Pool) {
    |p.workers| > 0 && p.nextId >= 1 && Ledger(p) == multiset(Issued(p.nextId)) && Owned(p) && Counted(p)
  }

  lemma {:induction false} IssuedOnce(n: nat, id: nat)
    ensures multiset(Issued(n))[id] == if 1 <= id < n then 1 else 0
  {
    if n > 1 {
      IssuedOnce(n - 1, id);
    }
  }

  lemma Rearranged(b: multiset<nat>, p: multiset<nat>, a: multiset<nat>, x: multiset<nat>, more: multiset<nat>)
    requires b + p == a + x
    ensures (b + more) + p == (a + more) + x
  {
    assert (b + more) + p == (b + p) + more;
    assert (a + more) + x == (a + x) + more;
  }

  /** What is added to one side of an exchange is added to the other. */
  lemma Exchanged(b: multiset<nat>, p: multiset<nat>, a: multiset<nat>, x: multiset<nat>, s: multiset<nat>,
                  t: multiset<nat>, extra: multiset<nat>)
    requires b + p == a + x && x + t == p + s + extra
    ensures b + t == a + s + extra
  {
    assert (b + p) + (x + t) == (a + x) + (p + s + extra);
    forall k ensures b[k] + t[k] == a[k] + s[k] + extra[k] {
      assert ((b + p) + (x + t))[k] == ((a + x) + (p + s + extra))[k];
    }
  }

  lemma {:induction false} PendingSwap(ws: seq<Worker>, w: nat, x: Worker)
    requires w < |ws|
    ensures multiset(AllPending(ws[w := x])) + multiset(ws[w].pending) == multiset(AllPending(ws)) + multiset(x.pending)
  {
    var last, swapped := |ws| - 1, ws[w := x];
    assert AllPending(ws) == AllPending(ws[..last]) + ws[last].pending;
    assert AllPending(swapped) == AllPending(swapped[..last]) + swapped[last].pending;
    if w < last {
      PendingSwap(ws[..last], w, x);
      assert swapped[..last] == ws[..last][w := x];
      Rearranged(multiset(AllPending(swapped[..last])), multiset(ws[w].pending), multiset(AllPending(ws[..last])),
                 multiset(x.pending), multiset(ws[last].pending));
    } else {
      assert swapped[..last] == ws[..last];
    }
  }

  lemma {:induction false} WithoutOnce(s: seq<nat>, id: nat)
    requires id in s
    ensures multiset(Without(s, id)) + multiset{id} == multiset(s) && |Without(s, id)| == |s| - 1
  {
    assert s == [s[0]] + s[1..];
    if s[0] != id {
      WithoutOnce(s[1..], id);
    }
  }

  lemma {:induction false} NothingPending(ws: seq<Worker>)
    requires forall w :: 0 <= w < |ws| ==> ws[w].pending == []
    ensures AllPending(ws) == []
  {
    if ws != [] {
      NothingPending(ws[..|ws| - 1]);
    }
  }

  lemma {:induction false} PendingSomewhere(ws: seq<Worker>, id: nat) returns (w: nat)
    requires id in AllPending(ws)
    ensures w < |ws| && id in ws[w].pending
  {
    if id in ws[|ws| - 1].pending {
      w := |ws| - 1;
    } else {
      w := PendingSomewhere(ws[..|ws| - 1], id);
    }
  }

  lemma PostKeepsLedger(p: Pool, w: nat, bytes: Bytes)
    requires w < |p.workers| && p.nextId >= 1 && Ledger(p) == multiset(Issued(p.nextId))
    ensures Ledger(PostOn(p, w, bytes)) == multiset(Issued(p.nextId + 1))
  {
    hide AllPending;
    var was := p.workers[w];
    var x := was.(pending := was.pending + [p.nextId], inflight := was.inflight + 1);
    PendingSwap(p.workers, w, x);
    assert Issued(p.nextId + 1) == Issued(p.nextId) + [p.nextId];
    var settled := multiset(Ids(p.settled));
    Exchanged(multiset(AllPending(p.workers[w := x])), multiset(was.pending), multiset(AllPending(p.workers)),
              multiset(x.pending),
              settled, settled, multiset{p.nextId});
  }

  lemma PostKeepsInv(p: Pool, w: nat, bytes: Bytes)
    requires Inv(p) && !p.disposed && w < |p.workers|
    ensures Inv(PostOn(p, w, bytes)) && !PostOn(p, w, bytes).disposed
  {
    hide Ledger, Issued;
    PostKeepsLedger(p, w, bytes);
    assert Owned(PostOn(p, w, bytes));
  }

  lemma HasWorkers(p: Pool)
    requires Inv(p)
    ensures |p.workers| > 0
  {
  }

  lemma {:induction false} DealKeepsInv(p: Pool, items: seq<Bytes>, i: nat)
    requires Inv(p) && !p.disposed && i <= |items|
    ensures |p.workers| > 0 && Inv(Deal(p, items, i)) && !Deal(p, items, i).disposed
  {
    hide Inv, PostOn;
    HasWorkers(p);
    if i > 0 {
      DealKeepsInv(p, items, i - 1);
      PostKeepsInv(Deal(p, items, i - 1), Turn(i - 1, |p.workers|), items[i - 1]);
    }
  }

  lemma ReplyKeepsLedger(p: Pool, w: nat, id: nat, answer: Answer)
    requires w < |p.workers|
    ensures Ledger(ReplyStep(p, w, id, answer)) == Ledger(p)
  {
    hide AllPending, Without;
    var was := p.workers[w];
    if id in was.pending {
      var x := was.(pending := Without(was.pending, id), inflight := Max(0, was.inflight - 1));
      var q := ReplyStep(p, w, id, answer);
      WithoutOnce(was.pending, id);
      PendingSwap(p.workers, w, x);
      assert Ids(q.settled) == Ids(p.settled) + [id];
      Exchanged(multiset(AllPending(p.workers[w := x])), multiset(was.pending), multiset(AllPending(p.workers)),
                multiset(x.pending),
                multiset(Ids(p.settled)), multiset(Ids(q.settled)), multiset{});
    }
  }

  lemma {:induction false} WithoutIsSubset(s: seq<nat>, id: nat)
    ensures forall k :: k in Without(s, id) ==> k in s
  {
    if s != [] && s[0] != id {
      WithoutIsSubset(s[1..], id);
    }
  }

  lemma ReplyKeepsInv(p: Pool, w: nat, id: nat, answer: Answer)
    requires Inv(p) && w < |p.workers|
    ensures Inv(ReplyStep(p, w, id, answer))
  {
    hide Ledger, Issued, Without;
    ReplyKeepsLedger(p, w, id, answer);
    var was := p.workers[w];
    if id in was.pending {
      WithoutOnce(was.pending, id);
      WithoutIsSubset(was.pending, id);
      assert Owned(ReplyStep(p, w, id, answer));
    }
  }

  lemma DisposeKeepsLedger(p: Pool)
    ensures Ledger(DisposeStep(p)) == Ledger(p)
  {
    hide AllPending;
    if !p.disposed {
      var q, ids := DisposeStep(p), AllPending(p.workers);
      NothingPending(q.workers);
      assert Ids(q.settled) == Ids(p.settled) + ids;
    }
  }

  lemma PendingIsIssued(p: Pool)
    requires Owned(p)
    ensures forall k :: k in AllPending(p.workers) ==> 1 <= k < p.nextId
  {
    forall k | k in AllPending(p.workers) ensures 1 <= k < p.nextId {
      var w := PendingSomewhere(p.workers, k);
    }
  }

  lemma DisposeKeepsInv(p: Pool)
    requires Inv(p)
    ensures Inv(DisposeStep(p))
  {
    hide Ledger, Issued, AllPending;
    DisposeKeepsLedger(p);
    if !p.disposed {
      PendingIsIssued(p);
      var ids, q := AllPending(p.workers), DisposeStep(p);
      forall i | 0 <= i < |q.settled|
        ensures 1 <= q.settled[i].id < q.nextId && (q.settled[i].from.Some? ==> i < |p.settled|)
      {
        if i >= |p.settled| {
          assert q.settled[i] == Cancelled(ids)[i - |p.settled|];
          assert ids[i - |p.settled|] in ids;
        }
      }
      assert Owned(q);
    }
  }

  /** Every step keeps every request accounted for exactly once. */
  lemma StepKeepsInv(p: Pool, e: Event)
    requires Inv(p) && Possible(p, e)
    ensures Inv(Step(p, e))
  {
    hide Inv;
    match e
    case Decode(bytes) =>
      if p.disposed {
        RefusalKeepsInv(p, p.refused + 1);
      } else {
        PostKeepsInv(p, LeastBusy(p.workers), bytes);
      }
    case Batch(items) => if p.disposed { RefusalKeepsInv(p, p.refused + 1); } else { DealKeepsInv(p, items, |items|); }
    case Reply(w, id, answer) => ReplyKeepsInv(p, w, id, answer);
    case Dispose => DisposeKeepsInv(p);
  }

  lemma RefusalKeepsInv(p: Pool, n: nat)
    requires Inv(p)
    ensures Inv(p.(refused := n))
  {
  }

  // ---- whole runs ------------------------------------------------------------------------------

  lemma FreshInv(n: nat)
    requires n > 0
    ensures Inv(Fresh(n))
  {
    NothingPending(Fresh(n).workers);
  }

  lemma {:induction false} RunKeepsInv(n: nat, events: seq<Event>)
    requires Arranged(n, events)
    ensures Inv(Run(n, events))
  {
    hide Inv, Step, Fresh;
    if events == [] {
      FreshInv(n);
    } else {
      RunKeepsInv(n, events[..|events| - 1]);
      StepKeepsInv(Run(n, events[..|events| - 1]), events[|events| - 1]);
    }
  }

  predicate IsSettled(p: Pool, id: nat) {
    exists i :: 0 <= i < |p.settled| && p.settled[i].id == id
  }

  lemma OnePlace(s: seq<nat>, i: nat, j: nat)
    requires i < j < |s| && multiset(s)[s[i]] <= 1
    ensures s[i] != s[j]
  {
    assert s == s[..j] + s[j..];
    assert s[i] in s[..j];
    assert multiset(s)[s[i]] == multiset(s[..j])[s[i]] + multiset(s[j..])[s[i]];
    assert s[i] !in s[j..];
    assert s[j] == s[j..][0];
  }

  lemma {:induction false} PendingIsListed(ws: seq<Worker>, w: nat, id: nat)
    requires w < |ws| && id in ws[w].pending
    ensures id in AllPending(ws)
  {
    if w < |ws| - 1 {
      PendingIsListed(ws[..|ws| - 1], w, id);
    }
  }

  /** In every run each issued request is either pending on the one worker it was posted to, or settled,
      never both, and no request is settled twice. */
  lemma EachRequestOnce(n: nat, events: seq<Event>, id: nat)
    requires Arranged(n, events) && 1 <= id < Run(n, events).nextId
    ensures var p := Run(n, events);
            && |p.posts| == p.nextId - 1 && p.posts[id - 1].id == id && p.posts[id - 1].worker < n
            && (id in p.workers[p.posts[id - 1].worker].pending <==> !IsSettled(p, id))
            && (forall w :: 0 <= w < n && id in p.workers[w].pending ==> w == p.posts[id - 1].worker)
            && (forall i, j :: 0 <= i < j < |p.settled| ==> p.settled[i].id != p.settled[j].id)
            && (forall i :: 0 <= i < |p.settled| && p.settled[i].id == id && p.settled[i].from.Some?
                  ==> p.settled[i].from.value == p.posts[id - 1].worker)
  {
    hide Run, AllPending, Issued, Ledger, IsSettled;
    var p := Run(n, events);
    RunKeepsInv(n, events);
    SettledOnce(p);
    PendingOrSettled(p, id);
  }

  lemma SettledOnce(p: Pool)
    requires Ledger(p) == multiset(Issued(p.nextId))
    ensures forall i, j :: 0 <= i < j < |p.settled| ==> p.settled[i].id != p.settled[j].id
  {
    hide AllPending, Issued;
    var ids := Ids(p.settled);
    forall i, j | 0 <= i < j < |p.settled| ensures p.settled[i].id != p.settled[j].id {
      IssuedOnce(p.nextId, ids[i]);
      assert multiset(ids)[ids[i]] <= Ledger(p)[ids[i]];
      OnePlace(ids, i, j);
    }
  }

  lemma PendingOrSettled(p: Pool, id: nat)
    requires Inv(p) && 1 <= id < p.nextId
    ensures |p.posts| == p.nextId - 1 && p.posts[id - 1].worker < |p.workers|
    ensures id in p.workers[p.posts[id - 1].worker].pending <==> !IsSettled(p, id)
  {
    hide AllPending, Issued;
    IssuedOnce(p.nextId, id);
    var ids, w := Ids(p.settled), p.posts[id - 1].worker;
    assert Ledger(p)[id] == 1;
    if IsSettled(p, id) {
      var i :| 0 <= i < |p.settled| && p.settled[i].id == id;
      assert ids[i] == id && id in ids;
      assert multiset(AllPending(p.workers))[id] == 0;
      if id in p.workers[w].pending {
        PendingIsListed(p.workers, w, id);
        assert false;
      }
    } else {
      assert id !in ids;
      assert multiset(AllPending(p.workers))[id] == 1;
      var v := PendingSomewhere(p.workers, id);
    }
  }

  lemma {:induction false} IssuedCount(n: nat)
    requires n >= 1
    ensures |Issued(n)| == n - 1
  {
    if n > 1 {
      IssuedCount(n - 1);
    }
  }

  /** Requests are conserved: pending and settled together are all those issued. */
  lemma RequestsAreConserved(n: nat, events: seq<Event>)
    requires Arranged(n, events)
    ensures var p := Run(n, events); |AllPending(p.workers)| + |p.settled| == p.nextId - 1 == |p.posts|
  {
    hide Run, AllPending, Issued;
    var p := Run(n, events);
    RunKeepsInv(n, events);
    IssuedCount(p.nextId);
    assert |Ledger(p)| == |multiset(AllPending(p.workers))| + |multiset(Ids(p.settled))|;
    assert |multiset(AllPending(p.workers))| == |AllPending(p.workers)|;
    assert |multiset(Issued(p.nextId))| == |Issued(p.nextId)|;
  }

  /** A reply that settles something finds its worker's count above zero, so the clamp never acts; and until
      disposal every count is the number pending. */
  lemma CountsAreExact(n: nat, events: seq<Event>, w: nat)
    requires Arranged(n, events) && w < n
    ensures var p := Run(n, events);
            && (!p.disposed ==> p.workers[w].inflight == |p.workers[w].pending|)
            && (p.workers[w].pending != [] ==> p.workers[w].inflight - 1 >= 0)
  {
    hide Run, AllPending, Issued;
    RunKeepsInv(n, events);
  }

  /** Settlements are only ever added. */
  lemma {:induction false} DealSettlesNothing(p: Pool, items: seq<Bytes>, i: nat)
    requires |p.workers| > 0 && i <= |items|
    ensures Deal(p, items, i).settled == p.settled && Deal(p, items, i).disposed == p.disposed
            && Deal(p, items, i).refused == p.refused
  {
    if i > 0 {
      DealSettlesNothing(p, items, i - 1);
    }
  }

  lemma StepOnlyAdds(p: Pool, e: Event)
    requires Possible(p, e)
    ensures p.settled <= Step(p, e).settled && (p.disposed ==> Step(p, e).disposed)
  {
    hide AllPending, LeastBusy, Terminated, Without;
    if e.Batch? {
      DealSettlesNothing(p, e.items, |e.items|);
    }
  }

  lemma {:induction false} SettledIsFinal(n: nat, events: seq<Event>, k: nat)
    requires Arranged(n, events) && k <= |events|
    ensures Arranged(n, events[..k]) && Run(n, events[..k]).settled <= Run(n, events).settled
    ensures Run(n, events[..k]).disposed ==> Run(n, events).disposed
    decreases |events| - k
  {
    hide Step;
    if k < |events| {
      SettledIsFinal(n, events, k + 1);
      assert events[..k + 1][..k] == events[..k];
      StepOnlyAdds(Run(n, events[..k]), events[k]);
    } else {
      assert events[..k] == events;
    }
  }

  lemma StepAfterDispose(p: Pool, e: Event)
    requires Inv(p) && p.disposed && Possible(p, e)
    ensures var q := Step(p, e);
            && q.workers == p.workers && q.posts == p.posts && q.settled == p.settled && q.disposed
            && q.refused == p.refused + if e.Decode? || e.Batch? then 1 else 0
  {
  }

  function Calls(events: seq<Event>): nat {
    if events == [] then 0
    else Calls(events[..|events| - 1]) + if events[|events| - 1].Decode? || events[|events| - 1].Batch? then 1 else 0
  }

  /** After disposal nothing is pending, every worker is stopped, nothing is posted or settled any more
      whatever arrives, and every further call is refused. */
  lemma {:induction false} NothingAfterDispose(n: nat, events: seq<Event>, more: seq<Event>)
    requires Arranged(n, events + more) && Arranged(n, events) && Run(n, events).disposed
    ensures var p, q := Run(n, events), Run(n, events + more);
            && AllPending(p.workers) == [] && (forall w :: 0 <= w < n ==> p.workers[w].terminated)
            && q.workers == p.workers && q.posts == p.posts && q.settled == p.settled && q.disposed
            && q.refused == p.refused + Calls(more)
  {
    hide Step, AllPending;
    var p := Run(n, events);
    RunKeepsInv(n, events);
    NothingPending(p.workers);
    if more == [] {
      assert events + more == events;
    } else {
      var front, last := more[..|more| - 1], more[|more| - 1];
      assert (events + more)[..|events + more| - 1] == events + front;
      assert last == (events + more)[|events + more| - 1];
      NothingAfterDispose(n, events, front);
      RunKeepsInv(n, events + front);
      StepAfterDispose(Run(n, events + front), last);
    }
  }

  // ---- batches ---------------------------------------------------------------------------------

  /** A batch is numbered in input order and dealt out in turn. */
  lemma {:induction false} BatchInOrder(p: Pool, items: seq<Bytes>, i: nat)
    requires |p.workers| > 0 && i <= |items|
    ensures Deal(p, items, i).nextId == p.nextId + i
    ensures Deal(p, items, i).posts == p.posts
            + seq(i, k requires 0 <= k < i => Posted(k % |p.workers|, p.nextId + k, items[k]))
  {
    if i > 0 {
      BatchInOrder(p, items, i - 1);
    }
  }

  /** How many of the first i items fall to worker w of n. */
  function Share(n: nat, w: nat, i: nat): nat
    requires n > 0
  {
    i / n + if w < i % n then 1 else 0
  }

  lemma ShareStep(n: nat, w: nat, i: nat)
    requires n > 0 && w < n
    ensures Share(n, w, i + 1) == Share(n, w, i) + if w == i % n then 1 else 0
  {
    var q, r := i / n, i % n;
    assert i == q * n + r;
    if r + 1 < n {
      NextQuotient(i + 1, n, q, r + 1);
    } else {
      assert (q + 1) * n == q * n + n;
      NextQuotient(i + 1, n, q + 1, 0);
    }
  }

  lemma NextQuotient(i: nat, n: nat, q: nat, r: nat)
    requires n > 0 && i == q * n + r && r < n
    ensures i / n == q && i % n == r
  {
    var d := i / n - q;
    assert d * n == i / n * n - q * n == r - i % n;
    if d != 0 {
      FarMultiple(d, n);
      assert false;
    }
  }

  lemma FarMultiple(d: int, n: nat)
    requires d != 0
    ensures d * n >= n || d * n + n <= 0
  {
  }

  /** No worker gets more than one item more than another. */
  lemma {:induction false} BatchIsEven(p: Pool, items: seq<Bytes>, i: nat, w: nat)
    requires i <= |items| && w < |p.workers|
    ensures |Deal(p, items, i).workers[w].pending| == |p.workers[w].pending| + Share(|p.workers|, w, i)
    ensures i / |p.workers| <= Share(|p.workers|, w, i) <= i / |p.workers| + 1
  {
    if i > 0 {
      BatchIsEven(p, items, i - 1, w);
      ShareStep(|p.workers|, w, i - 1);
    }
  }

  // ---- who gets a request, and what it is settled with -----------------------------------------

  /** A decode goes, under the next number, to a worker with the fewest requests pending, the first of those, and to no
      other. */
  lemma DecodeGoesToLeastBusy(p: Pool, bytes: Bytes)
    requires Inv(p) && !p.disposed
    ensures |p.workers| > 0
    ensures var q := Step(p, Decode(bytes));
            && |q.posts| == |p.posts| + 1 && q.posts[..|p.posts|] == p.posts && q.nextId == p.nextId + 1
            && q.settled == p.settled && q.refused == p.refused && !q.disposed
            && var posted := q.posts[|p.posts|];
               && posted.bytes == bytes && posted.id == p.nextId && posted.worker < |p.workers|
               && q.workers[posted.worker].pending == p.workers[posted.worker].pending + [p.nextId]
               && (forall v :: 0 <= v < |p.workers| && v != posted.worker ==> q.workers[v] == p.workers[v])
               && forall v :: 0 <= v < |p.workers| ==>
                    && |p.workers[posted.worker].pending| <= |p.workers[v].pending|
                    && (v < posted.worker ==> |p.workers[posted.worker].pending| < |p.workers[v].pending|)
  {
    hide Ledger, Owned, AllPending;
    var w := LeastBusy(p.workers);
    forall v | 0 <= v < |p.workers|
      ensures p.workers[v].inflight == |p.workers[v].pending|
    {
    }
  }

  /** A worker's answer to a request of its own settles it with what it says: the image, or the error. Any other
      answer changes nothing. */
  lemma ReplySettles(p: Pool, w: nat, id: nat, answer: Answer)
    requires Inv(p) && w < |p.workers|
    ensures var q := Step(p, Reply(w, id, answer));
            if id !in p.workers[w].pending then q == p
            else
              && |q.settled| == |p.settled| + 1 && q.settled[..|p.settled|] == p.settled
              && q.posts == p.posts && q.nextId == p.nextId && q.disposed == p.disposed
              && var last := q.settled[|p.settled|];
                 && last.id == id && last.from == Some(w)
                 && (answer.Decoded? ==>
                       last.outcome == Resolved(Image(answer.width, answer.height, answer.rgba, None)))
                 && (answer.Failed? ==> last.outcome == Rejected(answer.error))
  {
    hide Ledger, Owned, Counted, AllPending, Without;
  }

  /** Where an outcome comes from: an answer of the worker it was settled by, or the disposal. */
  predicate Explained(events: seq<Event>, s: Settled) {
    match s.from
    case Some(w) => exists k :: 0 <= k < |events| && events[k].Reply? && Reported(events[k], s)
    case None => s.outcome == Rejected("decode pool disposed") && Dispose in events
  }

  predicate Reported(e: Event, s: Settled)
    requires e.Reply?
  {
    && Some(e.worker) == s.from && e.id == s.id
    && match e.answer
       case Decoded(width, height, rgba) => s.outcome == Resolved(Image(width, height, rgba, None))
       case Failed(error) => s.outcome == Rejected(error)
  }

  lemma ExplainedStill(events: seq<Event>, e: Event, s: Settled)
    requires Explained(events, s)
    ensures Explained(events + [e], s)
  {
    if s.from.Some? {
      var k :| 0 <= k < |events| && events[k].Reply? && Reported(events[k], s);
      assert (events + [e])[k] == events[k];
    }
  }

  lemma StepExplains(p: Pool, events: seq<Event>, e: Event)
    requires Possible(p, e)
    ensures |Step(p, e).settled| >= |p.settled| && Step(p, e).settled[..|p.settled|] == p.settled
    ensures forall i :: |p.settled| <= i < |Step(p, e).settled| ==> Explained(events + [e], Step(p, e).settled[i])
  {
    hide AllPending, LeastBusy, Terminated, Without;
    StepOnlyAdds(p, e);
    assert (events + [e])[|events|] == e;
    match e
    case Reply(_, _, _) =>
    case Batch(items) => DealSettlesNothing(p, items, |items|);
    case _ =>
  }

  /** In every run each settlement carries what its own worker answered, or is the disposal's rejection. */
  lemma {:induction false} EverySettlementIsExplained(n: nat, events: seq<Event>)
    requires Arranged(n, events)
    ensures forall i :: 0 <= i < |Run(n, events).settled| ==> Explained(events, Run(n, events).settled[i])
  {
    hide Step, Explained;
    if events != [] {
      var front, e := events[..|events| - 1], events[|events| - 1];
      EverySettlementIsExplained(n, front);
      assert events == front + [e];
      var p := Run(n, front);
      StepExplains(p, front, e);
      forall i | 0 <= i < |Step(p, e).settled|
        ensures Explained(events, Step(p, e).settled[i])
      {
        if i < |p.settled| {
          ExplainedStill(front, e, p.settled[i]);
          assert Step(p, e).settled[..|p.settled|][i] == p.settled[i];
        }
      }
    }
  }

  /** No image arrives with the display transform its worker put it through. */
  lemma DisplayIsLost(n: nat, events: seq<Event>, i: nat)
    requires Arranged(n, events) && i < |Run(n, events).settled| && Run(n, events).settled[i].outcome.Resolved?
    ensures Run(n, events).settled[i].outcome.image.display == None
  {
    hide Run;
    EverySettlementIsExplained(n, events);
    assert Explained(events, Run(n, events).settled[i]);
  }
}
