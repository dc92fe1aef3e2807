/** The decode pool's objects, each method proved against the step it takes. */
module DecodeWorkers {
  import opened Basics
  import opened DecodePool

  class PoolWorker {
    var pending: seq<nat>
    var inflight: nat
    var terminated: bool

    constructor ()
      ensures pending == [] && inflight == 0 && !terminated
    {
      pending, inflight, terminated := [], 0, false;
    }

    ghost function State(): Worker
      reads this
    {
      Worker(pending, inflight, terminated)
    }

    method Post(id: nat)
      modifies this
      ensures State() == old(State()).(pending := old(pending) + [id], inflight := old(inflight) + 1)
    {
      pending, inflight := pending + [id], inflight + 1;
    }

    /** Settles the request if it is pending here. */
    method Take(id: nat) returns (found: bool)
      modifies this
      ensures found <==> id in old(pending)
      ensures State() == if found then old(State()).(pending := Without(old(pending), id),
                                                     inflight := Max(0, old(inflight) - 1))
                         else old(State())
    {
      found := id in pending;
      if found {
        pending, inflight := Without(pending, id), Max(0, inflight - 1);
      }
    }

    method Stop()
      modifies this
      ensures State() == Worker([], old(inflight), true)
    {
      pending, terminated := [], true;
    }
  }

  ghost function States(ws: seq<PoolWorker>): (s: seq<Worker>)
    reads ws
    ensures |s| == |ws| && forall i :: 0 <= i < |ws| ==> s[i] == ws[i].State()
  {
    seq(|ws|, i requires 0 <= i < |ws| reads ws => ws[i].State())
  }

  function Numbers(first: nat, n: nat): seq<nat> {
    seq(n, k requires k >= 0 => first + k)
  }

  lemma NoNumbers(first: nat)
    ensures Numbers(first, 0) == []
  {
  }

  lemma NextNumber(first: nat, n: nat)
    ensures Numbers(first, n + 1) == Numbers(first, n) + [first + n]
  {
  }

  lemma NoneDealt(p: Pool, items: seq<DecodePool.Bytes>)
    requires |p.workers| > 0
    ensures Deal(p, items, 0) == p
  {
  }

  lemma NoneCancelled()
    ensures Cancelled(AllPending([])) == []
  {
  }

  lemma NextCancelled(ws: seq<Worker>, i: nat)
    requires i < |ws|
    ensures Cancelled(AllPending(ws[..i + 1])) == Cancelled(AllPending(ws[..i])) + Cancelled(ws[i].pending)
  {
    assert ws[..i + 1][..i] == ws[..i];
  }

  class DecodePoolObject {
    const workers: seq<PoolWorker>
    var nextId: nat
    var disposed: bool
    /** What the workers have been sent, and how the promises have been settled. */
    var posts: seq<Posted>
    var settled: seq<Settled>
    var refused: nat

    ghost predicate Valid()
      reads this
    {
      |workers| > 0 && forall i, j :: 0 <= i < j < |workers| ==> workers[i] != workers[j]
    }

    ghost function State(): Pool
      reads this, workers
    {
      Pool(States(workers), nextId, disposed, posts, settled, refused)
    }

    constructor (ws: seq<PoolWorker>)
      requires |ws| > 0 && forall i, j :: 0 <= i < j < |ws| ==> ws[i] != ws[j]
      requires forall i :: 0 <= i < |ws| ==> ws[i].State() == Worker([], 0, false)
      ensures Valid() && workers == ws && State() == Fresh(|ws|)
    {
      workers, nextId, disposed, posts, settled, refused := ws, 1, false, [], [], 0;
    }

    method LeastBusyWorker() returns (w: nat)
      requires Valid()
      ensures w == LeastBusy(States(workers))
    {
      w := 0;
      var i := 1;
      assert States(workers)[..1] == [workers[0].State()];
      while i < |workers|
        invariant 1 <= i <= |workers| && w < i && w == LeastBusy(States(workers)[..i])
      {
        assert States(workers)[..i + 1][..i] == States(workers)[..i];
        if workers[i].inflight < workers[w].inflight {
          w := i;
        }
        i := i + 1;
      }
      assert States(workers)[..i] == States(workers);
    }

    method DecodeOn(w: nat, bytes: DecodePool.Bytes) returns (id: nat)
      requires Valid() && w < |workers|
      modifies this`nextId, this`posts, workers[w]
      ensures Valid() && id == old(nextId) && State() == PostOn(old(State()), w, bytes)
    {
      id := nextId;
      nextId := nextId + 1;
      workers[w].Post(id);
      posts := posts + [Posted(w, id, bytes)];
      assert States(workers) == old(States(workers))[w := workers[w].State()];
    }

    /** The number of the request, or None when the call is refused. */
    method Decode(bytes: DecodePool.Bytes) returns (id: Option<nat>)
      requires Valid()
      modifies this, workers
      ensures Valid() && State() == Step(old(State()), DecodePool.Decode(bytes))
      ensures id == if old(disposed) then None else Some(old(nextId))
    {
      if disposed {
        refused := refused + 1;
        return None;
      }
      var w := LeastBusyWorker();
      var n := DecodeOn(w, bytes);
      return Some(n);
    }

    /** Item i of a batch goes to the worker whose turn it is. */
    method DecodeItem(items: seq<DecodePool.Bytes>, i: nat, ghost start: Pool) returns (id: nat)
      requires Valid() && i < |items| && |start.workers| > 0 && State() == Deal(start, items, i)
      modifies this`nextId, this`posts, workers
      ensures Valid() && id == old(nextId) && nextId == id + 1 && State() == Deal(start, items, i + 1)
    {
      hide States;
      id := DecodeOn(i % |workers|, items[i]);
    }

    /** The numbers of the requests in input order, or None when the call is refused. */
    method DecodeBatch(items: seq<DecodePool.Bytes>) returns (ids: Option<seq<nat>>)
      requires Valid()
      modifies this, workers
      ensures Valid() && State() == Step(old(State()), Batch(items))
      ensures ids == if old(disposed) then None else Some(Numbers(old(nextId), |items|))
    {
      hide States, Numbers, Deal, DecodeStep, ReplyStep, DisposeStep;
      if disposed {
        refused := refused + 1;
        return None;
      }
      NoneDealt(State(), items);
      NoNumbers(nextId);
      ghost var start := State();
      var numbers: seq<nat> := [];
      var i := 0;
      while i < |items|
        invariant 0 <= i <= |items| && Valid() && State() == Deal(start, items, i)
        invariant nextId == start.nextId + i && numbers == Numbers(start.nextId, i)
      {
        var id := DecodeItem(items, i, start);
        NextNumber(start.nextId, i);
        numbers := numbers + [id];
        i := i + 1;
      }
      return Some(numbers);
    }

    /** A message from a worker. */
    method OnMessage(w: nat, id: nat, answer: Answer)
      requires Valid() && w < |workers|
      modifies this`settled, workers[w]
      ensures Valid() && State() == Step(old(State()), Reply(w, id, answer))
    {
      var found := workers[w].Take(id);
      if found {
        match answer
        case Decoded(width, height, rgba) =>
          settled := settled + [Settled(id, Resolved(Image(width, height, rgba, None)), Some(w))];
        case Failed(error) => settled := settled + [Settled(id, Rejected(error), Some(w))];
      }
      assert States(workers) == old(States(workers))[w := workers[w].State()];
    }

    method DisposePool()
      requires Valid()
      modifies this, workers
      ensures Valid() && State() == Step(old(State()), Dispose)
    {
      hide AllPending, Cancelled;
      if disposed {
        return;
      }
      disposed := true;
      NoneCancelled();
      ghost var was := States(workers);
      ghost var before := settled;
      var i := 0;
      assert was[..0] == [];
      while i < |workers|
        invariant 0 <= i <= |workers| && Valid() && disposed
        invariant nextId == old(nextId) && posts == old(posts) && refused == old(refused)
        invariant settled == before + Cancelled(AllPending(was[..i]))
        invariant forall j :: 0 <= j < i ==> workers[j].State() == Worker([], was[j].inflight, true)
        invariant forall j :: i <= j < |workers| ==> workers[j].State() == was[j]
      {
        NextCancelled(was, i);
        RejectAll(workers[i].pending);
        workers[i].Stop();
        i := i + 1;
      }
      assert was[..i] == was;
      assert States(workers) == Terminated(was);
    }

    method RejectAll(ids: seq<nat>)
      modifies this`settled
      ensures settled == old(settled) + Cancelled(ids)
    {
      var k := 0;
      while k < |ids|
        invariant 0 <= k <= |ids| && settled == old(settled) + Cancelled(ids[..k])
      {
        settled := settled + [Settled(ids[k], DISPOSED, None)];
        assert Cancelled(ids[..k + 1]) == Cancelled(ids[..k]) + [Settled(ids[k], DISPOSED, None)];
        k := k + 1;
      }
      assert ids[..k] == ids;
    }
  }
}
