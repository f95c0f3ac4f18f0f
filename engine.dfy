/** The scan engine: the worker loop, the pool of workers that `main` starts and joins,
    and `main`'s scan from a validated range to the sorted list of open ports.
    The outcome of each TCP probe (`connect_ex(...) == 0`) is given by `listening`, the set of
    ports on the target that accept a connection; the thread scheduler is the oracle `pick`,
    which chooses, at every atomic step, which worker moves. */
module Engine {
  import opened Order
  import opened PortConfig
  import opened Distributor
  import opened Results

  /** Where a worker thread is in its loop: about to claim, holding a claimed port whose
      probe is in flight, or returned after seeing exhaustion. */
  datatype WorkerState = Ready | Probing(port: int, done: nat) | Finished

  /** The outcome of a scan: the sorted open ports, or the refused range (exit status 1). */
  datatype Outcome = Scanned(openPorts: seq<int>) | InvalidRange

  /** The open port a worker holds but has not yet appended, if any. */
  function PendingOf(w: WorkerState, listening: set<int>): (held: multiset<int>)
  {
    if w.Probing? && w.port in listening then multiset{w.port} else multiset{}
  }

  /** The open ports held, not yet appended, by workers whose probe is in flight. */
  function Pending(ws: seq<WorkerState>, listening: set<int>): (held: multiset<int>)
  {
    if ws == [] then multiset{} else PendingOf(ws[0], listening) + Pending(ws[1..], listening)
  }

  /** Replacing one worker's state changes the pending open ports by that worker's share only. */
  lemma {:induction false} PendingUpdate(ws: seq<WorkerState>, w: nat, s: WorkerState, listening: set<int>)
    requires w < |ws|
    ensures Pending(ws[w := s], listening) + PendingOf(ws[w], listening) ==
            Pending(ws, listening) + PendingOf(s, listening)
  {
    var us := ws[w := s];
    var head := PendingOf(ws[0], listening);
    var tail := Pending(ws[1..], listening);
    if w == 0 {
      assert us[1..] == ws[1..];
      AddCommutes(PendingOf(s, listening), tail, head);
    } else {
      assert us[1..] == ws[1..][w - 1 := s];
      assert ws[1..][w - 1] == ws[w];
      PendingUpdate(ws[1..], w - 1, s, listening);
      AddShift(head, Pending(us[1..], listening), PendingOf(ws[w], listening), tail, PendingOf(s, listening));
    }
  }

  lemma AddCommutes(a: multiset<int>, b: multiset<int>, c: multiset<int>)
    ensures a + b + c == c + b + a
  {
    forall x ensures (a + b + c)[x] == (c + b + a)[x] {
    }
  }

  lemma AddShift(h: multiset<int>, a: multiset<int>, b: multiset<int>, c: multiset<int>, d: multiset<int>)
    requires a + b == c + d
    ensures h + a + b == h + c + d
  {
    forall x ensures (h + a + b)[x] == (h + c + d)[x] {
      assert (a + b)[x] == (c + d)[x];
    }
  }

  /** When no probe is in flight nothing is pending. */
  lemma {:induction false} NothingPending(ws: seq<WorkerState>, listening: set<int>)
    requires forall i :: 0 <= i < |ws| ==> !ws[i].Probing?
    ensures Pending(ws, listening) == multiset{}
  {
    if ws != [] {
      assert !ws[0].Probing?;
      NothingPending(ws[1..], listening);
    }
  }

  lemma MultisetCancel(a: multiset<int>, b: multiset<int>, c: multiset<int>)
    requires a + c == b + c
    ensures a == b
  {
    forall x ensures a[x] == b[x] {
      assert (a + c)[x] == (b + c)[x];
    }
  }

  /** Ready counts 1, Probing 2, Finished 0: every atomic step of a worker lowers the
      total, or advances the cursor, which is how the pool is seen to terminate. */
  function Weight(ws: seq<WorkerState>): (total: nat)
  {
    if ws == [] then 0
    else WeightOf(ws[0]) + Weight(ws[1..])
  }

  function WeightOf(w: WorkerState): (weight: nat)
  {
    match w case Ready => 1 case Probing(_, _) => 2 case Finished => 0
  }

  lemma {:induction false} WeightUpdate(ws: seq<WorkerState>, w: nat, s: WorkerState)
    requires w < |ws|
    ensures Weight(ws[w := s]) + WeightOf(ws[w]) == Weight(ws) + WeightOf(s)
  {
    if w > 0 {
      assert ws[w := s][1..] == ws[1..][w - 1 := s];
      WeightUpdate(ws[1..], w - 1, s);
    } else {
      assert ws[w := s][1..] == ws[1..];
    }
  }

  /** The first worker that has not returned, or -1 when all have (the join barrier). */
  function FirstLive(ws: seq<WorkerState>): (i: int)
    ensures -1 <= i < |ws|
    ensures 0 <= i ==> !ws[i].Finished?
    ensures i == -1 <==> forall j :: 0 <= j < |ws| ==> ws[j].Finished?
  {
    if ws == [] then -1
    else if !ws[0].Finished? then 0
    else
      var k := FirstLive(ws[1..]);
      if k == -1 then -1 else k + 1
  }

  /** One worker thread run on its own from the current cursor to exhaustion: claim a port,
      probe it, append it when open, and return once the distributor is exhausted.
      It leaves the cursor at the end of the list and appends exactly the open ports it
      claimed, in list order. */
  method Worker(cursor: Cursor, results: ResultSet, listening: set<int>)
    requires cursor.Valid()
    modifies cursor, results
    ensures cursor.Valid() && cursor.index == |cursor.ports|
    ensures results.openPorts == old(results.openPorts) + OpenOf(cursor.ports[old(cursor.index)..], listening)
  {
    ghost var from := cursor.index;
    ghost var base := results.openPorts;
    while true
      invariant cursor.Valid() && from <= cursor.index
      invariant results.openPorts == base + OpenOf(cursor.ports[from..cursor.index], listening)
      decreases |cursor.ports| - cursor.index
    {
      ghost var before := cursor.index;
      ghost var sofar := results.openPorts;
      var c := cursor.Claim();
      if c.Exhausted? {
        assert cursor.ports[from..cursor.index] == cursor.ports[from..];
        return;
      }
      var port := c.port;
      OpenOfSnoc(cursor.ports, from, before, listening);
      if port in listening {
        results.Append(port);
        assert results.openPorts == sofar + [port];
      }
    }
  }

  /** The bookkeeping of a running pool over plain values: a worker has returned only once the
      list is exhausted, and every open port claimed between cursor values `from` and `index`
      is either in the result list `recorded` (beyond what it held at the start, `base`) or held
      by a worker whose probe is in flight. */
  ghost predicate Balanced(recorded: seq<int>, ws: seq<WorkerState>, ports: seq<int>, from: nat, index: nat,
                           base: seq<int>, listening: set<int>)
  {
    && from <= index <= |ports|
    && (SomeFinished(ws) ==> index == |ports|)
    && Conserved(recorded, ws, ports, from, index, base, listening)
  }

  /** Whether some worker has returned. */
  predicate SomeFinished(ws: seq<WorkerState>)
  {
    exists i :: 0 <= i < |ws| && ws[i].Finished?
  }

  /** Every open port claimed between cursor values `from` and `index` is recorded or pending. */
  ghost predicate Conserved(recorded: seq<int>, ws: seq<WorkerState>, ports: seq<int>, from: nat, index: nat,
                            base: seq<int>, listening: set<int>)
    requires from <= index <= |ports|
  {
    multiset(recorded) + Pending(ws, listening) == multiset(base) + multiset(OpenOf(ports[from..index], listening))
  }

  /** The open ports among the claimed ports grow by the newly claimed port, when it is open. */
  lemma OpenOfSnoc(ports: seq<int>, from: nat, index: nat, listening: set<int>)
    requires from <= index < |ports|
    ensures OpenOf(ports[from..index + 1], listening) ==
            OpenOf(ports[from..index], listening) + if ports[index] in listening then [ports[index]] else []
  {
    var port := ports[index];
    assert ports[from..index + 1] == ports[from..index] + [port];
    OpenOfAppend(ports[from..index], [port], listening);
    assert [port][1..] == [];
  }

  lemma OpenOfExtend(ports: seq<int>, from: nat, index: nat, listening: set<int>)
    requires from <= index < |ports|
    ensures multiset(OpenOf(ports[from..index + 1], listening)) ==
            multiset(OpenOf(ports[from..index], listening)) + PendingOf(Probing(ports[index], index + 1), listening)
  {
    OpenOfSnoc(ports, from, index, listening);
  }

  /** A successful claim by a ready worker keeps the pool balanced and lowers the measure. */
  lemma BalancedAfterClaim(recorded: seq<int>, ws: seq<WorkerState>, ports: seq<int>, from: nat, index: nat,
                           base: seq<int>, listening: set<int>, w: nat)
    requires Balanced(recorded, ws, ports, from, index, base, listening)
    requires index < |ports| && w < |ws| && ws[w].Ready?
    ensures Balanced(recorded, ws[w := Probing(ports[index], index + 1)], ports, from, index + 1, base, listening)
    ensures 2 * (|ports| - (index + 1)) + Weight(ws[w := Probing(ports[index], index + 1)]) <
            2 * (|ports| - index) + Weight(ws)
  {
    var s := Probing(ports[index], index + 1);
    var next := ws[w := s];
    WeightUpdate(ws, w, s);
    assert forall i :: 0 <= i < |next| ==> !next[i].Finished?;
    assert multiset(recorded) + Pending(next, listening) ==
           multiset(base) + multiset(OpenOf(ports[from..index + 1], listening)) by {
      OpenOfExtend(ports, from, index, listening);
      PendingUpdate(ws, w, s, listening);
      assert PendingOf(Ready, listening) == multiset{};
      AddNothing(Pending(next, listening));
      ClaimRebalances(multiset(recorded), Pending(ws, listening), multiset(base),
                      multiset(OpenOf(ports[from..index], listening)), Pending(next, listening),
                      multiset(OpenOf(ports[from..index + 1], listening)), PendingOf(s, listening));
    }
  }

  lemma ClaimRebalances(r: multiset<int>, p: multiset<int>, b: multiset<int>, o: multiset<int>,
                        p2: multiset<int>, o2: multiset<int>, g: multiset<int>)
    requires r + p == b + o
    requires p2 == p + g
    requires o2 == o + g
    ensures r + p2 == b + o2
  {
    forall x ensures (r + p2)[x] == (b + o2)[x] {
      assert (r + p)[x] == (b + o)[x];
    }
  }

  lemma AddNothing(a: multiset<int>)
    ensures a + multiset{} == a
  {
    forall x ensures (a + multiset{})[x] == a[x] {
    }
  }

  /** A ready worker that sees exhaustion returns; the pool stays balanced, the measure drops. */
  lemma BalancedAfterExhausted(recorded: seq<int>, ws: seq<WorkerState>, ports: seq<int>, from: nat, index: nat,
                               base: seq<int>, listening: set<int>, w: nat)
    requires Balanced(recorded, ws, ports, from, index, base, listening)
    requires index == |ports| && w < |ws| && ws[w].Ready?
    ensures Balanced(recorded, ws[w := Finished], ports, from, index, base, listening)
    ensures Weight(ws[w := Finished]) < Weight(ws)
  {
    var next := ws[w := Finished];
    WeightUpdate(ws, w, Finished);
    assert Pending(next, listening) == Pending(ws, listening) by {
      PendingUpdate(ws, w, Finished, listening);
      assert PendingOf(Ready, listening) == multiset{} == PendingOf(Finished, listening);
      MultisetCancel(Pending(next, listening), Pending(ws, listening), multiset{});
    }
  }

  /** A probing worker that ends its probe, appending the port when the probe succeeds,
      becomes ready; the pool stays balanced and the measure drops. */
  lemma BalancedAfterProbe(recorded: seq<int>, ws: seq<WorkerState>, ports: seq<int>, from: nat, index: nat,
                           base: seq<int>, listening: set<int>, w: nat, after: seq<int>)
    requires Balanced(recorded, ws, ports, from, index, base, listening)
    requires w < |ws| && ws[w].Probing?
    requires after == if ws[w].port in listening then recorded + [ws[w].port] else recorded
    ensures Balanced(after, ws[w := Ready], ports, from, index, base, listening)
    ensures Weight(ws[w := Ready]) < Weight(ws)
  {
    var next := ws[w := Ready];
    WeightUpdate(ws, w, Ready);
    assert forall i :: 0 <= i < |next| && next[i].Finished? ==> ws[i].Finished?;
    assert multiset(after) + Pending(next, listening) == multiset(recorded) + Pending(ws, listening) by {
      PendingUpdate(ws, w, Ready, listening);
      var held := PendingOf(ws[w], listening);
      assert PendingOf(Ready, listening) == multiset{};
      assert multiset(after) == multiset(recorded) + held;
      AddNothing(Pending(ws, listening));
      ProbeRebalances(multiset(recorded), Pending(ws, listening), multiset(after), Pending(next, listening), held);
    }
  }

  lemma ProbeRebalances(r: multiset<int>, p: multiset<int>, r2: multiset<int>, p2: multiset<int>, h: multiset<int>)
    requires p2 + h == p
    requires r2 == r + h
    ensures r2 + p2 == r + p
  {
    forall x ensures (r2 + p2)[x] == (r + p)[x] {
      assert (p2 + h)[x] == p[x];
    }
  }

  /** A pool of ready workers that has claimed nothing is balanced. */
  lemma PoolStart(base: seq<int>, ws: seq<WorkerState>, ports: seq<int>, from: nat, listening: set<int>)
    requires from <= |ports|
    requires forall i :: 0 <= i < |ws| ==> ws[i].Ready?
    ensures Balanced(base, ws, ports, from, from, base, listening)
  {
    NothingPending(ws, listening);
    assert ports[from..from] == [];
  }

  /** Once every worker of a non-empty pool has returned, the list is exhausted and the result
      list has gained exactly the open ports of the claimed part of the list. */
  lemma PoolEnd(recorded: seq<int>, ws: seq<WorkerState>, ports: seq<int>, from: nat, index: nat,
                base: seq<int>, listening: set<int>)
    requires Balanced(recorded, ws, ports, from, index, base, listening)
    requires ws != [] && forall i :: 0 <= i < |ws| ==> ws[i].Finished?
    ensures index == |ports|
    ensures multiset(recorded) == multiset(base) + multiset(OpenOf(ports[from..], listening))
  {
    assert ws[0].Finished?;
    NothingPending(ws, listening);
    assert ports[from..index] == ports[from..];
    assert multiset(recorded) + multiset{} == multiset(recorded);
  }

  /** The shared state of a running pool: a consistent cursor and a balanced account. */
  ghost predicate Accounted(cursor: Cursor, results: ResultSet, workers: seq<WorkerState>,
                            from: nat, base: seq<int>, listening: set<int>)
    reads cursor, results
  {
    && cursor.Valid()
    && Balanced(results.openPorts, workers, cursor.ports, from, cursor.index, base, listening)
  }

  /** The claim step of a ready worker `w`: it then holds the port under the cursor, with the
      advanced cursor as its `done` count, or it returns when the list is exhausted. The
      result list is untouched, the pool stays accounted for and the measure drops. */
  method ClaimStep(cursor: Cursor, results: ResultSet, workers: seq<WorkerState>, w: nat,
                   listening: set<int>, ghost from: nat, ghost base: seq<int>)
    returns (next: seq<WorkerState>)
    requires w < |workers| && workers[w].Ready?
    requires Accounted(cursor, results, workers, from, base, listening)
    modifies cursor
    ensures Accounted(cursor, results, next, from, base, listening)
    ensures 2 * (|cursor.ports| - cursor.index) + Weight(next) <
            old(2 * (|cursor.ports| - cursor.index)) + Weight(workers)
    ensures old(cursor.index) < |cursor.ports| ==>
              && cursor.index == old(cursor.index) + 1
              && next == workers[w := Probing(cursor.ports[old(cursor.index)], cursor.index)]
    ensures |cursor.ports| <= old(cursor.index) ==>
              cursor.index == old(cursor.index) && next == workers[w := Finished]
  {
    ghost var before := cursor.index;
    var c := cursor.Claim();
    match c {
      case Port(port, done) =>
        BalancedAfterClaim(results.openPorts, workers, cursor.ports, from, before, base, listening, w);
        next := workers[w := Probing(port, done)];
      case Exhausted =>
        BalancedAfterExhausted(results.openPorts, workers, cursor.ports, from, before, base, listening, w);
        next := workers[w := Finished];
    }
  }

  /** The end of the probe of worker `w`: the port is appended when the probe succeeds, and
      the worker is ready to claim again. The cursor is untouched, the pool stays accounted
      for and the measure drops. */
  method ProbeStep(cursor: Cursor, results: ResultSet, workers: seq<WorkerState>, w: nat,
                   listening: set<int>, ghost from: nat, ghost base: seq<int>)
    returns (next: seq<WorkerState>)
    requires w < |workers| && workers[w].Probing?
    requires Accounted(cursor, results, workers, from, base, listening)
    modifies results
    ensures Accounted(cursor, results, next, from, base, listening)
    ensures Weight(next) < Weight(workers)
    ensures next == workers[w := Ready]
    ensures results.openPorts ==
            old(results.openPorts) + if workers[w].port in listening then [workers[w].port] else []
  {
    var port := workers[w].port;
    ghost var recorded := results.openPorts;
    if port in listening {
      results.Append(port);
    }
    BalancedAfterProbe(recorded, workers, cursor.ports, from, cursor.index, base, listening, w, results.openPorts);
    next := workers[w := Ready];
  }

  /** The pool of `count` workers sharing one cursor and one result list, run until every
      worker has returned (the join barrier). `pick(n)` names the worker that takes atomic
      step n (when it names a returned worker, the first live one moves instead), so every
      interleaving of the threads at lock granularity is one choice of `pick`.
      With at least one worker, the cursor ends at the end of the list and the result list
      has gained exactly the open ports claimed, each once, in some order. What the result
      list held before stays in place: the workers only append. */
  method RunWorkers(cursor: Cursor, results: ResultSet, count: nat, listening: set<int>, pick: nat -> nat)
    requires cursor.Valid()
    modifies cursor, results
    ensures cursor.Valid()
    ensures 0 < count ==> cursor.index == |cursor.ports|
    ensures 0 < count ==>
              multiset(results.openPorts) ==
              multiset(old(results.openPorts)) + multiset(OpenOf(cursor.ports[old(cursor.index)..], listening))
    ensures old(results.openPorts) <= results.openPorts
    ensures count == 0 ==> cursor.index == old(cursor.index) && results.openPorts == old(results.openPorts)
  {
    ghost var from := cursor.index;
    ghost var base := results.openPorts;
    var workers := seq(count, _ => Ready);
    var step: nat := 0;
    PoolStart(base, workers, cursor.ports, from, listening);
    while true
      invariant Accounted(cursor, results, workers, from, base, listening)
      invariant |workers| == count
      invariant base <= results.openPorts
      invariant count == 0 ==> cursor.index == from && results.openPorts == base
      decreases 2 * (|cursor.ports| - cursor.index) + Weight(workers)
    {
      var w := FirstLive(workers);
      if w < 0 {
        break;
      }
      var chosen := pick(step) % count;
      if !workers[chosen].Finished? {
        w := chosen;
      }
      step := step + 1;
      if workers[w].Ready? {
        workers := ClaimStep(cursor, results, workers, w, listening, from, base);
      } else {
        workers := ProbeStep(cursor, results, workers, w, listening, from, base);
      }
    }
    if 0 < count {
      PoolEnd(results.openPorts, workers, cursor.ports, from, cursor.index, base, listening);
    }
  }

  /** `main` from the range check to the sorted result: refuse a bad range; otherwise build
      the port list, start `min(threads, len(ports))` workers over a fresh cursor and an empty
      result list, join them, and sort. Whatever the scheduler does, the result is the open
      ports of the range in ascending order, without duplicates; with no thread requested
      nothing is scanned and the result is empty. */
  method Scan(start: int, end: int, threads: int, listening: set<int>, pick: nat -> nat) returns (r: Outcome)
    ensures r == InvalidRange <==> RangeRejected(start, end)
    ensures r.Scanned? && 0 < threads ==> r.openPorts == OpenOf(PortRange(start, end), listening)
    ensures r.Scanned? && threads <= 0 ==> r.openPorts == []
    ensures r.Scanned? ==> StrictlyAscending(r.openPorts)
    ensures r.Scanned? ==> forall p :: p in r.openPorts <==> start <= p <= end && (0 < threads && p in listening)
  {
    if RangeRejected(start, end) {
      return InvalidRange;
    }
    var ports := PortRange(start, end);
    PortListShape(start, end);
    var cursor := new Cursor(ports);
    var results := new ResultSet();
    var count := WorkerCount(threads, |ports|);
    RunWorkers(cursor, results, count, listening, pick);
    ghost var appended := results.openPorts;
    results.Sort();
    if 0 < count {
      assert ports[0..] == ports;
      SortRecoversOpenPorts(appended, ports, listening);
      OpenOfMembers(ports, listening);
    }
    r := Scanned(results.openPorts);
  }

  /** Two scans of the same range against the same listening ports agree, whatever the two
      schedules and whatever positive thread counts were asked for: asking for more threads
      than ports, or scanning again, changes nothing in the result. */
  method ScanDeterministic(start: int, end: int, threads1: int, threads2: int, listening: set<int>,
                           pick1: nat -> nat, pick2: nat -> nat)
    returns (r1: Outcome, r2: Outcome)
    requires 0 < threads1 && 0 < threads2
    ensures r1 == r2
  {
    r1 := Scan(start, end, threads1, listening, pick1);
    r2 := Scan(start, end, threads2, listening, pick2);
  }
}
