/** The work distributor: the lock-guarded claim step at the top of each worker's loop.
    The lock makes the step atomic, so any interleaving of workers is a sequence of claims
    against one shared cursor. */
module Distributor {
  import opened Order

  /** What one claim hands a worker: the port and the cursor value after the claim
      (the `done` count of the worker), or exhaustion, which ends the worker's loop. */
  datatype Claim = Port(port: int, done: nat) | Exhausted

  /** One claim against the cursor `index`: the claim returned and the next cursor value. */
  function Step(ports: seq<int>, index: nat): (r: (Claim, nat))
  {
    if index >= |ports| then (Exhausted, index)
    else (Port(ports[index], index + 1), index + 1)
  }

  /** The claims returned by `k` successive claim steps starting at cursor `index`. */
  function Claims(ports: seq<int>, index: nat, k: nat): (cs: seq<Claim>)
    decreases k
    ensures |cs| == k
  {
    if k == 0 then [] else [Step(ports, index).0] + Claims(ports, Step(ports, index).1, k - 1)
  }

  /** The cursor value after `k` successive claim steps starting at `index`. */
  function IndexAfter(ports: seq<int>, index: nat, k: nat): (next: nat)
    decreases k
  {
    if k == 0 then index else IndexAfter(ports, Step(ports, index).1, k - 1)
  }

  /** The claim that the cursor value `j` must produce. */
  function Expected(ports: seq<int>, j: nat): (c: Claim)
  {
    if j < |ports| then Port(ports[j], j + 1) else Exhausted
  }

  /** The ports handed out by a sequence of claims, in the order they were handed out. */
  function ClaimedPorts(cs: seq<Claim>): (ps: seq<int>)
    ensures |ps| <= |cs|
  {
    if cs == [] then []
    else (if cs[0].Port? then [cs[0].port] else []) + ClaimedPorts(cs[1..])
  }

  /** The i-th of k successive claims from `index` is the one cursor value index + i
      determines: ports are handed out in list order and exhaustion follows; the cursor
      advances one per port, stops at the end of the list and never moves once past it. */
  lemma {:induction false} ClaimsInOrder(ports: seq<int>, index: nat, k: nat)
    ensures forall i :: 0 <= i < k ==> Claims(ports, index, k)[i] == Expected(ports, index + i)
    ensures IndexAfter(ports, index, k) ==
              if index + k <= |ports| then index + k
              else if index <= |ports| then |ports| else index
    decreases k
  {
    if k > 0 {
      var next := Step(ports, index).1;
      ClaimsInOrder(ports, next, k - 1);
      var cs := Claims(ports, index, k);
      forall i | 0 <= i < k ensures cs[i] == Expected(ports, index + i) {
        if i > 0 {
          assert cs[i] == Claims(ports, next, k - 1)[i - 1];
        }
      }
    }
  }

  /** One more claim extends the claim sequence by the claim the current cursor gives. */
  lemma {:induction false} ClaimsExtend(ports: seq<int>, index: nat, k: nat)
    ensures Claims(ports, index, k + 1) ==
              Claims(ports, index, k) + [Step(ports, IndexAfter(ports, index, k)).0]
    ensures IndexAfter(ports, index, k + 1) == Step(ports, IndexAfter(ports, index, k)).1
    decreases k
  {
    if k > 0 {
      ClaimsExtend(ports, Step(ports, index).1, k - 1);
    }
  }

  /** Starting from cursor `index` within the list, k claims hand out exactly the next
      min(k, remaining) ports of the list, each once, in list order. */
  lemma {:induction false} ClaimedPortsAreSlice(ports: seq<int>, index: nat, k: nat)
    requires index <= |ports|
    ensures ClaimedPorts(Claims(ports, index, k)) ==
              ports[index..if index + k <= |ports| then index + k else |ports|]
    decreases k
  {
    if k > 0 {
      var next := Step(ports, index).1;
      ClaimedPortsAreSlice(ports, next, k - 1);
      var cs := Claims(ports, index, k);
      assert cs[1..] == Claims(ports, next, k - 1);
      if index < |ports| {
        assert ports[index..if index + k <= |ports| then index + k else |ports|] ==
               [ports[index]] + ports[next..if next + (k - 1) <= |ports| then next + (k - 1) else |ports|];
      }
    }
  }

  /** From a fresh cursor, once at least as many claims as ports have been made, every port
      of the list has been handed out exactly once and in order. */
  lemma EveryPortClaimedOnce(ports: seq<int>, k: nat)
    requires |ports| <= k
    ensures ClaimedPorts(Claims(ports, 0, k)) == ports
  {
    ClaimedPortsAreSlice(ports, 0, k);
  }

  /** From a fresh cursor the `done` reported with the i-th claim, when it hands out a port,
      is i + 1, the number of ports claimed so far, and lies between 1 and the list length. */
  lemma ClaimDone(ports: seq<int>, k: nat, i: nat)
    requires i < k && Claims(ports, 0, k)[i].Port?
    ensures Claims(ports, 0, k)[i].done == i + 1 <= |ports|
    ensures Claims(ports, 0, k)[i].port == ports[i]
  {
    ClaimsInOrder(ports, 0, k);
  }

  /** From a fresh cursor the `done` reported with a claim is the number of ports claimed so
      far, between 1 and the list length; no two claims carry the same `done`, and over a list
      without repeats no two claims hand out the same port. */
  lemma DoneCountsClaims(ports: seq<int>, k: nat, i: nat, j: nat)
    requires i < j < k
    requires Claims(ports, 0, k)[i].Port? && Claims(ports, 0, k)[j].Port?
    ensures var cs := Claims(ports, 0, k);
            && cs[i].done == i + 1 && cs[j].done == j + 1
            && 1 <= cs[i].done < cs[j].done <= |ports|
            && (NoDuplicates(ports) ==> cs[i].port != cs[j].port)
  {
    ClaimsInOrder(ports, 0, k);
  }

  /** Exhaustion is absorbing: after a claim reports exhaustion every later claim does too. */
  lemma ExhaustionAbsorbing(ports: seq<int>, index: nat, k: nat, i: nat, j: nat)
    requires i <= j < k
    requires Claims(ports, index, k)[i].Exhausted?
    ensures Claims(ports, index, k)[j].Exhausted?
  {
    ClaimsInOrder(ports, index, k);
  }

  /** The shared scan state: the immutable port list and the cursor `state['index']`.
      `issued` is the log of every claim made so far by any worker. */
  class Cursor {
    const ports: seq<int>
    var index: nat
    ghost var issued: seq<Claim>

    ghost predicate Valid()
      reads this
    {
      && index <= |ports|
      && issued == Claims(ports, 0, |issued|)
      && index == IndexAfter(ports, 0, |issued|)
    }

    /** The cursor starts at 0 with nothing claimed. */
    constructor (ports: seq<int>)
      ensures Valid()
      ensures this.ports == ports && index == 0 && issued == []
    {
      this.ports := ports;
      index := 0;
      issued := [];
    }

    /** The claim block: below the end of the list it returns the port under the cursor with
        the advanced cursor as `done` and advances by one; at or past the end it reports
        exhaustion and changes nothing. */
    method Claim() returns (c: Claim)
      modifies this
      ensures old(index) < |ports| ==> c == Port(ports[old(index)], old(index) + 1) && index == old(index) + 1
      ensures |ports| <= old(index) ==> c == Exhausted && index == old(index)
      ensures (c, index) == Step(ports, old(index))
      ensures issued == old(issued) + [c]
      ensures old(Valid()) ==> Valid()
    {
      ghost var n := |issued|;
      if index >= |ports| {
        c := Exhausted;
      } else {
        c := Port(ports[index], index + 1);
        index := index + 1;
      }
      issued := issued + [c];
      ClaimsExtend(ports, 0, n);
    }
  }

  /** Whatever interleaving of workers produced it, the claim log of a valid cursor hands out
      the ports in list order, one per claim, and then only exhaustion. */
  lemma LogInOrder(cursor: Cursor)
    requires cursor.Valid()
    ensures forall i :: 0 <= i < |cursor.issued| ==> cursor.issued[i] == Expected(cursor.ports, i)
  {
    ClaimsInOrder(cursor.ports, 0, |cursor.issued|);
  }
}
