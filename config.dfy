/** The scan configuration checks and setup done by `main` before any worker starts. */
module PortConfig {
  import opened Order

  const MinPort := 1
  const MaxPort := 65535

  /** The range guard of `main`: true when the range must be refused. */
  predicate RangeRejected(start: int, end: int)
  {
    start < MinPort || end > MaxPort || start > end
  }

  /** The guard refuses exactly the ranges outside 1 <= start <= end <= 65535. */
  lemma RangeAccepted(start: int, end: int)
    ensures !RangeRejected(start, end) <==> MinPort <= start <= end <= MaxPort
  {
  }

  /** The port list `range(start, end + 1)`: empty when end < start. */
  function PortRange(start: int, end: int): (ports: seq<int>)
    decreases end - start
    ensures |ports| == if start <= end then end - start + 1 else 0
    ensures forall i :: 0 <= i < |ports| ==> ports[i] == start + i
  {
    if start > end then [] else [start] + PortRange(start + 1, end)
  }

  /** For an accepted range the list has end - start + 1 elements, increases strictly,
      holds exactly the ports of [start, end], and each of them is a valid TCP port. */
  lemma PortListShape(start: int, end: int)
    requires !RangeRejected(start, end)
    ensures |PortRange(start, end)| == end - start + 1
    ensures StrictlyAscending(PortRange(start, end))
    ensures forall p :: p in PortRange(start, end) <==> start <= p <= end
    ensures forall i :: 0 <= i < |PortRange(start, end)| ==> MinPort <= PortRange(start, end)[i] <= MaxPort
  {
    var ports := PortRange(start, end);
    forall p | start <= p <= end ensures p in ports {
      assert ports[p - start] == p;
    }
  }

  /** Number of threads `main` starts: `range(min(threads_count, len(ports)))`,
      which is empty when the minimum is not positive. */
  function WorkerCount(threads: int, total: nat): (count: nat)
    ensures count <= total
    ensures threads <= 0 ==> count == 0
    ensures 0 < threads ==> count <= threads
    ensures count == total || count == threads || (count == 0 && threads <= 0)
    ensures 0 < threads && 0 < total ==> 0 < count
  {
    var m := if threads < total then threads else total;
    if m < 0 then 0 else m
  }

  /** Asking for more threads than there are ports starts as many workers as there are ports. */
  lemma ExcessThreadsCapped(threads: int, total: nat)
    requires total <= threads
    ensures WorkerCount(threads, total) == WorkerCount(total, total) == total
  {
  }
}
