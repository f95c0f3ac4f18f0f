# Simple Port Scanner: a Dafny model of the scan engine

`portscan.py` probes a contiguous range of TCP ports with a pool of threads. The threads
share two things: a cursor into the immutable port list (`state['index']`, advanced under a
lock) and the result list `open_ports` (appended to under the same lock). `main` first checks
the range, then builds the port list. It starts `min(threads, len(ports))` workers, joins
them and sorts the result.

This project models that bookkeeping and proves what the scanner relies on:

- every port is handed out exactly once, in list order;
- exhaustion ends every worker and stays exhausted;
- the sorted result is exactly the listening ports of the range, ascending and without
  duplicates, whatever the interleaving of the threads.

Modules, one per component:

- `Order` (order.dfy): the orderings used on port lists (ascending, strictly ascending, without
  duplicates).
- `PortConfig` (config.dfy): the range guard, the port list `range(start, end + 1)` and the
  worker count.
- `Progress` (progress.dfy): the throttle on the progress line, `done % max(1, total // 100) == 0
  or done <= 50`.
- `Distributor` (distributor.dfy): the claim step. Claims are specified by the pure functions
  `Step` and `Claims`, and the class `Cursor` holds the port list and the cursor. A ghost log
  in `Cursor` records every claim made by any worker, so any interleaving of the workers is
  one sequence of claims.
- `Results` (results.dfy): `OpenOf`, the open ports among a list, in list order; the sort
  (`SortSeq`, an insertion sort, whose result is the unique ascending permutation, the same as
  Python's `list.sort()` on integers); and the class `ResultSet` for `open_ports`.
- `Engine` (engine.dfy): the worker loop, the worker pool and `main`'s scan.

The pool (`RunWorkers`) works at lock granularity. A worker's atomic steps are a claim, and
the end of a probe together with its append. An abstract scheduler `pick: nat -> nat` chooses
which worker takes each step, so each such interleaving of the real threads is one choice of
`pick`. The probe `connect_ex((host_ip, port)) == 0` is given by `listening`, the set of ports
of the target that accept a connection.

The scanner validates only the port range. It does not check the thread count or the
timeout. With `threads <= 0`,
`range(min(threads, len(ports)))` is empty, no worker starts, and the scan reports no open
ports. `Scan` states exactly this.

## Model

| member | source | states |
|---|---|---|
| `PortConfig.RangeAccepted` | portscan.py:56 | the range guard refuses exactly the ranges outside 1 <= start <= end <= 65535 |
| `PortConfig.PortRange` | portscan.py:66 | `range(start, end + 1)` has end - start + 1 elements (none when end < start) and its i-th element is start + i |
| `PortConfig.PortListShape` | portscan.py:66 | for an accepted range the port list has end - start + 1 elements, is strictly increasing, holds exactly the ports of [start, end], and each lies in [1, 65535] |
| `PortConfig.WorkerCount` | portscan.py:76 | the number of workers started is never more than the number of ports, none when threads <= 0, at most threads, and at least one when both are positive |
| `PortConfig.ExcessThreadsCapped` | portscan.py:76 | asking for at least as many threads as ports starts exactly one worker per port, as many as asking for exactly that many |
| `Progress.Divisor` | portscan.py:32 | `max(1, total // 100)` is at least 1, so the modulo never divides by zero; it is 1 below 200 ports and from 200 ports on exactly `total // 100` |
| `Progress.EarlyClaimsShown` | portscan.py:32 | the first fifty claims always print progress |
| `Progress.SmallScansAlwaysShown` | portscan.py:32 | below 200 ports every claim prints progress |
| `Progress.ReportGapBounded` | portscan.py:32 | among any `Divisor(total)` consecutive claim counts at least one prints progress |
| `Progress.FinalCountCanBeSkipped` | portscan.py:32 | the last claim (total/total) always prints below 200 ports; from 200 ports on it prints exactly when `total // 100` divides the total, so with 201 ports it prints nothing |
| `Distributor.ClaimsInOrder` | portscan.py:10-16 | the i-th of k successive claims from cursor `index` returns `ports[index + i]` with done = index + i + 1 while inside the list, and exhaustion after; the cursor ends at min(index + k, len) and never moves once past the end |
| `Distributor.ClaimedPortsAreSlice` | portscan.py:10-16 | k claims from a cursor inside the list hand out exactly the next min(k, remaining) ports, each once, in list order |
| `Distributor.EveryPortClaimedOnce` | portscan.py:8-16 | from cursor 0, once at least len(ports) claims have been made, the ports handed out are exactly the list, each once, in order |
| `Distributor.ClaimDone` | portscan.py:13-16 | from cursor 0 the i-th claim, when it hands out a port, hands out `ports[i]` with done = i + 1, at most len(ports); this holds for a one-port range too |
| `Distributor.DoneCountsClaims` | portscan.py:13-16 | from cursor 0 for two port claims i < j the `done` counts are i + 1 < j + 1 <= len(ports), so no two claims share a `done`, and over a list without repeats no two claims hand out the same port |
| `Distributor.ExhaustionAbsorbing` | portscan.py:11-12 | once a claim reports exhaustion every later claim does too |
| `Distributor.Cursor.constructor` | portscan.py:69 | the cursor starts at 0 over the given list with nothing claimed |
| `Distributor.Cursor.Claim` | portscan.py:10-16 | below the end it returns `ports[index]` with done = index + 1 and advances by one; at or past the end it returns exhaustion and leaves the cursor alone; the list never changes and the cursor never passes the end |
| `Distributor.LogInOrder` | portscan.py:8-16 | whatever the interleaving of workers, the log of all claims made is the list in order, one port per claim, then only exhaustion |
| `Results.OpenOfMembers` | portscan.py:22-25 | a port is among the recorded open ports exactly when it is in the list and accepts a connection |
| `Results.OpenOfStrictlyAscending` | portscan.py:22-25 | the open ports of a strictly increasing list are strictly increasing |
| `Results.SortSeq` | portscan.py:93 | the sort yields an ascending list with the same elements (a permutation) |
| `Results.AscendingUnique` | portscan.py:93 | two ascending lists with the same elements are equal, so the sorted result does not depend on the append order |
| `Results.SortRecoversOpenPorts` | portscan.py:93 | sorting any arrangement of the open ports of a strictly increasing list gives exactly those ports in list order, ascending, without duplicates |
| `Results.ResultSet.constructor` | portscan.py:67 | the result list starts empty |
| `Results.ResultSet.Append` | portscan.py:24-25 | the port is added at the end of the result list |
| `Results.ResultSet.Sort` | portscan.py:93 | the result list becomes the ascending permutation of what it held |
| `Engine.Worker` | portscan.py:7-29 | one worker run alone from any consistent cursor ends with the cursor at the end of the list, and it appends exactly the open ports it claimed, in list order |
| `Engine.ClaimStep` | portscan.py:10-16 | a ready worker holds the port under the cursor with its `done` count, or returns on exhaustion; the pool's accounting is kept and the termination measure drops |
| `Engine.ProbeStep` | portscan.py:22-25 | a probing worker appends its port exactly when the port accepts a connection, then is ready to claim again; the accounting is kept and the measure drops |
| `Engine.RunWorkers` | portscan.py:75-84 | for any schedule, a pool of at least one worker ends with the cursor at the end of the list; the result list keeps what it held as a prefix and has gained exactly the open ports of the list, each once, in some order; with no worker nothing changes |
| `Engine.Scan` | portscan.py:56-93 | a bad range is refused; otherwise, when a positive thread count is asked for, whatever the schedule, the result is the open ports of the range in list order: ascending, without duplicates, and containing a port exactly when it lies in [start, end] and accepts a connection; with threads <= 0 the result is empty |
| `Engine.ScanDeterministic` | portscan.py:75-93 | two scans of the same range against the same listening ports give equal results, for any two schedules and any two positive thread counts, including more threads than ports |

## Left out

- Sockets are left out. This covers socket creation, `settimeout`, `connect_ex`, the swallowed
  exceptions and `close` (portscan.py:19-29). They are operating-system networking, and the
  set `listening` stands in for the probe's outcome. Two consequences the model does not capture:
  a `settimeout` error on a bad timeout, or a failing `socket.socket(...)` (too many open
  files with many threads), both outside the `try`, would end a thread after its claim, so
  the claimed port would never be probed.
- The conversion `timeout_ms / 1000.0` (portscan.py:63) is left out. It is floating point and
  only feeds the socket.
- Real threads are left out: `daemon=True`, `start`, `join`, and the `KeyboardInterrupt` exit
  with status 130 (portscan.py:75-87). The lock is modelled only as atomic claim and append
  steps, and the scheduler as the function `pick`. Parallel execution inside a probe does not
  matter to the bookkeeping.
- Interactive I/O is left out: `prompt` / `input`, the `int()` parsing, `gethostbyname` and its
  exit status 2 (portscan.py:36-55, 61-62). The range check becomes the predicate `RangeRejected` and
  the outcome `InvalidRange`, instead of `sys.exit(1)`.
- All printing and the `time.time()` elapsed measurement are left out (portscan.py:33, 42-43,
  72-73, 90-99). The progress line is modelled only as the predicate `ShowsProgress`.
- Engine.Worker: it models one thread that runs alone until exhaustion. Several threads
  interleaving are modelled by `Engine.RunWorkers`.
