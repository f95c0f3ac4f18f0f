/** The shared result list `open_ports`: appended to by workers, sorted by `main` at the end. */
module Results {
  import opened Order

  /** The ports of `ports` whose probe succeeds (those in `listening`), in list order. */
  function OpenOf(ports: seq<int>, listening: set<int>): (r: seq<int>)
    ensures |r| <= |ports|
  {
    if ports == [] then []
    else (if ports[0] in listening then [ports[0]] else []) + OpenOf(ports[1..], listening)
  }

  /** A port is among the open ports of a list exactly when it is in the list and its probe
      succeeds. */
  lemma {:induction false} OpenOfMembers(ports: seq<int>, listening: set<int>)
    ensures forall p :: p in OpenOf(ports, listening) <==> p in ports && p in listening
  {
    if ports != [] {
      OpenOfMembers(ports[1..], listening);
      assert ports == [ports[0]] + ports[1..];
    }
  }

  /** Filtering distributes over concatenation, so the open ports of a list can be
      collected piece by piece, one claimed port at a time. */
  lemma {:induction false} OpenOfAppend(a: seq<int>, b: seq<int>, listening: set<int>)
    ensures OpenOf(a + b, listening) == OpenOf(a, listening) + OpenOf(b, listening)
  {
    if a == [] {
      assert a + b == b;
    } else {
      var head := if a[0] in listening then [a[0]] else [];
      assert (a + b)[0] == a[0];
      assert (a + b)[1..] == a[1..] + b;
      OpenOfAppend(a[1..], b, listening);
      calc {
        OpenOf(a + b, listening);
        head + OpenOf(a[1..] + b, listening);
        head + (OpenOf(a[1..], listening) + OpenOf(b, listening));
        (head + OpenOf(a[1..], listening)) + OpenOf(b, listening);
        OpenOf(a, listening) + OpenOf(b, listening);
      }
    }
  }

  /** The open ports of a strictly increasing list are strictly increasing. */
  lemma {:induction false} OpenOfStrictlyAscending(ports: seq<int>, listening: set<int>)
    requires StrictlyAscending(ports)
    ensures StrictlyAscending(OpenOf(ports, listening))
  {
    if ports != [] {
      var tail := ports[1..];
      OpenOfStrictlyAscending(tail, listening);
      OpenOfMembers(tail, listening);
      var rest := OpenOf(tail, listening);
      forall q | q in rest ensures ports[0] < q {
        var j :| 0 <= j < |tail| && tail[j] == q;
        assert ports[j + 1] == q;
      }
      if ports[0] in listening {
        var r := OpenOf(ports, listening);
        assert r == [ports[0]] + rest;
        forall i, j | 0 <= i < j < |r| ensures r[i] < r[j] {
          assert r[j] == rest[j - 1];
          if i > 0 {
            assert r[i] == rest[i - 1];
          } else {
            assert rest[j - 1] in rest;
          }
        }
      }
    }
  }

  /** Insert `x` before the first element of `s` that is not below it. */
  function Insert(x: int, s: seq<int>): (r: seq<int>)
    ensures multiset(r) == multiset(s) + multiset{x}
  {
    if s == [] || x <= s[0] then [x] + s
    else
      assert s == [s[0]] + s[1..];
      [s[0]] + Insert(x, s[1..])
  }

  /** Every element of `s` is at least `lo`. */
  predicate AtLeast(s: seq<int>, lo: int)
  {
    forall k :: 0 <= k < |s| ==> lo <= s[k]
  }

  /** Prepending a lower bound to an ascending list keeps it ascending. */
  lemma ConsAscending(h: int, t: seq<int>)
    requires Ascending(t) && AtLeast(t, h)
    ensures Ascending([h] + t)
  {
    var r := [h] + t;
    forall i, j | 0 <= i < j < |r| ensures r[i] <= r[j] {
      assert r[j] == t[j - 1];
      if i > 0 {
        assert r[i] == t[i - 1];
      }
    }
  }

  /** Inserting a value that respects a lower bound keeps the bound. */
  lemma {:induction false} InsertAtLeast(x: int, s: seq<int>, lo: int)
    requires AtLeast(s, lo) && lo <= x
    ensures AtLeast(Insert(x, s), lo)
  {
    if s != [] && x > s[0] {
      InsertAtLeast(x, s[1..], lo);
      var r := Insert(x, s);
      assert r == [s[0]] + Insert(x, s[1..]);
    }
  }

  /** Inserting into an ascending list keeps it ascending. */
  lemma {:induction false} InsertAscending(x: int, s: seq<int>)
    requires Ascending(s)
    ensures Ascending(Insert(x, s))
  {
    if s == [] || x <= s[0] {
      assert AtLeast(s, x);
      ConsAscending(x, s);
    } else {
      var t := s[1..];
      assert Ascending(t);
      assert AtLeast(t, s[0]);
      InsertAscending(x, t);
      InsertAtLeast(x, t, s[0]);
      ConsAscending(s[0], Insert(x, t));
    }
  }

  /** The sort performed on `open_ports` (an insertion sort has the same result as Python's
      `list.sort()` on integers: the unique ascending permutation). */
  function SortSeq(s: seq<int>): (r: seq<int>)
    ensures Ascending(r)
    ensures multiset(r) == multiset(s)
  {
    if s == [] then []
    else
      assert s == [s[0]] + s[1..];
      InsertAscending(s[0], SortSeq(s[1..]));
      Insert(s[0], SortSeq(s[1..]))
  }

  /** The head of an ascending list is below every element of it. */
  lemma HeadIsLeast(a: seq<int>, y: int)
    requires Ascending(a) && y in multiset(a)
    ensures a[0] <= y
  {
    var i :| 0 <= i < |a| && a[i] == y;
  }

  lemma AscendingTail(a: seq<int>)
    requires a != [] && Ascending(a)
    ensures Ascending(a[1..])
  {
    forall i, j | 0 <= i < j < |a| - 1 ensures a[1..][i] <= a[1..][j] {
      assert a[1..][i] == a[i + 1] && a[1..][j] == a[j + 1];
    }
  }

  lemma TailMultiset(a: seq<int>)
    requires a != []
    ensures multiset(a[1..]) == multiset(a) - multiset{a[0]}
  {
    assert a == [a[0]] + a[1..];
  }

  /** Two ascending lists with the same elements agree on their head and on the elements and
      order of their tails. */
  lemma SameHeadSameTail(a: seq<int>, b: seq<int>)
    requires a != [] && Ascending(a) && Ascending(b)
    requires multiset(a) == multiset(b)
    ensures b != [] && a[0] == b[0]
    ensures multiset(a[1..]) == multiset(b[1..])
    ensures Ascending(a[1..]) && Ascending(b[1..])
  {
    assert a[0] in multiset(a);
    assert b != [];
    assert b[0] in multiset(b);
    HeadIsLeast(b, a[0]);
    HeadIsLeast(a, b[0]);
    TailMultiset(a);
    TailMultiset(b);
    AscendingTail(a);
    AscendingTail(b);
  }

  /** An ascending list is determined by its multiset of elements. */
  lemma {:induction false} AscendingUnique(a: seq<int>, b: seq<int>)
    requires Ascending(a) && Ascending(b)
    requires multiset(a) == multiset(b)
    ensures a == b
    decreases |a|
  {
    if a == [] {
      assert |multiset(b)| == 0;
    } else {
      SameHeadSameTail(a, b);
      AscendingUnique(a[1..], b[1..]);
      assert a == [a[0]] + a[1..];
      assert b == [b[0]] + b[1..];
    }
  }

  /** Sorting an arrangement of the open ports of a strictly increasing list, in whatever order
      the appends arrived, yields exactly those open ports in list order: ascending, without
      duplicates. */
  lemma SortRecoversOpenPorts(appended: seq<int>, ports: seq<int>, listening: set<int>)
    requires StrictlyAscending(ports)
    requires multiset(appended) == multiset(OpenOf(ports, listening))
    ensures SortSeq(appended) == OpenOf(ports, listening)
    ensures StrictlyAscending(SortSeq(appended)) && NoDuplicates(SortSeq(appended))
  {
    var open := OpenOf(ports, listening);
    OpenOfStrictlyAscending(ports, listening);
    StrictImpliesAscendingAndDistinct(open);
    AscendingUnique(SortSeq(appended), open);
  }

  /** The result list `open_ports`. */
  class ResultSet {
    var openPorts: seq<int>

    constructor ()
      ensures openPorts == []
    {
      openPorts := [];
    }

    /** `open_ports.append(port)`, done under the lock. */
    method Append(port: int)
      modifies this
      ensures openPorts == old(openPorts) + [port]
    {
      openPorts := openPorts + [port];
    }

    /** `open_ports.sort()`: the list becomes the ascending permutation of what it held. */
    method Sort()
      modifies this
      ensures openPorts == SortSeq(old(openPorts))
      ensures Ascending(openPorts) && multiset(openPorts) == multiset(old(openPorts))
    {
      openPorts := SortSeq(openPorts);
    }
  }
}
