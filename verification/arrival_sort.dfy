/**
 * The ordering step of the scheduling pass: `[...readyQueue].sort((a, b) =>
 * a.arrival - b.arrival)` (src/App.js:21). `Array.prototype.sort` is stable
 * (ECMAScript 2019, Array.prototype.sort), so processes with equal arrival keep
 * their ready-queue order. It is modelled as a stable insertion sort and
 * characterised by "sorted by arrival, and for every arrival time the
 * processes with that arrival come in input order"; that characterisation
 * determines the result uniquely.
 */
module ArrivalSort {
  import opened Processes

  ghost predicate SortedByArrival(s: seq<Process>) {
    forall i, j :: 0 <= i < j < |s| ==> s[i].arrival <= s[j].arrival
  }

  /** The subsequence of `s` of the processes that arrive at time `a`. */
  function WithArrival(s: seq<Process>, a: nat): seq<Process> {
    if s == [] then []
    else (if s[0].arrival == a then [s[0]] else []) + WithArrival(s[1..], a)
  }

  /**
   * Inserts `p` in front of the first process of `s` that arrives no earlier
   * than `p`; `p` stands for an element that came earlier in the input than
   * every element of `s`.
   */
  function Insert(p: Process, s: seq<Process>): (r: seq<Process>)
    ensures multiset(r) == multiset(s) + multiset{p}
    ensures |r| == |s| + 1
  {
    if s == [] || p.arrival <= s[0].arrival then [p] + s
    else
      assert s == [s[0]] + s[1..];
      [s[0]] + Insert(p, s[1..])
  }

  lemma {:induction false} InsertSorted(p: Process, s: seq<Process>)
    requires SortedByArrival(s)
    ensures SortedByArrival(Insert(p, s))
  {
    if s != [] && p.arrival > s[0].arrival {
      var r := Insert(p, s);
      var rest := Insert(p, s[1..]);
      InsertSorted(p, s[1..]);
      assert r == [s[0]] + rest;
      forall x | x in rest ensures s[0].arrival <= x.arrival {
        assert x in multiset(rest);
        if x != p {
          assert x in multiset(s[1..]);
          var k :| 0 <= k < |s[1..]| && s[1..][k] == x;
          assert s[k + 1] == x;
        }
      }
      forall i, j | 0 <= i < j < |r| ensures r[i].arrival <= r[j].arrival {
        assert r[j] == rest[j - 1] && rest[j - 1] in rest;
        if i > 0 {
          assert r[i] == rest[i - 1];
        }
      }
    }
  }

  /** The processing order: the ready queue sorted stably by arrival. */
  function SortByArrival(s: seq<Process>): (r: seq<Process>)
    ensures |r| == |s|
  {
    if s == [] then [] else Insert(s[0], SortByArrival(s[1..]))
  }

  /** The processing order is sorted by arrival ascending. */
  lemma {:induction false} SortByArrivalSorted(s: seq<Process>)
    ensures SortedByArrival(SortByArrival(s))
  {
    if s != [] {
      SortByArrivalSorted(s[1..]);
      InsertSorted(s[0], SortByArrival(s[1..]));
    }
  }

  /** The processing order is a permutation of the ready queue. */
  lemma {:induction false} SortByArrivalPermutes(s: seq<Process>)
    ensures multiset(SortByArrival(s)) == multiset(s)
  {
    if s != [] {
      var t := SortByArrival(s[1..]);
      SortByArrivalPermutes(s[1..]);
      calc {
        multiset(SortByArrival(s));
        multiset(Insert(s[0], t));
        multiset(t) + multiset{s[0]};
        multiset(s[1..]) + multiset{s[0]};
        { assert s == [s[0]] + s[1..]; }
        multiset(s);
      }
    }
  }

  lemma {:induction false} WithArrivalAppend(s: seq<Process>, t: seq<Process>, a: nat)
    ensures WithArrival(s + t, a) == WithArrival(s, a) + WithArrival(t, a)
  {
    if s != [] {
      assert (s + t)[1..] == s[1..] + t;
      WithArrivalAppend(s[1..], t, a);
    } else {
      assert s + t == t;
    }
  }

  /** Inserting `p` puts it first among the processes with its arrival time. */
  lemma {:induction false} InsertKeepsTies(p: Process, s: seq<Process>, a: nat)
    ensures WithArrival(Insert(p, s), a) == (if p.arrival == a then [p] else []) + WithArrival(s, a)
  {
    if s == [] || p.arrival <= s[0].arrival {
      WithArrivalAppend([p], s, a);
    } else {
      assert s == [s[0]] + s[1..];
      WithArrivalAppend([s[0]], Insert(p, s[1..]), a);
      WithArrivalAppend([s[0]], s[1..], a);
      InsertKeepsTies(p, s[1..], a);
    }
  }

  /** Stability: for every arrival time, sorting keeps the input order of the processes with it. */
  lemma {:induction false} SortKeepsTies(s: seq<Process>, a: nat)
    ensures WithArrival(SortByArrival(s), a) == WithArrival(s, a)
  {
    if s != [] {
      SortKeepsTies(s[1..], a);
      InsertKeepsTies(s[0], SortByArrival(s[1..]), a);
    }
  }

  /** A process arriving at `a` occurs in `t` when `a`'s subsequence is not empty. */
  lemma {:induction false} WithArrivalWitness(t: seq<Process>, a: nat)
    requires WithArrival(t, a) != []
    ensures exists i :: 0 <= i < |t| && t[i].arrival == a
  {
    if t[0].arrival != a {
      WithArrivalWitness(t[1..], a);
      var i :| 0 <= i < |t[1..]| && t[1..][i].arrival == a;
      assert t[i + 1].arrival == a;
    }
  }

  lemma {:induction false} FirstArrivalNoLater(t: seq<Process>, u: seq<Process>)
    requires SortedByArrival(u) && t != []
    requires forall a: nat :: WithArrival(t, a) == WithArrival(u, a)
    ensures u != [] && u[0].arrival <= t[0].arrival
  {
    var a := t[0].arrival;
    assert WithArrival(t, a) == [t[0]] + WithArrival(t[1..], a);
    assert WithArrival(u, a) != [];
    WithArrivalWitness(u, a);
  }

  /**
   * Two sequences sorted by arrival with the same processes per arrival time,
   * in the same order, are equal.
   */
  lemma {:induction false} SortedTiesDetermine(t: seq<Process>, u: seq<Process>)
    requires SortedByArrival(t) && SortedByArrival(u)
    requires forall a: nat :: WithArrival(t, a) == WithArrival(u, a)
    ensures t == u
  {
    if t == [] && u != [] {
      FirstArrivalNoLater(u, t);
    } else if t != [] {
      var a0 := t[0].arrival;
      FirstArrivalNoLater(t, u);
      FirstArrivalNoLater(u, t);
      assert WithArrival(t, a0) == [t[0]] + WithArrival(t[1..], a0);
      assert WithArrival(u, a0) == [u[0]] + WithArrival(u[1..], a0);
      assert t[0] == WithArrival(t, a0)[0] == WithArrival(u, a0)[0] == u[0];
      forall a: nat ensures WithArrival(t[1..], a) == WithArrival(u[1..], a) {
        var head := if a0 == a then [t[0]] else [];
        assert WithArrival(t, a) == head + WithArrival(t[1..], a);
        assert WithArrival(u, a) == head + WithArrival(u[1..], a);
        assert WithArrival(t, a) == WithArrival(u, a);
        assert WithArrival(t[1..], a) == (head + WithArrival(t[1..], a))[|head|..];
        assert WithArrival(u[1..], a) == (head + WithArrival(u[1..], a))[|head|..];
      }
      SortedTiesDetermine(t[1..], u[1..]);
      assert t == [t[0]] + t[1..] && u == [u[0]] + u[1..];
    }
  }

  /** A sequence with the properties of the processing order is the processing order. */
  lemma SortByArrivalUnique(s: seq<Process>, t: seq<Process>)
    requires SortedByArrival(t)
    requires forall a: nat :: WithArrival(t, a) == WithArrival(s, a)
    ensures t == SortByArrival(s)
  {
    forall a: nat ensures WithArrival(t, a) == WithArrival(SortByArrival(s), a) {
      SortKeepsTies(s, a);
    }
    SortByArrivalSorted(s);
    SortedTiesDetermine(t, SortByArrival(s));
  }
}
