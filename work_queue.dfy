/** The executors' priority queue of work entries, held as the sequence of its
    elements (their order in it carries no meaning), and the per-binding views
    of queues and firing histories. */
module WorkQueue {
  import opened Schedule

  /** Every entry names one of `n` bindings. */
  ghost predicate WellFormed(q: seq<WorkEntry>, n: nat) {
    forall j :: 0 <= j < |q| ==> q[j].schedule < n
  }

  /** Entry `k` has the smallest scheduled time, so `poll` may return it. How
      entries with equal times are ordered is not modelled. */
  predicate IsEarliest(q: seq<WorkEntry>, k: int) {
    0 <= k < |q| && forall j :: 0 <= j < |q| ==> q[k].time <= q[j].time
  }

  /** A non-empty queue has an earliest entry. */
  lemma {:induction false} EarliestExists(q: seq<WorkEntry>)
    requires q != []
    ensures exists k :: IsEarliest(q, k)
  {
    if |q| > 1 {
      EarliestExists(q[1..]);
      var k :| IsEarliest(q[1..], k);
      if q[0].time <= q[1..][k].time {
        assert IsEarliest(q, 0);
      } else {
        assert IsEarliest(q, k + 1);
      }
    } else {
      assert IsEarliest(q, 0);
    }
  }

  /** The queue after `poll` removed entry `k`. */
  function RemoveAt(q: seq<WorkEntry>, k: int): (r: seq<WorkEntry>)
    requires 0 <= k < |q|
    ensures |r| == |q| - 1
    ensures multiset(r) == multiset(q) - multiset{q[k]}
  {
    assert q == q[..k] + [q[k]] + q[k + 1..];
    q[..k] + q[k + 1..]
  }

  /** The scheduled times of binding `i`'s entries in `s`, in order. */
  function Times(s: seq<WorkEntry>, i: nat): (r: seq<int>)
    ensures |r| <= |s|
  {
    if s == [] then []
    else Times(s[..|s| - 1], i) + (if s[|s| - 1].schedule == i then [s[|s| - 1].time] else [])
  }

  lemma {:induction false} TimesAppend(a: seq<WorkEntry>, b: seq<WorkEntry>, i: nat)
    ensures Times(a + b, i) == Times(a, i) + Times(b, i)
    decreases |b|
  {
    if b != [] {
      var b' := b[..|b| - 1];
      assert (a + b)[..|a + b| - 1] == a + b';
      TimesAppend(a, b', i);
    } else {
      assert a + b == a;
    }
  }

  lemma TimesSingle(e: WorkEntry, i: nat)
    ensures Times([e], i) == if e.schedule == i then [e.time] else []
  {
    assert [e][..0] == [];
  }

  /** Binding `i`'s times after one more entry. */
  lemma TimesSnoc(s: seq<WorkEntry>, e: WorkEntry, i: nat)
    ensures Times(s + [e], i) == Times(s, i) + (if e.schedule == i then [e.time] else [])
  {
    assert (s + [e])[..|s|] == s;
  }

  /** Binding `i`'s entries in the queue after entry `k` was removed. */
  lemma TimesRemoveAt(q: seq<WorkEntry>, k: int, i: nat)
    requires 0 <= k < |q|
    ensures Times(q, i) == Times(q[..k], i) + Times([q[k]], i) + Times(q[k + 1..], i)
    ensures Times(RemoveAt(q, k), i) == Times(q[..k], i) + Times(q[k + 1..], i)
  {
    assert q == q[..k] + [q[k]] + q[k + 1..];
    TimesAppend(q[..k] + [q[k]], q[k + 1..], i);
    TimesAppend(q[..k], [q[k]], i);
    TimesAppend(q[..k], q[k + 1..], i);
  }

  /** The times of a queue whose `j`th entry belongs to binding `j`. */
  lemma {:induction false} TimesIndexed(q: seq<WorkEntry>, n: nat, i: nat)
    requires n <= |q|
    requires forall j :: 0 <= j < |q| ==> q[j].schedule == j
    ensures Times(q[..n], i) == if i < n then [q[i].time] else []
  {
    if n > 0 {
      assert q[..n][..n - 1] == q[..n - 1];
      TimesIndexed(q, n - 1, i);
    }
  }

  /** Each of the `n` bindings has exactly one entry in `q`, and no other
      entries are there. */
  ghost predicate OnePerSchedule(q: seq<WorkEntry>, n: nat) {
    WellFormed(q, n) && forall i :: 0 <= i < n ==> |Times(q, i)| == 1
  }

  /** The total number of entries, counted binding by binding. */
  function CountBySchedule(s: seq<WorkEntry>, n: nat): nat {
    if n == 0 then 0 else CountBySchedule(s, n - 1) + |Times(s, n - 1)|
  }

  lemma {:induction false} CountAppendOne(s: seq<WorkEntry>, e: WorkEntry, n: nat)
    ensures CountBySchedule(s + [e], n) == CountBySchedule(s, n) + (if e.schedule < n then 1 else 0)
  {
    if n > 0 {
      CountAppendOne(s, e, n - 1);
      TimesSnoc(s, e, n - 1);
    }
  }

  /** When every entry names one of `n` bindings, the per-binding counts add
      up to the whole. */
  lemma {:induction false} CountBySchedulePartitions(s: seq<WorkEntry>, n: nat)
    requires WellFormed(s, n)
    ensures CountBySchedule(s, n) == |s|
    decreases |s|
  {
    if s == [] {
      CountEmpty(n);
    } else {
      var s' := s[..|s| - 1];
      assert s == s' + [s[|s| - 1]];
      CountBySchedulePartitions(s', n);
      CountAppendOne(s', s[|s| - 1], n);
    }
  }

  /** A history of two bindings' firings is as long as theirs together. */
  lemma CountTwo(s: seq<WorkEntry>)
    requires WellFormed(s, 2)
    ensures |s| == |Times(s, 0)| + |Times(s, 1)|
  {
    CountBySchedulePartitions(s, 2);
    assert CountBySchedule(s, 1) == |Times(s, 0)|;
  }

  lemma {:induction false} CountEmpty(n: nat)
    ensures CountBySchedule([], n) == 0
  {
    if n > 0 {
      CountEmpty(n - 1);
    }
  }

  /** Scheduled times never decrease along `s`. */
  ghost predicate Sorted(s: seq<WorkEntry>) {
    forall a, b :: 0 <= a < b < |s| ==> s[a].time <= s[b].time
  }

  /** Nothing in `fired` is scheduled later than anything still queued. */
  ghost predicate NotAfter(fired: seq<WorkEntry>, q: seq<WorkEntry>) {
    forall a, b :: 0 <= a < |fired| && 0 <= b < |q| ==> fired[a].time <= q[b].time
  }

  /** Firing the earliest entry and queueing a replacement no earlier than it
      keeps the firing history in time order. */
  lemma FireKeepsOrder(fired: seq<WorkEntry>, q: seq<WorkEntry>, k: int, added: seq<WorkEntry>)
    requires Sorted(fired) && NotAfter(fired, q) && IsEarliest(q, k)
    requires forall b :: 0 <= b < |added| ==> q[k].time <= added[b].time
    ensures Sorted(fired + [q[k]])
    ensures NotAfter(fired + [q[k]], RemoveAt(q, k) + added)
  {
    var q' := RemoveAt(q, k) + added;
    forall a, b | 0 <= a < |fired| + 1 && 0 <= b < |q'|
      ensures (fired + [q[k]])[a].time <= q'[b].time
    {
      if b < |q| - 1 {
        assert q'[b] == (if b < k then q[b] else q[b + 1]);
      } else {
        assert q'[b] == added[b - (|q| - 1)];
      }
    }
  }

  /** Polling entry `k` and queueing an entry of the same binding leaves every
      binding with as many entries as before. */
  lemma ReplaceKeepsCounts(q: seq<WorkEntry>, k: int, x: int, i: nat)
    requires 0 <= k < |q|
    ensures |Times(RemoveAt(q, k) + [WorkEntry(q[k].schedule, x)], i)| == |Times(q, i)|
  {
    TimesRemoveAt(q, k, i);
    TimesAppend(RemoveAt(q, k), [WorkEntry(q[k].schedule, x)], i);
    TimesSingle(q[k], i);
    TimesSingle(WorkEntry(q[k].schedule, x), i);
  }

  /** In a queue with one entry per binding, the polled entry is its binding's
      only one; after it is replaced by an entry of its binding at `x`, that
      binding has `x` alone queued and every other binding what it had. */
  lemma ReplaceTimes(q: seq<WorkEntry>, n: nat, k: int, x: int, i: nat)
    requires OnePerSchedule(q, n) && 0 <= k < |q|
    ensures i == q[k].schedule ==> Times(q, i) == [q[k].time]
    ensures Times(RemoveAt(q, k) + [WorkEntry(q[k].schedule, x)], i) == if i == q[k].schedule then [x] else Times(q, i)
  {
    TimesRemoveAt(q, k, i);
    TimesAppend(RemoveAt(q, k), [WorkEntry(q[k].schedule, x)], i);
    TimesSingle(q[k], i);
    TimesSingle(WorkEntry(q[k].schedule, x), i);
  }

  /** So a queue with one entry per binding keeps one entry per binding. */
  lemma ReplaceKeepsOnePerSchedule(q: seq<WorkEntry>, n: nat, k: int, x: int)
    requires OnePerSchedule(q, n) && 0 <= k < |q|
    ensures OnePerSchedule(RemoveAt(q, k) + [WorkEntry(q[k].schedule, x)], n)
  {
    var q' := RemoveAt(q, k) + [WorkEntry(q[k].schedule, x)];
    forall j | 0 <= j < |q'|
      ensures q'[j].schedule < n
    {
      if j < |q| - 1 {
        assert q'[j] == (if j < k then q[j] else q[j + 1]);
      }
    }
    forall i | 0 <= i < n
      ensures |Times(q', i)| == 1
    {
      ReplaceKeepsCounts(q, k, x, i);
    }
  }
}
