// The waiting queue of the task queue manager: the order it is kept in, and
// what inserting and removing do to that order.
module TaskOrder {

  // A queued task. The manager stamps createdAt when it accepts the task and
  // raises retries each time an execution fails.
  datatype QueuedTask = QueuedTask(
    id: string,
    priority: int,
    createdAt: int,
    hosts: seq<string>,
    retries: nat,
    maxRetries: nat)

  // a must be served strictly before b: higher priority, or the same priority
  // and an earlier creation time.
  predicate Before(a: QueuedTask, b: QueuedTask) {
    a.priority > b.priority || (a.priority == b.priority && a.createdAt < b.createdAt)
  }

  // No task waits behind one that it must be served before.
  ghost predicate Sorted(q: seq<QueuedTask>) {
    forall i, j :: 0 <= i < j < |q| ==> !Before(q[j], q[i])
  }

  // Reference for insertion by priority: t goes in front of the first task it
  // is served before.
  ghost function Insert(q: seq<QueuedTask>, t: QueuedTask): seq<QueuedTask> {
    if q == [] then [t]
    else if Before(t, q[0]) then [t] + q
    else [q[0]] + Insert(q[1..], t)
  }

  // The tasks of q that are not served after t: those of higher priority, and
  // those of equal priority created no later.
  ghost function Ahead(q: seq<QueuedTask>, t: QueuedTask): seq<QueuedTask> {
    if q == [] then []
    else (if Before(t, q[0]) then [] else [q[0]]) + Ahead(q[1..], t)
  }

  // Splicing at the first task t goes before is Insert.
  lemma {:induction false} InsertAt(q: seq<QueuedTask>, t: QueuedTask, k: nat)
    requires k <= |q|
    requires forall i :: 0 <= i < k ==> !Before(t, q[i])
    requires k < |q| ==> Before(t, q[k])
    ensures Insert(q, t) == q[..k] + [t] + q[k..]
  {
    if q == [] {
    } else if k == 0 {
      assert q[..0] + [t] + q[0..] == [t] + q;
    } else {
      InsertAt(q[1..], t, k - 1);
      assert q[..k] + [t] + q[k..] == [q[0]] + (q[1..][..k - 1] + [t] + q[1..][k - 1..]);
    }
  }

  // The position at which Insert puts t.
  lemma {:induction false} InsertSplits(q: seq<QueuedTask>, t: QueuedTask) returns (k: nat)
    ensures k <= |q|
    ensures Insert(q, t) == q[..k] + [t] + q[k..]
    ensures forall i :: 0 <= i < k ==> !Before(t, q[i])
    ensures k < |q| ==> Before(t, q[k])
  {
    if q == [] || Before(t, q[0]) {
      k := 0;
      InsertAt(q, t, 0);
    } else {
      var k' := InsertSplits(q[1..], t);
      k := k' + 1;
      forall i | 0 <= i < k ensures !Before(t, q[i]) {
        if i > 0 { assert q[i] == q[1..][i - 1]; }
      }
      InsertAt(q, t, k);
    }
  }

  // Inserting into a sorted queue keeps it sorted and adds exactly t.
  lemma {:induction false} InsertKeepsOrder(q: seq<QueuedTask>, t: QueuedTask)
    requires Sorted(q)
    ensures Sorted(Insert(q, t))
    ensures multiset(Insert(q, t)) == multiset(q) + multiset{t}
  {
    if q == [] {
    } else if Before(t, q[0]) {
      forall j | 0 <= j < |q| ensures !Before(q[j], t) {
        if j > 0 { assert !Before(q[j], q[0]); }
      }
    } else {
      assert q == [q[0]] + q[1..];
      InsertKeepsOrder(q[1..], t);
      var r := Insert(q[1..], t);
      forall j | 0 <= j < |r| ensures !Before(r[j], q[0]) {
        assert r[j] in multiset(r);
        assert r[j] == t || r[j] in q[1..];
      }
    }
  }

  lemma {:induction false} AheadOfBlock(q: seq<QueuedTask>, t: QueuedTask, k: nat)
    requires k <= |q|
    requires forall i :: 0 <= i < k ==> !Before(t, q[i])
    requires forall i :: k <= i < |q| ==> Before(t, q[i])
    ensures Ahead(q, t) == q[..k]
  {
    if q == [] {
    } else if k == 0 {
      AheadOfBlock(q[1..], t, 0);
    } else {
      AheadOfBlock(q[1..], t, k - 1);
      assert q[..k] == [q[0]] + q[1..][..k - 1];
    }
  }

  // In a sorted queue the new task's one-based position is one more than the
  // number of tasks that are not served after it, and those tasks, in their
  // old order, are what stands in front of it.
  lemma InsertPosition(q: seq<QueuedTask>, t: QueuedTask)
    requires Sorted(q)
    ensures |Ahead(q, t)| <= |q|
    ensures Insert(q, t) == Ahead(q, t) + [t] + q[|Ahead(q, t)|..]
  {
    var k := InsertSplits(q, t);
    forall i | k <= i < |q| ensures Before(t, q[i]) {
      if i > k { assert !Before(q[i], q[k]); }
    }
    AheadOfBlock(q, t, k);
  }

  ghost function Without(q: seq<QueuedTask>, i: nat): seq<QueuedTask>
    requires i < |q|
  {
    q[..i] + q[i + 1..]
  }

  // Taking one task out keeps the queue sorted and removes exactly it.
  lemma WithoutKeepsOrder(q: seq<QueuedTask>, i: nat)
    requires i < |q|
    ensures Sorted(q) ==> Sorted(Without(q, i))
    ensures multiset(q) == multiset(Without(q, i)) + multiset{q[i]}
  {
    var a, b := q[..i], q[i + 1..];
    assert q == a + [q[i]] + b;
    BagOfSplice(a, q[i], b);
    var r := Without(q, i);
    if Sorted(q) {
      forall j, k | 0 <= j < k < |r| ensures !Before(r[k], r[j]) {
        assert r[j] == q[if j < i then j else j + 1];
        assert r[k] == q[if k < i then k else k + 1];
      }
    }
  }

  lemma BagOfSplice(a: seq<QueuedTask>, t: QueuedTask, b: seq<QueuedTask>)
    ensures multiset(a + [t] + b) == multiset(a + b) + multiset{t}
  {}

}
