/**
  The order a first-in-first-out queue gives, said without the queue: steps come by the position of their
  last dependency, those with the same one by declaration. There is at most one such order.
 */
module QueueOrder {
  import opened StepGraph

  ghost predicate DeclaredBefore(steps: seq<Step>, m: string, n: string) {
    exists i, j | 0 <= i < j < |steps| :: steps[i].id == m && steps[j].id == n
  }

  ghost predicate DeclaredWithin(steps: seq<Step>, n: string, i: nat) {
    exists k | 0 <= k < |steps| && k < i :: steps[k].id == n
  }

  /** The step's last dependency stands at position p; a step without dependencies has -1. */
  ghost predicate ReleasedAt(steps: seq<Step>, order: seq<string>, n: string, p: int) {
    if Deps(steps, n) == [] then p == -1
    else 0 <= p < |order| && order[p] in Deps(steps, n) && forall d | d in Deps(steps, n) :: d in order[..p + 1]
  }

  ghost predicate QueuesBefore(steps: seq<Step>, m: string, p: int, n: string, r: int) {
    p < r || (p == r && DeclaredBefore(steps, m, n))
  }

  ghost predicate InQueueOrder(steps: seq<Step>, order: seq<string>) {
    forall i, j, p, r | 0 <= i < j < |order| && ReleasedAt(steps, order, order[i], p)
      && ReleasedAt(steps, order, order[j], r) :: QueuesBefore(steps, order[i], p, order[j], r)
  }

  // ---------- there is at most one ----------

  lemma ReleaseIsUnique(steps: seq<Step>, order: seq<string>, n: string, p: int, r: int)
    requires NoRepeats(order) && ReleasedAt(steps, order, n, p) && ReleasedAt(steps, order, n, r)
    ensures p == r
  {
    hide Deps;
    if Deps(steps, n) != [] {
      assert order[p] in order[..r + 1] && order[r] in order[..p + 1];
    }
  }

  lemma {:induction false} LastPosition(order: seq<string>, deps: seq<string>) returns (p: nat)
    requires deps != [] && forall d | d in deps :: d in order
    ensures p < |order| && order[p] in deps && forall d | d in deps :: d in order[..p + 1]
    decreases |deps|
  {
    var front, last := deps[..|deps| - 1], deps[|deps| - 1];
    assert deps == front + [last];
    assert last in deps && forall d | d in front :: d in deps;
    var k :| 0 <= k < |order| && order[k] == last;
    p := k;
    if front != [] {
      var m := LastPosition(order, front);
      if m > k { p := m; }
      forall d | d in deps ensures d in order[..p + 1] {
        if d == last {
          assert order[..p + 1][k] == last;
        } else {
          var i :| 0 <= i < m + 1 && order[..m + 1][i] == d;
          assert order[..p + 1][i] == d;
        }
      }
    } else {
      assert order[..k + 1][k] == last;
    }
  }

  lemma EachIsReleased(steps: seq<Step>, order: seq<string>, k: nat) returns (p: int)
    requires IsTopological(steps, order) && k < |order|
    ensures p < k && ReleasedAt(steps, order, order[k], p)
  {
    hide Deps, IdSet;
    p := -1;
    if Deps(steps, order[k]) != [] {
      p := LastPosition(order[..k], Deps(steps, order[k]));
      assert order[..k][..p + 1] == order[..p + 1];
    }
  }

  lemma ReleaseInSamePrefix(steps: seq<Step>, a: seq<string>, b: seq<string>, k: nat, n: string, p: int)
    requires k <= |a| && k <= |b| && a[..k] == b[..k] && p < k && ReleasedAt(steps, a, n, p)
    ensures ReleasedAt(steps, b, n, p)
  {
    hide Deps;
    if p >= 0 {
      assert a[..k][p] == b[..k][p];
      assert a[..p + 1] == a[..k][..p + 1] && b[..p + 1] == b[..k][..p + 1];
    }
  }

  lemma DeclaredOneWay(steps: seq<Step>, m: string, n: string)
    requires DistinctIds(steps) && DeclaredBefore(steps, m, n)
    ensures !DeclaredBefore(steps, n, m)
  {}

  lemma StandsLater(steps: seq<Step>, a: seq<string>, b: seq<string>, k: nat) returns (j: nat)
    requires IsTopological(steps, a) && IsTopological(steps, b) && k < |a| && k < |b|
    requires a[..k] == b[..k] && a[k] != b[k]
    ensures k < j < |a| && a[j] == b[k]
  {
    hide Deps, IdSet;
    assert b[k] in b;
    assert b[k] in a;
    forall i | 0 <= i < k ensures a[i] == b[i] {
      assert a[..k][i] == b[..k][i];
    }
    j :| 0 <= j < |a| && a[j] == b[k];
  }

  lemma OrdersAgreeNext(steps: seq<Step>, a: seq<string>, b: seq<string>, k: nat)
    requires DistinctIds(steps) && IsTopological(steps, a) && IsTopological(steps, b)
    requires InQueueOrder(steps, a) && InQueueOrder(steps, b) && k < |a| && k < |b| && a[..k] == b[..k]
    ensures a[k] == b[k]
  {
    hide ReleasedAt, IsTopological, DeclaredBefore, DistinctIds;
    if a[k] != b[k] {
      var p := EachIsReleased(steps, a, k);
      var r := EachIsReleased(steps, b, k);
      ReleaseInSamePrefix(steps, a, b, k, a[k], p);
      ReleaseInSamePrefix(steps, b, a, k, b[k], r);
      var j := StandsLater(steps, a, b, k);
      var i := StandsLater(steps, b, a, k);
      assert QueuesBefore(steps, a[k], p, a[j], r) && QueuesBefore(steps, b[k], r, b[i], p);
      DeclaredOneWay(steps, a[k], b[k]);
    }
  }

  lemma {:induction false} OrdersAgreeTo(steps: seq<Step>, a: seq<string>, b: seq<string>, k: nat)
    requires DistinctIds(steps) && IsTopological(steps, a) && IsTopological(steps, b)
    requires InQueueOrder(steps, a) && InQueueOrder(steps, b) && k <= |a| && k <= |b|
    ensures a[..k] == b[..k]
  {
    hide InQueueOrder, DistinctIds, IsTopological;
    if k > 0 {
      OrdersAgreeTo(steps, a, b, k - 1);
      OrdersAgreeNext(steps, a, b, k - 1);
      assert a[..k] == a[..k - 1] + [a[k - 1]] && b[..k] == b[..k - 1] + [b[k - 1]];
    }
  }

  /** Two topological orders that follow the queue are the same order. */
  lemma QueueOrderIsUnique(steps: seq<Step>, a: seq<string>, b: seq<string>)
    requires DistinctIds(steps) && IsTopological(steps, a) && IsTopological(steps, b)
    requires InQueueOrder(steps, a) && InQueueOrder(steps, b)
    ensures a == b
  {
    hide InQueueOrder, DistinctIds;
    OrdersAgreeTo(steps, a, b, |steps|);
    assert a == a[..|steps|] && b == b[..|steps|];
  }

  // ---------- what the queue loop keeps ----------

  /**
    `release` records when the steps emitted or queued were released; those released by the step emitted
    last are among the dependants looked at since.
   */
  ghost predicate ReleaseInvariant(
    steps: seq<Step>, order: seq<string>, q: seq<string>, release: map<string, int>, looked: seq<string>)
  {
    && release.Keys == (set x | x in order + q)
    && (forall x | x in order + q :: ReleasedAt(steps, order, x, release[x]))
    && (forall i, j | 0 <= i < j < |order + q| ::
          QueuesBefore(steps, (order + q)[i], release[(order + q)[i]], (order + q)[j], release[(order + q)[j]]))
    && (order != [] ==> forall x | x in order + q :: release[x] < |order| - 1 || x in looked)
  }

  /** Every name is declared before the names that follow it. */
  ghost predicate InDeclarationOrder(steps: seq<Step>, names: seq<string>) {
    forall i, j | 0 <= i < j < |names| :: DeclaredBefore(steps, names[i], names[j])
  }

  lemma NewNameIsLast(steps: seq<Step>, names: seq<string>, k: nat)
    requires k < |steps| && InDeclarationOrder(steps, names) && forall n | n in names :: DeclaredWithin(steps, n, k)
    ensures InDeclarationOrder(steps, names + [steps[k].id])
  {
    forall i | 0 <= i < |names| ensures DeclaredBefore(steps, names[i], steps[k].id) {
      assert names[i] in names;
    }
    hide DeclaredBefore;
  }

  lemma SelectionStaysInOrder(steps: seq<Step>, names: seq<string>, some: seq<string>, k: nat)
    requires InDeclarationOrder(steps, names) && InDeclarationOrder(steps, some)
    requires k < |names| && forall n | n in some :: n in names[..k]
    ensures InDeclarationOrder(steps, some + [names[k]])
  {
    hide DeclaredBefore;
    forall i | 0 <= i < |some| ensures DeclaredBefore(steps, some[i], names[k]) {
      assert some[i] in names[..k];
    }
  }

  lemma InitialReleases(steps: seq<Step>, q: seq<string>)
    requires InDeclarationOrder(steps, q) && forall x | x in q :: Deps(steps, x) == []
    ensures ReleaseInvariant(steps, [], q, map x | x in q :: -1, [])
  {
    hide Deps, DeclaredBefore;
    assert [] + q == q;
  }

  lemma ReleaseStays(steps: seq<Step>, order: seq<string>, id: string, n: string, p: int)
    requires ReleasedAt(steps, order, n, p)
    ensures ReleasedAt(steps, order + [id], n, p) && p < |order|
  {
    hide Deps;
    if p >= 0 { assert (order + [id])[..p + 1] == order[..p + 1]; }
  }

  lemma DequeueKeepsReleases(
    steps: seq<Step>, order: seq<string>, q: seq<string>, release: map<string, int>, looked: seq<string>)
    requires ReleaseInvariant(steps, order, q, release, looked) && q != []
    ensures ReleaseInvariant(steps, order + [q[0]], q[1..], release, [])
  {
    hide ReleasedAt, QueuesBefore;
    assert order + [q[0]] + q[1..] == order + q;
    forall x | x in order + q ensures ReleasedAt(steps, order + [q[0]], x, release[x]) && release[x] < |order| {
      ReleaseStays(steps, order, q[0], x, release[x]);
    }
  }

  lemma LookKeepsReleases(
    steps: seq<Step>, order: seq<string>, q: seq<string>, release: map<string, int>, looked: seq<string>, n: string)
    requires ReleaseInvariant(steps, order, q, release, looked)
    ensures ReleaseInvariant(steps, order, q, release, looked + [n])
  {
    hide ReleasedAt, QueuesBefore;
  }

  lemma PushKeepsReleases(
    steps: seq<Step>, order: seq<string>, q: seq<string>, release: map<string, int>, looked: seq<string>, n: string)
    requires ReleaseInvariant(steps, order, q, release, looked) && n !in order + q && order != []
    requires order[|order| - 1] in Deps(steps, n) && forall d | d in Deps(steps, n) :: d in order
    requires forall x | x in looked :: x == n || DeclaredBefore(steps, x, n)
    ensures ReleaseInvariant(steps, order, q + [n], release[n := |order| - 1], looked + [n])
  {
    hide Deps, DeclaredBefore;
    var xs := order + q;
    assert order + (q + [n]) == xs + [n];
    assert order[..|order| - 1 + 1] == order;
    forall i | 0 <= i < |xs| ensures QueuesBefore(steps, xs[i], release[xs[i]], n, |order| - 1) {
      assert xs[i] in xs;
      ReleaseStays(steps, order, n, xs[i], release[xs[i]]);
    }
    hide ReleasedAt, QueuesBefore;
  }

  /** At the end everything is emitted. */
  lemma EmittedInQueueOrder(steps: seq<Step>, order: seq<string>, release: map<string, int>, looked: seq<string>)
    requires ReleaseInvariant(steps, order, [], release, looked) && NoRepeats(order)
    ensures InQueueOrder(steps, order)
  {
    hide ReleasedAt, QueuesBefore;
    assert order + [] == order;
    forall i, j, p, r | 0 <= i < j < |order| && ReleasedAt(steps, order, order[i], p)
      && ReleasedAt(steps, order, order[j], r) ensures QueuesBefore(steps, order[i], p, order[j], r)
    {
      ReleaseIsUnique(steps, order, order[i], p, release[order[i]]);
      ReleaseIsUnique(steps, order, order[j], r, release[order[j]]);
    }
  }

  // ---------- the out lists ----------

  /** Each list names dependants in declaration order, repetitions adjacent, all declared among the first i steps. */
  ghost predicate ListedInOrder(steps: seq<Step>, out: map<string, seq<string>>, i: nat) {
    forall d | d in out :: OneListInOrder(steps, out[d], i)
  }

  ghost predicate OneListInOrder(steps: seq<Step>, list: seq<string>, i: nat) {
    && (forall a | 0 <= a < |list| :: DeclaredWithin(steps, list[a], i))
    && (forall a, b | 0 <= a < b < |list| :: list[a] == list[b] || DeclaredBefore(steps, list[a], list[b]))
  }

  lemma EmptyListsInOrder(steps: seq<Step>, out: map<string, seq<string>>)
    requires forall d | d in out :: out[d] == []
    ensures ListedInOrder(steps, out, 0)
  {}

  lemma ListIsInOrder(steps: seq<Step>, out: map<string, seq<string>>, i: nat, d: string)
    requires ListedInOrder(steps, out, i) && d in out
    ensures OneListInOrder(steps, out[d], i)
  {
    hide OneListInOrder;
  }

  lemma LaterIsDeclared(steps: seq<Step>, list: seq<string>, i: nat)
    requires OneListInOrder(steps, list, i)
    ensures OneListInOrder(steps, list, i + 1)
  {
    hide DeclaredBefore;
  }

  lemma NextStepInOrder(steps: seq<Step>, out: map<string, seq<string>>, i: nat)
    requires ListedInOrder(steps, out, i)
    ensures ListedInOrder(steps, out, i + 1)
  {
    hide OneListInOrder;
    forall d | d in out ensures OneListInOrder(steps, out[d], i + 1) { LaterIsDeclared(steps, out[d], i); }
  }

  lemma ListOneMore(steps: seq<Step>, list: seq<string>, i: nat)
    requires i < |steps| && OneListInOrder(steps, list, i + 1)
    ensures OneListInOrder(steps, list + [steps[i].id], i + 1)
  {
    var id := steps[i].id;
    forall a | 0 <= a < |list| ensures list[a] == id || DeclaredBefore(steps, list[a], id) {
      assert DeclaredWithin(steps, list[a], i + 1);
    }
    assert DeclaredWithin(steps, id, i + 1);
    hide DeclaredBefore, DeclaredWithin;
  }

  lemma ListsOneMore(steps: seq<Step>, out: map<string, seq<string>>, i: nat, d: string)
    requires i < |steps| && ListedInOrder(steps, out, i + 1) && d in out
    ensures ListedInOrder(steps, out[d := out[d] + [steps[i].id]], i + 1)
  {
    hide OneListInOrder;
    ListOneMore(steps, out[d], i);
  }

  lemma EarlierOnList(steps: seq<Step>, list: seq<string>, i: nat, k: nat)
    requires OneListInOrder(steps, list, i) && k < |list|
    ensures forall x | x in list[..k] :: x == list[k] || DeclaredBefore(steps, x, list[k])
  {
    hide DeclaredBefore, DeclaredWithin;
  }
}
