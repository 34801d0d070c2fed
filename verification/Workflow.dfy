/** Workflow definitions: Kahn's algorithm with a first-in-first-out queue, and the validator built on it. */
module Workflow {
  import opened Wrappers
  import opened StepGraph
  import opened QueueOrder

  // ---------- counting dependencies ----------

  /** How many of the listed dependencies are not done yet. */
  function Pending(deps: seq<string>, done: set<string>): nat {
    if deps == [] then 0
    else Pending(deps[..|deps| - 1], done) + (if deps[|deps| - 1] in done then 0 else 1)
  }

  lemma {:induction false} PendingAtStart(deps: seq<string>)
    ensures Pending(deps, {}) == |deps|
  {
    if deps != [] {
      PendingAtStart(deps[..|deps| - 1]);
    }
  }

  lemma {:induction false} PendingAfter(deps: seq<string>, done: set<string>, d: string)
    requires d !in done
    ensures Pending(deps, done) == Pending(deps, done + {d}) + multiset(deps)[d]
  {
    if deps != [] {
      PendingAfter(deps[..|deps| - 1], done, d);
      assert deps == deps[..|deps| - 1] + [deps[|deps| - 1]];
    }
  }

  lemma {:induction false} NothingPending(deps: seq<string>, done: set<string>)
    ensures Pending(deps, done) == 0 <==> forall d | d in deps :: d in done
  {
    if deps != [] {
      NothingPending(deps[..|deps| - 1], done);
      assert deps == deps[..|deps| - 1] + [deps[|deps| - 1]];
    }
  }

  /** The in-degree table counts, and the out lists hold, each dependency of the steps as often as it is listed. */
  ghost predicate Tallied(
    known: set<string>, deps: string -> seq<string>, indegree: map<string, int>, out: map<string, seq<string>>)
  {
    && indegree.Keys == known && out.Keys == known
    && (forall n | n in known :: indegree[n] == |deps(n)|)
    && (forall d, n | d in known && n in known :: multiset(out[d])[n] == multiset(deps(n))[d])
    && (forall d, n | d in known && n in out[d] :: n in known)
  }

  lemma PairStillMatches(listed: seq<string>, n: string, deps: seq<string>, x: string, id: string, d: string)
    requires multiset(listed)[n] == multiset(deps)[x]
    ensures multiset(if x == d then listed + [id] else listed)[n] == multiset(if n == id then deps + [d] else deps)[x]
  {}

  lemma TallyOneMore(
    known: set<string>, before: string -> seq<string>, after: string -> seq<string>,
    indegree: map<string, int>, out: map<string, seq<string>>, id: string, d: string)
    requires Tallied(known, before, indegree, out) && id in known && d in known
    requires after(id) == before(id) + [d] && forall n | n in known && n != id :: after(n) == before(n)
    ensures Tallied(known, after, indegree[id := indegree[id] + 1], out[d := out[d] + [id]])
  {
    PairsStillMatch(known, before, after, out, id, d);
    ListedStayKnown(known, out, id, d);
    CountsStillMatch(known, before, after, indegree, id, d);
  }

  lemma ListedStayKnown(known: set<string>, out: map<string, seq<string>>, id: string, d: string)
    requires out.Keys == known && id in known && d in known && forall x, n | x in known && n in out[x] :: n in known
    ensures var out' := out[d := out[d] + [id]];
      out'.Keys == known && forall x, n | x in known && n in out'[x] :: n in known
  {
    var out' := out[d := out[d] + [id]];
    forall x, n | x in known && n in out'[x] ensures n in known {
      if x == d && n !in out[x] { assert n == id; }
    }
  }

  lemma CountsStillMatch(
    known: set<string>, before: string -> seq<string>, after: string -> seq<string>,
    indegree: map<string, int>, id: string, d: string)
    requires indegree.Keys == known && id in known && forall n | n in known :: indegree[n] == |before(n)|
    requires after(id) == before(id) + [d] && forall n | n in known && n != id :: after(n) == before(n)
    ensures var indegree' := indegree[id := indegree[id] + 1];
      indegree'.Keys == known && forall n | n in known :: indegree'[n] == |after(n)|
  {}

  lemma PairsStillMatch(
    known: set<string>, before: string -> seq<string>, after: string -> seq<string>,
    out: map<string, seq<string>>, id: string, d: string)
    requires out.Keys == known && id in known && d in known
    requires forall x, n | x in known && n in known :: multiset(out[x])[n] == multiset(before(n))[x]
    requires after(id) == before(id) + [d] && forall n | n in known && n != id :: after(n) == before(n)
    ensures var out' := out[d := out[d] + [id]];
      forall x, n | x in known && n in known :: multiset(out'[x])[n] == multiset(after(n))[x]
  {
    var out' := out[d := out[d] + [id]];
    forall x, n | x in known && n in known ensures multiset(out'[x])[n] == multiset(after(n))[x] {
      PairStillMatches(out[x], n, before(n), x, id, d);
    }
  }

  /** The dependencies met after i whole steps and the first j entries of the next one. */
  function DepsSoFar(steps: seq<Step>, known: set<string>, i: nat, j: nat, n: string): seq<string>
    requires i < |steps| && j <= |steps[i].dependsOn|
  {
    DepsIn(steps[..i], known, n) + (if steps[i].id == n then KnownOnly(steps[i].dependsOn[..j], known) else [])
  }

  lemma NextDependency(steps: seq<Step>, known: set<string>, i: nat, j: nat, n: string)
    requires i < |steps| && j < |steps[i].dependsOn|
    ensures DepsSoFar(steps, known, i, j + 1, n) == DepsSoFar(steps, known, i, j, n)
      + (if steps[i].id == n && steps[i].dependsOn[j] in known then [steps[i].dependsOn[j]] else [])
  {
    var deps := steps[i].dependsOn;
    assert deps[..j + 1][..j] == deps[..j];
  }

  lemma AllDependenciesMet(steps: seq<Step>, known: set<string>, i: nat, n: string)
    requires i < |steps|
    ensures DepsSoFar(steps, known, i, 0, n) == DepsIn(steps[..i], known, n)
    ensures DepsSoFar(steps, known, i, |steps[i].dependsOn|, n) == DepsIn(steps[..i + 1], known, n)
  {
    assert steps[i].dependsOn[..|steps[i].dependsOn|] == steps[i].dependsOn;
    assert steps[..i + 1][..i] == steps[..i];
  }

  ghost predicate TalliedTo(
    steps: seq<Step>, known: set<string>, i: nat, indegree: map<string, int>, out: map<string, seq<string>>)
    requires i <= |steps|
  {
    Tallied(known, n => DepsIn(steps[..i], known, n), indegree, out)
  }

  ghost predicate TalliedWithin(
    steps: seq<Step>, known: set<string>, i: nat, j: nat, indegree: map<string, int>, out: map<string, seq<string>>)
    requires i < |steps| && j <= |steps[i].dependsOn|
  {
    Tallied(known, n => DepsSoFar(steps, known, i, j, n), indegree, out)
  }

  lemma TallyWithin(
    steps: seq<Step>, known: set<string>, i: nat, j: nat, indegree: map<string, int>, out: map<string, seq<string>>)
    requires i < |steps| && steps[i].id in known && j < |steps[i].dependsOn|
    requires TalliedWithin(steps, known, i, j, indegree, out)
    ensures var id, d := steps[i].id, steps[i].dependsOn[j];
      if d in known
      then TalliedWithin(steps, known, i, j + 1, indegree[id := indegree[id] + 1], out[d := out[d] + [id]])
      else TalliedWithin(steps, known, i, j + 1, indegree, out)
  {
    hide DepsSoFar;
    forall n { NextDependency(steps, known, i, j, n); }
    if steps[i].dependsOn[j] in known {
      TallyOneMore(
        known, n => DepsSoFar(steps, known, i, j, n), n => DepsSoFar(steps, known, i, j + 1, n),
        indegree, out, steps[i].id, steps[i].dependsOn[j]);
    }
  }

  lemma TallyEnds(
    steps: seq<Step>, known: set<string>, i: nat, indegree: map<string, int>, out: map<string, seq<string>>)
    requires i < |steps|
    ensures TalliedTo(steps, known, i, indegree, out) <==> TalliedWithin(steps, known, i, 0, indegree, out)
    ensures TalliedTo(steps, known, i + 1, indegree, out)
      <==> TalliedWithin(steps, known, i, |steps[i].dependsOn|, indegree, out)
  {
    hide DepsSoFar, DepsIn, Tallied;
    forall n { AllDependenciesMet(steps, known, i, n); }
    SameDepsTallyAlike(
      known, n => DepsIn(steps[..i], known, n), n => DepsSoFar(steps, known, i, 0, n), indegree, out);
    SameDepsTallyAlike(
      known, n => DepsIn(steps[..i + 1], known, n), n => DepsSoFar(steps, known, i, |steps[i].dependsOn|, n),
      indegree, out);
  }

  lemma SameDepsTallyAlike(
    known: set<string>, f: string -> seq<string>, g: string -> seq<string>,
    indegree: map<string, int>, out: map<string, seq<string>>)
    requires forall n :: f(n) == g(n)
    ensures Tallied(known, f, indegree, out) <==> Tallied(known, g, indegree, out)
  {}

  lemma IdsSoFar(steps: seq<Step>, i: nat)
    requires i < |steps|
    ensures IdSet(steps[..i + 1]) == IdSet(steps[..i]) + {steps[i].id}
    ensures steps[i].id in IdSet(steps[..i]) ==> !DistinctIds(steps)
  {
    assert steps[..i + 1] == steps[..i] + [steps[i]];
    if steps[i].id in IdSet(steps[..i]) {
      var s :| s in steps[..i] && s.id == steps[i].id;
    }
  }

  lemma StepIsKnown(steps: seq<Step>, i: nat)
    requires i < |steps|
    ensures steps[i].id in IdSet(steps)
  {}

  /** The dependencies of one step: each known one raises the step's in-degree and lists the step. */
  method AddStep(steps: seq<Step>, i: nat, indegree0: map<string, int>, out0: map<string, seq<string>>)
    returns (indegree: map<string, int>, out: map<string, seq<string>>)
    requires i < |steps| && indegree0.Keys == out0.Keys == IdSet(steps)
    requires TalliedTo(steps, IdSet(steps), i, indegree0, out0) && ListedInOrder(steps, out0, i)
    ensures indegree.Keys == out.Keys == IdSet(steps)
    ensures TalliedTo(steps, IdSet(steps), i + 1, indegree, out) && ListedInOrder(steps, out, i + 1)
  {
    hide ListedInOrder, TalliedTo, TalliedWithin, Tallied, IdSet;
    indegree, out := indegree0, out0;
    var s, byId := steps[i], IdSet(steps);
    StepIsKnown(steps, i);
    TallyEnds(steps, byId, i, indegree, out);
    NextStepInOrder(steps, out, i);
    for j := 0 to |s.dependsOn|
      invariant indegree.Keys == out.Keys == byId
      invariant TalliedWithin(steps, byId, i, j, indegree, out) && ListedInOrder(steps, out, i + 1)
    {
      var d := s.dependsOn[j];
      TallyWithin(steps, byId, i, j, indegree, out);
      if d !in byId { continue; }
      ListsOneMore(steps, out, i, d);
      indegree := indegree[s.id := indegree[s.id] + 1];
      out := out[d := out[d] + [s.id]];
    }
    TallyEnds(steps, byId, i, indegree, out);
  }

  method BuildGraph(steps: seq<Step>)
    returns (keys: seq<string>, indegree: map<string, int>, out: map<string, seq<string>>)
    ensures NoRepeats(keys) && forall n :: n in keys <==> n in IdSet(steps)
    ensures InDeclarationOrder(steps, keys)
    ensures DistinctIds(steps) ==> |keys| == |steps| && forall i | 0 <= i < |keys| :: keys[i] == steps[i].id
    ensures Tallied(IdSet(steps), n => Deps(steps, n), indegree, out)
    ensures ListedInOrder(steps, out, |steps|)
  {
    hide ListedInOrder, IdSet, DistinctIds, NoRepeats;
    keys, indegree, out := EmptyGraph(steps);
    assert TalliedTo(steps, IdSet(steps), 0, indegree, out);
    EmptyListsInOrder(steps, out);
    hide TalliedTo, Tallied;
    for i := 0 to |steps|
      invariant indegree.Keys == out.Keys == IdSet(steps)
      invariant TalliedTo(steps, IdSet(steps), i, indegree, out) && ListedInOrder(steps, out, i)
    {
      indegree, out := AddStep(steps, i, indegree, out);
    }
    TalliedAtEnd(steps, indegree, out);
  }

  lemma TalliedAtEnd(steps: seq<Step>, indegree: map<string, int>, out: map<string, seq<string>>)
    ensures TalliedTo(steps, IdSet(steps), |steps|, indegree, out)
      <==> Tallied(IdSet(steps), n => Deps(steps, n), indegree, out)
  {
    assert steps[..|steps|] == steps;
  }

  lemma NoIds()
    ensures IdSet([]) == {}
  {}

  lemma NoNamesInOrder(steps: seq<Step>)
    ensures InDeclarationOrder(steps, [])
  {}

  /** The first pass: a zero and an empty list for every id, in the order the ids first appear. */
  method EmptyGraph(steps: seq<Step>)
    returns (keys: seq<string>, indegree: map<string, int>, out: map<string, seq<string>>)
    ensures NoRepeats(keys) && forall n :: n in keys <==> n in IdSet(steps)
    ensures InDeclarationOrder(steps, keys)
    ensures DistinctIds(steps) ==> |keys| == |steps| && forall i | 0 <= i < |keys| :: keys[i] == steps[i].id
    ensures indegree.Keys == out.Keys == IdSet(steps)
    ensures forall n | n in IdSet(steps) :: indegree[n] == 0 && out[n] == []
  {
    NoIds();
    hide IdSet, DistinctIds, InDeclarationOrder;
    keys, indegree, out := [], map[], map[];
    NoNamesInOrder(steps);
    for i := 0 to |steps|
      invariant InDeclarationOrder(steps, keys) && forall n | n in keys :: DeclaredWithin(steps, n, i)
      invariant NoRepeats(keys) && indegree.Keys == out.Keys == IdSet(steps[..i])
      invariant forall n :: n in keys <==> n in IdSet(steps[..i])
      invariant forall n | n in indegree :: indegree[n] == 0 && out[n] == []
      invariant DistinctIds(steps) ==> |keys| == i && forall j | 0 <= j < i :: keys[j] == steps[j].id
    {
      var id := steps[i].id;
      IdsSoFar(steps, i);
      if id !in indegree {
        NewNameIsLast(steps, keys, i);
        keys := keys + [id];
      }
      indegree, out := indegree[id := 0], out[id := []];
    }
    assert steps[..|steps|] == steps;
  }

  // ---------- the queue loop ----------

  function ToSet(xs: seq<string>): set<string> { set x | x in xs }

  ghost predicate NonDecreasing(level: map<string, nat>, xs: seq<string>)
    requires forall x | x in xs :: x in level
  {
    forall i, j | 0 <= i < j < |xs| :: level[xs[i]] <= level[xs[j]]
  }

  /**
    What holds while the queue is worked off. `waiting` is the rest of the current step's out list,
    whose in-degrees have not been lowered yet.
   */
  ghost predicate QueueInvariant(
    steps: seq<Step>, order: seq<string>, q: seq<string>, indegree: map<string, int>,
    level: map<string, nat>, waiting: seq<string>)
  {
    && NoRepeats(order + q)
    && level.Keys == ToSet(order + q) <= indegree.Keys == IdSet(steps)
    && (forall n | n in IdSet(steps) ::
          indegree[n] == Pending(Deps(steps, n), ToSet(order)) + multiset(waiting)[n])
    && (forall n | n in IdSet(steps) :: n in order + q <==> indegree[n] == 0)
    && (forall i | 0 <= i < |order| :: forall d | d in Deps(steps, order[i]) :: d in order[..i])
    && (forall n | n in order + q :: IsLevel(steps, level, n))
    && NonDecreasing(level, order + q)
    && forall x | x in q :: level[x] <= if order == [] then 0 else level[order[|order| - 1]] + 1
  }

  lemma HeadIsFresh(order: seq<string>, q: seq<string>)
    requires NoRepeats(order + q) && q != []
    ensures q[0] !in order
  {
    forall i | 0 <= i < |order| ensures order[i] != q[0] {
      assert (order + q)[i] == order[i] && (order + q)[|order|] == q[0];
    }
  }

  lemma DequeueShiftsCounts(
    steps: seq<Step>, order: seq<string>, id: string, indegree: map<string, int>, waiting: seq<string>)
    requires indegree.Keys == IdSet(steps) && id !in ToSet(order)
    requires forall n | n in IdSet(steps) :: indegree[n] == Pending(Deps(steps, n), ToSet(order))
    requires forall n | n in IdSet(steps) :: multiset(waiting)[n] == multiset(Deps(steps, n))[id]
    ensures forall n | n in IdSet(steps) ::
      indegree[n] == Pending(Deps(steps, n), ToSet(order + [id])) + multiset(waiting)[n]
  {
    hide Deps, IdSet;
    assert ToSet(order + [id]) == ToSet(order) + {id};
    forall n | n in IdSet(steps)
      ensures indegree[n] == Pending(Deps(steps, n), ToSet(order + [id])) + multiset(waiting)[n]
    {
      PendingAfter(Deps(steps, n), ToSet(order), id);
    }
  }

  lemma DequeueKeepsOrder(steps: seq<Step>, order: seq<string>, id: string)
    requires forall i | 0 <= i < |order| :: forall d | d in Deps(steps, order[i]) :: d in order[..i]
    requires forall d | d in Deps(steps, id) :: d in order
    ensures var order' := order + [id];
      forall i | 0 <= i < |order'| :: forall d | d in Deps(steps, order'[i]) :: d in order'[..i]
  {
    hide Deps;
    var order' := order + [id];
    forall i | 0 <= i < |order'| ensures forall d | d in Deps(steps, order'[i]) :: d in order'[..i] {
      assert order'[..i] == order[..i];
    }
  }

  lemma DequeueKeeps(
    steps: seq<Step>, order: seq<string>, q: seq<string>, indegree: map<string, int>,
    level: map<string, nat>, waiting: seq<string>)
    requires QueueInvariant(steps, order, q, indegree, level, []) && q != []
    requires forall n | n in IdSet(steps) :: multiset(waiting)[n] == multiset(Deps(steps, n))[q[0]]
    ensures QueueInvariant(steps, order + [q[0]], q[1..], indegree, level, waiting)
  {
    hide Deps, IdSet, IsLevel;
    var id := q[0];
    var order' := order + [id];
    assert order' + q[1..] == order + q;
    assert (order + q)[|order|] == id;
    HeadIsFresh(order, q);
    DequeueShiftsCounts(steps, order, id, indegree, waiting);
    hide Pending;
    assert id in order + q;
    NothingPending(Deps(steps, id), ToSet(order));
    DequeueKeepsOrder(steps, order, id);
    forall x | x in q[1..] ensures level[x] <= level[id] + 1 {
      if order != [] {
        assert (order + q)[|order| - 1] == order[|order| - 1];
      }
    }
  }

  lemma LowerKeeps(
    steps: seq<Step>, order: seq<string>, q: seq<string>, indegree: map<string, int>,
    level: map<string, nat>, n: string, waiting: seq<string>)
    requires QueueInvariant(steps, order, q, indegree, level, [n] + waiting) && n in indegree
    requires indegree[n] != 1
    ensures QueueInvariant(steps, order, q, indegree[n := indegree[n] - 1], level, waiting)
  {
    hide Deps, IdSet, IsLevel, NonDecreasing, Pending;
    assert multiset([n] + waiting) == multiset{n} + multiset(waiting);
    assert multiset([n] + waiting)[n] >= 1;
  }

  lemma NewLevel(steps: seq<Step>, order: seq<string>, level: map<string, nat>, n: string, k: nat)
    requires n !in level && forall d | d in Deps(steps, n) :: d in level && level[d] < k
    requires k > 0 && exists d :: d in Deps(steps, n) && d in level && level[d] + 1 == k
    ensures IsLevel(steps, level[n := k], n)
    ensures forall m | IsLevel(steps, level, m) && m != n :: IsLevel(steps, level[n := k], m)
  {
    hide Deps;
    var d :| d in Deps(steps, n) && d in level && level[d] + 1 == k;
    assert level[n := k][d] + 1 == k;
    forall m | IsLevel(steps, level, m) && m != n ensures IsLevel(steps, level[n := k], m) {
      if level[m] != 0 {
        var e :| e in Deps(steps, m) && e in level && level[e] + 1 == level[m];
        assert level[n := k][e] + 1 == level[n := k][m];
      }
    }
  }

  /** When an in-degree is about to reach zero, all dependencies are emitted and the step is not yet queued. */
  lemma LastDependencyDone(
    steps: seq<Step>, order: seq<string>, q: seq<string>, indegree: map<string, int>,
    level: map<string, nat>, n: string, waiting: seq<string>)
    requires QueueInvariant(steps, order, q, indegree, level, [n] + waiting) && n in indegree && indegree[n] == 1
    ensures n !in order + q && forall d | d in Deps(steps, n) :: d in order
  {
    hide Deps, IdSet, IsLevel, NonDecreasing;
    assert multiset([n] + waiting) == multiset{n} + multiset(waiting);
    assert multiset([n] + waiting)[n] >= 1;
    NothingPending(Deps(steps, n), ToSet(order));
    hide Pending;
  }

  lemma PushKeeps(
    steps: seq<Step>, order: seq<string>, q: seq<string>, indegree: map<string, int>,
    level: map<string, nat>, n: string, waiting: seq<string>)
    requires QueueInvariant(steps, order, q, indegree, level, [n] + waiting) && n in indegree
    requires order != [] && order[|order| - 1] in Deps(steps, n) && indegree[n] == 1
    ensures order[|order| - 1] in level
    ensures QueueInvariant(steps, order, q + [n], indegree[n := 0],
      level[n := level[order[|order| - 1]] + 1], waiting)
  {
    hide Deps, IdSet, IsLevel, Pending;
    var id := order[|order| - 1];
    var k := level[id] + 1;
    assert multiset([n] + waiting) == multiset{n} + multiset(waiting);
    assert multiset([n] + waiting)[n] >= 1;
    assert n !in order + q;
    assert order + (q + [n]) == order + q + [n];
    NothingPending(Deps(steps, n), ToSet(order));
    forall d | d in Deps(steps, n) ensures d in level && level[d] < k {
      var i :| 0 <= i < |order| && order[i] == d;
      assert (order + q)[i] == d && (order + q)[|order| - 1] == id;
    }
    NewLevel(steps, order, level, n, k);
    LevelsAppend(level, order, q, n, k);
  }

  lemma LevelsAppend(level: map<string, nat>, order: seq<string>, q: seq<string>, n: string, k: nat)
    requires level.Keys == ToSet(order + q) && n !in order + q && order != []
    requires NonDecreasing(level, order + q) && k == level[order[|order| - 1]] + 1
    requires forall x | x in q :: level[x] <= k
    ensures forall x | x in order + q + [n] :: x in level[n := k]
    ensures NonDecreasing(level[n := k], order + q + [n])
  {
    var xs := order + q;
    forall i | 0 <= i < |xs| ensures level[xs[i]] <= k && xs[i] != n {
      assert xs[i] in xs;
      if i < |order| {
        assert xs[|order| - 1] == order[|order| - 1];
      } else {
        assert xs[i] == q[i - |order|];
      }
    }
  }

  lemma InitialQueue(steps: seq<Step>, q: seq<string>, indegree: map<string, int>)
    requires indegree.Keys == IdSet(steps) && forall n | n in IdSet(steps) :: indegree[n] == |Deps(steps, n)|
    requires NoRepeats(q) && forall n :: n in q <==> n in IdSet(steps) && indegree[n] == 0
    ensures QueueInvariant(steps, [], q, indegree, map n | n in ToSet(q) :: 0, [])
  {
    hide Deps, IdSet;
    assert [] + q == q;
    forall n | n in IdSet(steps) ensures indegree[n] == Pending(Deps(steps, n), ToSet([])) {
      assert ToSet([]) == {};
      PendingAtStart(Deps(steps, n));
    }
  }

  /** The loop is done with an empty queue: what it emitted decides between an order and a cycle. */
  lemma EmptyQueueDecides(steps: seq<Step>, order: seq<string>, indegree: map<string, int>, level: map<string, nat>)
    requires QueueInvariant(steps, order, [], indegree, level, [])
    ensures |order| == |steps| <==> DistinctIds(steps) && !HasCycle(steps)
    ensures |order| == |steps| ==> IsTopological(steps, order) && OrderedByDepth(steps, order)
  {
    hide Deps, IsLevel, DepthIs;
    assert order + [] == order;
    var ids := IdSet(steps);
    NoRepeatsFits(order, ids);
    DistinctIdsCount(steps);
    NoRepeatsCount(order);
    if ToSet(order) != ids {
      assert ToSet(order) <= ids && !(ids <= ToSet(order));
      UnemittedAreStuck(steps, order, indegree, level);
      SubsetCount(ToSet(order), ids);
    } else if |order| == |steps| {
      assert IsTopological(steps, order);
      TopologicalMeansAcyclic(steps, order);
      EmittedByDepth(steps, order, level);
    }
  }

  lemma EmittedOnce(steps: seq<Step>, order: seq<string>, indegree: map<string, int>, level: map<string, nat>)
    requires QueueInvariant(steps, order, [], indegree, level, [])
    ensures NoRepeats(order)
  {
    hide Deps, IsLevel, IdSet;
    assert order + [] == order;
  }

  lemma SubsetCount(a: set<string>, b: set<string>)
    requires a <= b && a != b
    ensures |a| < |b|
  {
    assert !(b <= a);
    var x :| x in b && x !in a;
    SubsetOfSmaller(a, b - {x});
  }

  lemma {:induction false} SubsetOfSmaller(a: set<string>, b: set<string>)
    requires a <= b
    ensures |a| <= |b|
  {
    if a != {} {
      var x :| x in a;
      SubsetOfSmaller(a - {x}, b - {x});
    }
  }

  lemma {:induction false} NoRepeatsCount(xs: seq<string>)
    requires NoRepeats(xs)
    ensures |ToSet(xs)| == |xs|
    decreases |xs|
  {
    if xs != [] {
      var front, x := xs[..|xs| - 1], xs[|xs| - 1];
      NoRepeatsCount(front);
      assert ToSet(xs) == ToSet(front) + {x};
    } else {
      assert ToSet(xs) == {};
    }
  }

  lemma {:induction false} DistinctIdsCount(steps: seq<Step>)
    ensures |IdSet(steps)| <= |steps|
    ensures |IdSet(steps)| == |steps| <==> DistinctIds(steps)
    decreases |steps|
  {
    if steps != [] {
      var front, s := steps[..|steps| - 1], steps[|steps| - 1];
      DistinctIdsCount(front);
      assert steps == front + [s];
      assert IdSet(steps) == IdSet(front) + {s.id};
      if s.id in IdSet(front) {
        var t :| t in front && t.id == s.id;
        var i :| 0 <= i < |front| && front[i] == t;
        assert steps[i].id == steps[|steps| - 1].id;
      }
      assert DistinctIds(steps) ==> DistinctIds(front);
    }
  }

  lemma DependencyIsKnown(steps: seq<Step>, n: string, d: string)
    requires d in Deps(steps, n)
    ensures d in IdSet(steps)
  {
    DepsAreKnown(steps, IdSet(steps), n, d);
  }

  lemma UnemittedStep(
    steps: seq<Step>, order: seq<string>, indegree: map<string, int>, level: map<string, nat>, n: string)
    requires QueueInvariant(steps, order, [], indegree, level, []) && n in IdSet(steps) - ToSet(order)
    ensures DependsInto(steps, n, IdSet(steps) - ToSet(order))
  {
    hide Deps, IdSet, IsLevel, NonDecreasing;
    assert order + [] == order;
    NothingPending(Deps(steps, n), ToSet(order));
    var d :| d in Deps(steps, n) && d !in ToSet(order);
    DependencyIsKnown(steps, n, d);
  }

  lemma UnemittedAreStuck(steps: seq<Step>, order: seq<string>, indegree: map<string, int>, level: map<string, nat>)
    requires QueueInvariant(steps, order, [], indegree, level, []) && !(IdSet(steps) <= ToSet(order))
    ensures HasCycle(steps)
  {
    hide QueueInvariant, DependsInto, Deps, IdSet;
    var stuck := IdSet(steps) - ToSet(order);
    forall n | n in stuck ensures DependsInto(steps, n, stuck) {
      UnemittedStep(steps, order, indegree, level, n);
    }
    var n :| n in IdSet(steps) && n !in ToSet(order);
    StuckHasCycle(steps, stuck, [n]);
  }

  lemma EmittedByDepth(steps: seq<Step>, order: seq<string>, level: map<string, nat>)
    requires Levels(steps, level)
    requires forall n :: n in order <==> n in IdSet(steps)
    requires level.Keys == ToSet(order) && NonDecreasing(level, order)
    ensures OrderedByDepth(steps, order)
  {
    hide Levels, DepthIs, IdSet;
    forall i | 0 <= i < |order| ensures DepthIs(steps, order[i], level[order[i]]) && HasDepth(steps, order[i]) {
      assert order[i] in order;
      LevelIsDepth(steps, level, order[i]);
    }
    forall i, j, a, b | 0 <= i < j < |order| && DepthIs(steps, order[i], a) && DepthIs(steps, order[j], b)
      ensures a <= b
    {
      DepthUnique(steps, order[i], a, level[order[i]]);
      DepthUnique(steps, order[j], b, level[order[j]]);
    }
  }

  method StartQueue(steps: seq<Step>, keys: seq<string>, indegree: map<string, int>) returns (q: seq<string>)
    requires NoRepeats(keys) && forall n :: n in keys <==> n in IdSet(steps)
    requires indegree.Keys == IdSet(steps) && forall n | n in IdSet(steps) :: indegree[n] == |Deps(steps, n)|
    requires InDeclarationOrder(steps, keys)
    ensures NoRepeats(q) && forall n :: n in q <==> n in IdSet(steps) && indegree[n] == 0
    ensures InDeclarationOrder(steps, q)
    ensures |keys| == |steps| && (forall i | 0 <= i < |keys| :: keys[i] == steps[i].id) ==> q == Roots(steps)
  {
    hide Deps, IdSet, InDeclarationOrder;
    q := [];
    NoNamesInOrder(steps);
    for i := 0 to |keys|
      invariant NoRepeats(q) && forall n :: n in q <==> n in keys[..i] && indegree[n] == 0
      invariant InDeclarationOrder(steps, q)
      invariant |keys| == |steps| && (forall j | 0 <= j < |keys| :: keys[j] == steps[j].id)
        ==> q == RootsAmong(steps, steps[..i])
    {
      assert keys[..i + 1] == keys[..i] + [keys[i]];
      assert |keys| == |steps| ==> steps[..i + 1][..i] == steps[..i];
      if indegree[keys[i]] == 0 {
        SelectionStaysInOrder(steps, keys, q, i);
        q := q + [keys[i]];
      }
    }
    assert keys[..|keys|] == keys && steps[..|steps|] == steps;
  }

  /** Every out list holds a step as often as that step lists the dependency. */
  ghost predicate OutMatches(steps: seq<Step>, out: map<string, seq<string>>) {
    && out.Keys == IdSet(steps)
    && (forall d, n | d in out && n in out :: multiset(out[d])[n] == multiset(Deps(steps, n))[d])
    && forall d, n | d in out && n in out[d] :: n in out
  }

  lemma TalliedOutMatches(steps: seq<Step>, indegree: map<string, int>, out: map<string, seq<string>>)
    requires Tallied(IdSet(steps), n => Deps(steps, n), indegree, out)
    ensures OutMatches(steps, out)
    ensures indegree.Keys == IdSet(steps) && forall n | n in IdSet(steps) :: indegree[n] == |Deps(steps, n)|
  {
    hide Deps, IdSet;
  }

  lemma OutEntry(steps: seq<Step>, out: map<string, seq<string>>, id: string)
    requires OutMatches(steps, out) && id in IdSet(steps)
    ensures id in out && forall n | n in IdSet(steps) :: multiset(out[id])[n] == multiset(Deps(steps, n))[id]
  {
    hide Deps, IdSet;
  }

  lemma ListedBack(steps: seq<Step>, out: map<string, seq<string>>, id: string, n: string)
    requires OutMatches(steps, out) && id in out && n in out[id]
    ensures n in IdSet(steps) && id in Deps(steps, n)
  {
    hide Deps, IdSet;
    assert multiset(out[id])[n] >= 1;
  }

  lemma QueueFacts(
    steps: seq<Step>, order: seq<string>, q: seq<string>, indegree: map<string, int>, level: map<string, nat>)
    requires QueueInvariant(steps, order, q, indegree, level, []) && q != []
    ensures q[0] in IdSet(steps) && |order| < |IdSet(steps)|
  {
    hide Deps, IdSet, IsLevel, Pending;
    forall x | x in order + q ensures x in IdSet(steps) {
      assert x in ToSet(order + q);
    }
    assert (order + q)[|order|] == q[0];
    NoRepeatsFits(order + q, IdSet(steps));
  }

  /** The inner loop: lower the in-degree of each step on the out list, queueing those that reach zero. */
  method LowerDependants(
    steps: seq<Step>, ordered: seq<string>, q0: seq<string>, indegree0: map<string, int>,
    ghost level0: map<string, nat>, ghost release0: map<string, int>, out: map<string, seq<string>>)
    returns (
      q: seq<string>, indegree: map<string, int>, ghost level: map<string, nat>, ghost release: map<string, int>,
      ghost looked: seq<string>)
    requires ordered != [] && ordered[|ordered| - 1] in out && OutMatches(steps, out) && indegree0.Keys == IdSet(steps)
    requires QueueInvariant(steps, ordered, q0, indegree0, level0, out[ordered[|ordered| - 1]])
    requires ListedInOrder(steps, out, |steps|) && ReleaseInvariant(steps, ordered, q0, release0, [])
    ensures QueueInvariant(steps, ordered, q, indegree, level, [])
    ensures ReleaseInvariant(steps, ordered, q, release, looked)
    ensures indegree.Keys == IdSet(steps) && q0 <= q
  {
    hide QueueInvariant, OutMatches, Deps, IdSet, ReleaseInvariant, ListedInOrder, OneListInOrder, DeclaredBefore;
    q, indegree, level, release := q0, indegree0, level0, release0;
    var id := ordered[|ordered| - 1];
    var next := out[id];
    ListIsInOrder(steps, out, |steps|, id);
    assert next[0..] == next && next[..0] == [];
    for k := 0 to |next|
      invariant indegree.Keys == IdSet(steps) && q0 <= q
      invariant QueueInvariant(steps, ordered, q, indegree, level, next[k..])
      invariant ReleaseInvariant(steps, ordered, q, release, next[..k])
    {
      var n := next[k];
      ListedBack(steps, out, id, n);
      assert next[k..] == [n] + next[k + 1..] && next[..k + 1] == next[..k] + [n];
      if indegree[n] == 1 {
        LastDependencyDone(steps, ordered, q, indegree, level, n, next[k + 1..]);
        EarlierOnList(steps, next, |steps|, k);
        PushKeepsReleases(steps, ordered, q, release, next[..k], n);
        PushKeeps(steps, ordered, q, indegree, level, n, next[k + 1..]);
        level, release := level[n := level[id] + 1], release[n := |ordered| - 1];
      } else {
        LookKeepsReleases(steps, ordered, q, release, next[..k], n);
        LowerKeeps(steps, ordered, q, indegree, level, n, next[k + 1..]);
      }
      indegree := indegree[n := indegree[n] - 1];
      if indegree[n] == 0 { q := q + [n]; }
    }
    assert next[|next|..] == [];
    looked := next[..|next|];
  }

  /** There is at most one topological order in queue order. */
  lemma OnlyOrder(steps: seq<Step>, a: seq<string>, b: seq<string>)
    requires IsTopological(steps, a) && IsTopological(steps, b) && InQueueOrder(steps, a) && InQueueOrder(steps, b)
    ensures a == b
  {
    TopologicalMeansDistinct(steps, a);
    hide IsTopological, InQueueOrder, DistinctIds;
    QueueOrderIsUnique(steps, a, b);
  }

  lemma NoOtherOrder(steps: seq<Step>, a: seq<string>)
    requires IsTopological(steps, a) && InQueueOrder(steps, a)
    ensures forall order :: order == a <==> IsTopological(steps, order) && InQueueOrder(steps, order)
  {
    hide IsTopological, InQueueOrder;
    forall order | IsTopological(steps, order) && InQueueOrder(steps, order) ensures order == a {
      OnlyOrder(steps, order, a);
    }
  }

  lemma TopologicalMeansDistinct(steps: seq<Step>, order: seq<string>)
    requires IsTopological(steps, order)
    ensures DistinctIds(steps)
  {
    hide Deps, DistinctIds;
    NoRepeatsCount(order);
    DistinctIdsCount(steps);
    assert ToSet(order) == IdSet(steps);
  }

  /** With an empty queue there is nothing to emit, or the order is the one in queue order. */
  lemma EmptyQueueGivesTheOrder(
    steps: seq<Step>, order: seq<string>, indegree: map<string, int>, level: map<string, nat>,
    release: map<string, int>, looked: seq<string>)
    requires QueueInvariant(steps, order, [], indegree, level, [])
    requires ReleaseInvariant(steps, order, [], release, looked)
    ensures |order| == |steps| <==> DistinctIds(steps) && !HasCycle(steps)
    ensures |order| == |steps| ==> IsTopological(steps, order) && OrderedByDepth(steps, order)
    ensures |order| == |steps| ==>
      forall other :: other == order <==> IsTopological(steps, other) && InQueueOrder(steps, other)
  {
    hide *;
    EmptyQueueDecides(steps, order, indegree, level);
    EmittedOnce(steps, order, indegree, level);
    EmittedInQueueOrder(steps, order, release, looked);
    if |order| == |steps| { NoOtherOrder(steps, order); }
  }

  /**
    Kahn's algorithm; there is no result when the source throws. It succeeds exactly on distinct ids and an
    acyclic graph, and then gives the one topological order in which steps come by the position of their last
    dependency and then by declaration. Depth never falls along it.
   */
  method TopologicalOrder(steps: seq<Step>) returns (r: Option<seq<string>>)
    ensures r.Some? <==> DistinctIds(steps) && !HasCycle(steps)
    ensures r.Some? ==> IsTopological(steps, r.value) && OrderedByDepth(steps, r.value)
    ensures r.Some? ==> Roots(steps) <= r.value
    ensures r.Some? ==> forall order :: order == r.value <==> IsTopological(steps, order) && InQueueOrder(steps, order)
  {
    hide QueueInvariant, OutMatches, Tallied, IsTopological, OrderedByDepth, HasCycle;
    hide Deps, IdSet, RootsAmong, NoRepeats, DistinctIds;
    hide ListedInOrder, InDeclarationOrder, ReleaseInvariant, InQueueOrder;
    var keys, indegree, out := BuildGraph(steps);
    TalliedOutMatches(steps, indegree, out);
    var q := StartQueue(steps, keys, indegree);
    ghost var first := q;
    var ordered: seq<string> := [];
    ghost var level: map<string, nat> := map n | n in ToSet(q) :: 0;
    ghost var release: map<string, int> := map n | n in q :: -1;
    ghost var looked: seq<string> := [];
    InitialQueue(steps, q, indegree);
    InitialReleases(steps, q);
    while q != []
      invariant indegree.Keys == IdSet(steps)
      invariant QueueInvariant(steps, ordered, q, indegree, level, [])
      invariant ReleaseInvariant(steps, ordered, q, release, looked)
      invariant first <= ordered + q
      decreases |IdSet(steps)| - |ordered|
    {
      QueueFacts(steps, ordered, q, indegree, level);
      var id := q[0];
      OutEntry(steps, out, id);
      DequeueKeeps(steps, ordered, q, indegree, level, out[id]);
      DequeueKeepsReleases(steps, ordered, q, release, looked);
      assert ordered + q == ordered + [id] + q[1..];
      q, ordered := q[1..], ordered + [id];
      q, indegree, level, release, looked := LowerDependants(steps, ordered, q, indegree, level, release, out);
    }
    EmptyQueueGivesTheOrder(steps, ordered, indegree, level, release, looked);
    if |ordered| != |steps| { return None; }
    assert ordered + q == ordered;
    return Some(ordered);
  }

  // ---------- the validator ----------

  datatype Version = Whole(n: int) | NotWhole

  datatype Metadata = Metadata(name: string, version: Version)

  /** A posted document: metadata and steps may be missing. */
  datatype Definition = Definition(
    apiVersion: string, kind: string, metadata: Option<Metadata>, steps: Option<seq<Step>>)

  datatype Issue =
    | WrongApiVersion
    | WrongKind
    | MissingName
    | BadVersion
    | MissingStepId
    | DuplicateStepId(id: string)
    | MissingContract(id: string)
    | UnknownDependency(id: string, dependency: string)
    | NoOrder

  function StepsOf(w: Definition): seq<Step> { if w.steps.Some? then w.steps.value else [] }

  predicate GoodVersion(w: Definition) {
    w.metadata.Some? && w.metadata.value.version.Whole? && w.metadata.value.version.n >= 1
  }

  predicate GoodName(w: Definition) { w.metadata.Some? && w.metadata.value.name != "" }

  /** What the complaints about single steps mean. */
  ghost predicate StepDeserves(steps: seq<Step>, issue: Issue) {
    match issue
    case MissingStepId => exists s :: s in steps && s.id == ""
    case DuplicateStepId(id) => exists i, j :: 0 <= i < j < |steps| && steps[i].id == id && steps[j].id == id
    case MissingContract(id) => exists s :: s in steps && s.id == id && s.contract == ""
    case _ => false
  }

  ghost predicate HeaderDeserves(w: Definition, issue: Issue) {
    match issue
    case WrongApiVersion => w.apiVersion != "flowcommit.io/v1"
    case WrongKind => w.kind != "Workflow"
    case MissingName => !GoodName(w)
    case BadVersion => !GoodVersion(w)
    case _ => false
  }

  ghost predicate DependencyDeserves(steps: seq<Step>, known: set<string>, issue: Issue) {
    issue.UnknownDependency? && issue.dependency !in known
    && exists s :: s in steps && s.id == issue.id && issue.dependency in s.dependsOn
  }

  /** What each complaint of the validator means. */
  ghost predicate Deserved(w: Definition, issue: Issue) {
    var steps := StepsOf(w);
    || HeaderDeserves(w, issue)
    || StepDeserves(steps, issue)
    || DependencyDeserves(steps, IdSet(steps), issue)
    || (issue.NoOrder? && (w.steps.None? || !DistinctIds(steps) || HasCycle(steps)))
  }

  /** The header is right, ids are non-empty and distinct, contracts present, dependencies known, no cycle. */
  ghost predicate WellFormed(w: Definition) {
    && w.apiVersion == "flowcommit.io/v1" && w.kind == "Workflow" && GoodName(w) && GoodVersion(w)
    && w.steps.Some?
    && (forall s | s in w.steps.value :: s.id != "" && s.contract != "")
    && DistinctIds(w.steps.value)
    && (forall s, d | s in w.steps.value && d in s.dependsOn :: d in IdSet(w.steps.value))
    && !HasCycle(w.steps.value)
  }

  lemma NothingDeservedExactly(w: Definition)
    ensures (forall issue :: !Deserved(w, issue)) <==> WellFormed(w)
  {
    hide HasCycle, IdSet;
    var steps := StepsOf(w);
    if WellFormed(w) {
      forall issue ensures !Deserved(w, issue) {}
    }
    if forall issue :: !Deserved(w, issue) {
      assert !Deserved(w, WrongApiVersion) && !Deserved(w, WrongKind) && !Deserved(w, MissingName);
      assert !Deserved(w, BadVersion) && !Deserved(w, MissingStepId) && !Deserved(w, NoOrder);
      forall s | s in steps ensures s.id != "" && s.contract != "" {
        assert !Deserved(w, MissingContract(s.id));
      }
      forall s, d | s in steps && d in s.dependsOn ensures d in IdSet(steps) {
        assert !Deserved(w, UnknownDependency(s.id, d));
      }
    }
  }

  method HeaderIssues(w: Definition) returns (issues: seq<Issue>)
    ensures forall issue :: issue in issues <==> HeaderDeserves(w, issue)
  {
    issues := [];
    if w.apiVersion != "flowcommit.io/v1" { issues := issues + [WrongApiVersion]; }
    if w.kind != "Workflow" { issues := issues + [WrongKind]; }
    if !GoodName(w) { issues := issues + [MissingName]; }
    if !GoodVersion(w) { issues := issues + [BadVersion]; }
  }

  lemma OneMoreStep(steps: seq<Step>, s: Step, issue: Issue)
    ensures StepDeserves(steps + [s], issue) <==>
      || StepDeserves(steps, issue)
      || (issue.MissingStepId? && s.id == "")
      || (issue == DuplicateStepId(s.id) && s.id in IdSet(steps))
      || (issue == MissingContract(s.id) && s.contract == "")
  {
    var longer := steps + [s];
    if issue.DuplicateStepId? {
      if StepDeserves(steps, issue) {
        var i, j :| 0 <= i < j < |steps| && steps[i].id == issue.id && steps[j].id == issue.id;
        assert longer[i] == steps[i] && longer[j] == steps[j];
      }
      if issue == DuplicateStepId(s.id) && s.id in IdSet(steps) {
        var t :| t in steps && t.id == s.id;
        var i :| 0 <= i < |steps| && steps[i] == t;
        assert longer[i].id == s.id && longer[|steps|].id == s.id;
      }
      if StepDeserves(longer, issue) {
        var i, j :| 0 <= i < j < |longer| && longer[i].id == issue.id && longer[j].id == issue.id;
        assert steps[i].id == issue.id;
        if j < |steps| {
          assert steps[j].id == issue.id;
        } else {
          assert steps[i] in steps;
        }
      }
    }
  }

  method StepIssues(steps: seq<Step>) returns (issues: seq<Issue>)
    ensures forall issue :: issue in issues <==> StepDeserves(steps, issue)
  {
    hide StepDeserves;
    issues := [];
    var ids: set<string> := {};
    NoStepsDeserveNothing();
    for i := 0 to |steps|
      invariant ids == IdSet(steps[..i])
      invariant forall issue :: issue in issues <==> StepDeserves(steps[..i], issue)
    {
      var s := steps[i];
      assert steps[..i + 1] == steps[..i] + [s];
      forall issue { OneMoreStep(steps[..i], s, issue); }
      if s.id == "" { issues := issues + [MissingStepId]; }
      if s.id in ids { issues := issues + [DuplicateStepId(s.id)]; }
      ids := ids + {s.id};
      if s.contract == "" { issues := issues + [MissingContract(s.id)]; }
    }
    assert steps[..|steps|] == steps;
  }

  lemma NoStepsDeserveNothing()
    ensures forall issue :: !StepDeserves([], issue)
    ensures forall known, issue :: !DependencyDeserves([], known, issue)
  {}

  method DependencyIssues(steps: seq<Step>) returns (issues: seq<Issue>)
    ensures forall issue :: issue in issues <==> DependencyDeserves(steps, IdSet(steps), issue)
  {
    issues := [];
    var ids := IdSet(steps);
    for i := 0 to |steps|
      invariant forall issue :: issue in issues <==> DependencyDeserves(steps[..i], ids, issue)
    {
      var s := steps[i];
      assert steps[..i + 1] == steps[..i] + [s];
      for j := 0 to |s.dependsOn|
        invariant forall issue :: issue in issues <==>
          || DependencyDeserves(steps[..i], ids, issue)
          || (issue.UnknownDependency? && issue.id == s.id
              && issue.dependency in s.dependsOn[..j] && issue.dependency !in ids)
      {
        var d := s.dependsOn[j];
        assert s.dependsOn[..j + 1] == s.dependsOn[..j] + [d];
        if d !in ids { issues := issues + [UnknownDependency(s.id, d)]; }
      }
      assert s.dependsOn[..|s.dependsOn|] == s.dependsOn;
    }
    assert steps[..|steps|] == steps;
  }

  /** validateWorkflow: every issue reported is deserved, and every deserved one is reported. */
  method ValidateWorkflow(w: Definition) returns (issues: seq<Issue>)
    ensures forall issue :: issue in issues <==> Deserved(w, issue)
    ensures issues == [] <==> WellFormed(w)
  {
    hide HeaderDeserves, StepDeserves, DependencyDeserves, HasCycle, WellFormed;
    var headerIssues := HeaderIssues(w);
    var steps := StepsOf(w);
    var stepIssues := StepIssues(steps);
    var dependencyIssues := DependencyIssues(steps);
    issues := headerIssues + stepIssues + dependencyIssues;
    if w.steps.None? {
      issues := issues + [NoOrder];
    } else {
      var r := TopologicalOrder(w.steps.value);
      if r.None? { issues := issues + [NoOrder]; }
    }
    NothingDeservedExactly(w);
    assert forall issue :: issue in issues <==> Deserved(w, issue);
    if issues != [] {
      assert issues[0] in issues;
    }
  }

  /** In a well-formed workflow an order puts every listed dependency before the step that lists it. */
  lemma WellFormedOrdersEveryDependency(w: Definition, order: seq<string>, i: nat, d: string)
    requires WellFormed(w) && IsTopological(w.steps.value, order)
    requires i < |w.steps.value| && d in w.steps.value[i].dependsOn
    ensures exists j, k :: 0 <= j < k < |order| && order[j] == d && order[k] == w.steps.value[i].id
  {
    var steps := w.steps.value;
    assert steps[i] in steps;
    ListedDependencyCounts(steps, IdSet(steps), i, d);
    assert steps[i].id in order;
    var k :| 0 <= k < |order| && order[k] == steps[i].id;
    assert d in order[..k];
    var j :| 0 <= j < k && order[j] == d;
  }
}
