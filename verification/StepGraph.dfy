/** The dependency graph of a workflow's steps: known dependencies, paths, cycles and depth. */
module StepGraph {

  /** An absent dependsOn is the empty list. */
  datatype Step = Step(id: string, contract: string, dependsOn: seq<string>)

  function IdSet(steps: seq<Step>): set<string> { set s | s in steps :: s.id }

  ghost predicate DistinctIds(steps: seq<Step>) {
    forall i, j | 0 <= i < j < |steps| :: steps[i].id != steps[j].id
  }

  function KnownOnly(deps: seq<string>, known: set<string>): seq<string> {
    if deps == [] then []
    else KnownOnly(deps[..|deps| - 1], known) + (if deps[|deps| - 1] in known then [deps[|deps| - 1]] else [])
  }

  /** Every listed dependency of the steps with id n that names a known step, repetitions included. */
  function DepsIn(steps: seq<Step>, known: set<string>, n: string): seq<string> {
    if steps == [] then []
    else
      var last := steps[|steps| - 1];
      DepsIn(steps[..|steps| - 1], known, n) + (if last.id == n then KnownOnly(last.dependsOn, known) else [])
  }

  function Deps(steps: seq<Step>, n: string): seq<string> { DepsIn(steps, IdSet(steps), n) }

  /** A sequence of steps each of which is a dependency of the next. */
  ghost predicate IsPath(steps: seq<Step>, p: seq<string>) {
    && p != []
    && (forall i | 0 <= i < |p| :: p[i] in IdSet(steps))
    && forall i | 0 <= i < |p| - 1 :: p[i] in Deps(steps, p[i + 1])
  }

  ghost predicate HasCycle(steps: seq<Step>) {
    exists p :: IsPath(steps, p) && |p| >= 2 && p[0] == p[|p| - 1]
  }

  /** k is the length of the longest dependency chain that ends at n. */
  ghost predicate DepthIs(steps: seq<Step>, n: string, k: nat) {
    && (exists p :: IsPath(steps, p) && p[|p| - 1] == n && |p| == k + 1)
    && (forall p :: IsPath(steps, p) && p[|p| - 1] == n ==> |p| <= k + 1)
  }

  ghost predicate HasDepth(steps: seq<Step>, n: string) { exists k :: DepthIs(steps, n, k) }

  /** The steps without a known dependency, in declaration order. */
  function Roots(steps: seq<Step>): seq<string> { RootsAmong(steps, steps) }

  function RootsAmong(steps: seq<Step>, some: seq<Step>): seq<string> {
    if some == [] then []
    else
      var last := some[|some| - 1];
      RootsAmong(steps, some[..|some| - 1]) + (if Deps(steps, last.id) == [] then [last.id] else [])
  }

  ghost predicate NoRepeats(xs: seq<string>) {
    forall i, j | 0 <= i < j < |xs| :: xs[i] != xs[j]
  }

  /** Each step once, every known dependency before the step that lists it. */
  ghost predicate IsTopological(steps: seq<Step>, order: seq<string>) {
    && |order| == |steps| && NoRepeats(order)
    && (forall n :: n in order <==> n in IdSet(steps))
    && forall i | 0 <= i < |order| :: forall d | d in Deps(steps, order[i]) :: d in order[..i]
  }

  /** Longest-chain depth never falls along the order, and every listed step has one. */
  ghost predicate OrderedByDepth(steps: seq<Step>, order: seq<string>) {
    && (forall i | 0 <= i < |order| :: HasDepth(steps, order[i]))
    && forall i, j, a, b | 0 <= i < j < |order| && DepthIs(steps, order[i], a) && DepthIs(steps, order[j], b) ::
         a <= b
  }

  // ---------- an order excludes cycles ----------

  lemma {:induction false} PathsClimb(steps: seq<Step>, order: seq<string>, p: seq<string>)
    returns (first: nat, last: nat)
    requires IsTopological(steps, order) && IsPath(steps, p)
    ensures first < |order| && last < |order| && order[first] == p[0] && order[last] == p[|p| - 1]
    ensures |p| >= 2 ==> first < last
    decreases |p|
  {
    assert p[|p| - 1] in order;
    var j :| 0 <= j < |order| && order[j] == p[|p| - 1];
    if |p| == 1 {
      first, last := j, j;
    } else {
      var q := p[..|p| - 1];
      var mid;
      first, mid := PathsClimb(steps, order, q);
      assert q[|q| - 1] in Deps(steps, order[j]);
      assert q[|q| - 1] in order[..j];
      var m :| 0 <= m < j && order[m] == q[|q| - 1];
      assert m == mid;
      last := j;
    }
  }

  lemma TopologicalMeansAcyclic(steps: seq<Step>, order: seq<string>)
    requires IsTopological(steps, order)
    ensures !HasCycle(steps)
  {
    forall p | IsPath(steps, p) && |p| >= 2 ensures p[0] != p[|p| - 1] {
      var first, last := PathsClimb(steps, order, p);
    }
  }

  // ---------- stuck steps contain a cycle ----------

  /** Every step in stuck has a dependency in stuck. */
  ghost predicate Stuck(steps: seq<Step>, stuck: set<string>) {
    stuck <= IdSet(steps) && forall n | n in stuck :: DependsInto(steps, n, stuck)
  }

  ghost predicate DependsInto(steps: seq<Step>, n: string, some: set<string>) {
    exists d :: d in some && d in Deps(steps, n)
  }

  lemma PickDependency(steps: seq<Step>, n: string, some: set<string>) returns (d: string)
    requires DependsInto(steps, n, some)
    ensures d in some && d in Deps(steps, n)
  {
    d :| d in some && d in Deps(steps, n);
  }

  lemma {:induction false} NoRepeatsFits(xs: seq<string>, s: set<string>)
    requires NoRepeats(xs) && forall x | x in xs :: x in s
    ensures |xs| <= |s|
    decreases |xs|
  {
    if xs != [] {
      var x := xs[|xs| - 1];
      forall y | y in xs[..|xs| - 1] ensures y in s - {x} {}
      NoRepeatsFits(xs[..|xs| - 1], s - {x});
    }
  }

  lemma PathExtends(steps: seq<Step>, d: string, p: seq<string>)
    requires IsPath(steps, p) && d in IdSet(steps) && d in Deps(steps, p[0])
    ensures IsPath(steps, [d] + p)
  {
    hide Deps, IdSet;
    var longer := [d] + p;
    forall i | 0 <= i < |longer| - 1 ensures longer[i] in Deps(steps, longer[i + 1]) {
      if i > 0 {
        assert p[i - 1] in Deps(steps, p[i]);
      }
    }
  }

  lemma PathPrefix(steps: seq<Step>, p: seq<string>, k: nat)
    requires IsPath(steps, p) && 0 < k <= |p|
    ensures IsPath(steps, p[..k])
  {
    hide Deps, IdSet;
    forall i | 0 <= i < k - 1 ensures p[..k][i] in Deps(steps, p[..k][i + 1]) {
      assert p[i] in Deps(steps, p[i + 1]);
    }
  }

  lemma PathClosesCycle(steps: seq<Step>, d: string, p: seq<string>)
    requires IsPath(steps, [d] + p) && d in p
    ensures HasCycle(steps)
  {
    hide IsPath;
    var k :| 0 <= k < |p| && p[k] == d;
    PathPrefix(steps, [d] + p, k + 2);
    var cycle := ([d] + p)[..k + 2];
    assert cycle[|cycle| - 1] == p[k];
  }

  /** Walking backwards inside a stuck set runs out of fresh steps and closes a cycle. */
  lemma {:induction false} StuckHasCycle(steps: seq<Step>, stuck: set<string>, p: seq<string>)
    requires Stuck(steps, stuck) && IsPath(steps, p) && NoRepeats(p) && forall x | x in p :: x in stuck
    ensures HasCycle(steps)
    decreases |stuck| + 1 - |p|
  {
    hide Deps, IdSet, DependsInto;
    NoRepeatsFits(p, stuck);
    assert p[0] in stuck;
    var d := PickDependency(steps, p[0], stuck);
    PathExtends(steps, d, p);
    if d in p {
      PathClosesCycle(steps, d, p);
    } else {
      NoRepeatsFits([d] + p, stuck);
      StuckHasCycle(steps, stuck, [d] + p);
    }
  }

  // ---------- levels are longest-chain depths ----------

  /** A level exceeds the level of every dependency, and is 0 or one more than some dependency's. */
  ghost predicate IsLevel(steps: seq<Step>, level: map<string, nat>, n: string) {
    && n in level
    && (forall d | d in Deps(steps, n) :: d in level && level[d] < level[n])
    && (level[n] == 0 || exists d :: d in Deps(steps, n) && d in level && level[d] + 1 == level[n])
  }

  ghost predicate Levels(steps: seq<Step>, level: map<string, nat>) {
    forall n | n in IdSet(steps) :: IsLevel(steps, level, n)
  }

  lemma {:induction false} ChainToLevel(steps: seq<Step>, level: map<string, nat>, n: string) returns (p: seq<string>)
    requires Levels(steps, level) && n in IdSet(steps)
    ensures IsPath(steps, p) && p[|p| - 1] == n && |p| == level[n] + 1
    decreases level[n]
  {
    if level[n] == 0 {
      p := [n];
    } else {
      assert IsLevel(steps, level, n);
      var d :| d in Deps(steps, n) && d in level && level[d] + 1 == level[n];
      DepsAreKnown(steps, IdSet(steps), n, d);
      var q := ChainToLevel(steps, level, d);
      p := q + [n];
      forall i | 0 <= i < |p| - 1 ensures p[i] in Deps(steps, p[i + 1]) {
        if i < |q| - 1 {
          assert q[i] in Deps(steps, q[i + 1]);
        }
      }
    }
  }

  lemma {:induction false} ChainsStayBelowLevel(steps: seq<Step>, level: map<string, nat>, p: seq<string>)
    requires Levels(steps, level) && IsPath(steps, p)
    ensures p[|p| - 1] in level && |p| <= level[p[|p| - 1]] + 1
    decreases |p|
  {
    var n := p[|p| - 1];
    assert IsLevel(steps, level, n);
    if |p| > 1 {
      var q := p[..|p| - 1];
      assert q[|q| - 1] in Deps(steps, n);
      ChainsStayBelowLevel(steps, level, q);
    }
  }

  lemma LevelIsDepth(steps: seq<Step>, level: map<string, nat>, n: string)
    requires Levels(steps, level) && n in IdSet(steps)
    ensures n in level && DepthIs(steps, n, level[n])
  {
    assert IsLevel(steps, level, n);
    var p := ChainToLevel(steps, level, n);
    forall q | IsPath(steps, q) && q[|q| - 1] == n ensures |q| <= level[n] + 1 {
      ChainsStayBelowLevel(steps, level, q);
    }
  }

  lemma DepthUnique(steps: seq<Step>, n: string, a: nat, b: nat)
    requires DepthIs(steps, n, a) && DepthIs(steps, n, b)
    ensures a == b
  {}

  lemma {:induction false} KnownOnlyFacts(deps: seq<string>, known: set<string>)
    ensures forall d :: d in KnownOnly(deps, known) <==> d in deps && d in known
  {
    if deps != [] {
      KnownOnlyFacts(deps[..|deps| - 1], known);
      assert deps == deps[..|deps| - 1] + [deps[|deps| - 1]];
    }
  }

  lemma {:induction false} DepsAreKnown(steps: seq<Step>, known: set<string>, n: string, d: string)
    requires d in DepsIn(steps, known, n)
    ensures d in known
  {
    if steps != [] {
      KnownOnlyFacts(steps[|steps| - 1].dependsOn, known);
      if d in DepsIn(steps[..|steps| - 1], known, n) {
        DepsAreKnown(steps[..|steps| - 1], known, n, d);
      }
    }
  }

  /** A dependency listed by a step counts exactly when it names a known step. */
  lemma {:induction false} ListedDependencyCounts(steps: seq<Step>, known: set<string>, i: nat, d: string)
    requires i < |steps| && d in steps[i].dependsOn && d in known
    ensures d in DepsIn(steps, known, steps[i].id)
  {
    KnownOnlyFacts(steps[|steps| - 1].dependsOn, known);
    if i < |steps| - 1 {
      ListedDependencyCounts(steps[..|steps| - 1], known, i, d);
    }
  }
}
