/** The migration graph check: one head, known parents, no cycle, every revision reachable. */
module MigrationGraph {
  import opened Wrappers

  /** The metadata of one migration file. */
  datatype Migration = Migration(revision: string, parents: seq<string>)

  datatype HeadError =
    | DuplicateRevision(revision: string)
    | MissingParents(unknown: set<string>)
    | HeadCount(heads: set<string>)
    | Cyclic
    | Disconnected

  type Graph = map<string, seq<string>>

  function AllParents(g: Graph): set<string> {
    set r, p | r in g && p in g[r] :: p
  }

  function Heads(g: Graph): set<string> { g.Keys - AllParents(g) }

  predicate Known(g: Graph) { AllParents(g) <= g.Keys }

  /** A walk of one or more steps, each from a revision to one of its parents. */
  ghost predicate IsWalk(g: Graph, p: seq<string>) {
    && |p| >= 2
    && forall i | 0 <= i < |p| - 1 :: p[i] in g && p[i + 1] in g[p[i]]
  }

  ghost predicate Walk(g: Graph, a: string, b: string, p: seq<string>) {
    IsWalk(g, p) && p[0] == a && p[|p| - 1] == b
  }

  ghost predicate Reaches(g: Graph, a: string, b: string) {
    exists p :: Walk(g, a, b, p)
  }

  ghost predicate HasCycle(g: Graph) {
    exists r :: r in g && Reaches(g, r, r)
  }

  lemma EdgeReaches(g: Graph, a: string, b: string)
    requires a in g && b in g[a]
    ensures Reaches(g, a, b)
  {
    assert Walk(g, a, b, [a, b]);
  }

  lemma ReachesFurther(g: Graph, a: string, b: string, c: string)
    requires Reaches(g, a, b) && b in g && c in g[b]
    ensures Reaches(g, a, c)
  {
    var p :| Walk(g, a, b, p);
    assert Walk(g, a, c, p + [c]);
  }

  /** Closed under parents. */
  ghost predicate Closed(g: Graph, s: set<string>) {
    forall r | r in s && r in g :: forall p <- g[r] :: p in s
  }

  lemma WalkTail(g: Graph, p: seq<string>)
    requires IsWalk(g, p) && |p| > 2
    ensures IsWalk(g, p[1..])
  {
    var q := p[1..];
    forall i | 0 <= i < |q| - 1 ensures q[i] in g && q[i + 1] in g[q[i]] {
      assert q[i] == p[i + 1] && q[i + 1] == p[i + 1 + 1];
    }
  }

  lemma {:induction false} WalkStaysInside(g: Graph, s: set<string>, p: seq<string>)
    requires Closed(g, s) && IsWalk(g, p) && p[0] in s
    ensures p[|p| - 1] in s
    decreases |p|
  {
    assert p[0] in g && p[1] in g[p[0]];
    if |p| > 2 {
      WalkTail(g, p);
      WalkStaysInside(g, s, p[1..]);
    }
  }

  /** A revision outside a closed set that holds all its parents lies on no cycle. */
  lemma NoReturn(g: Graph, s: set<string>, r: string)
    requires Closed(g, s) && r in g && r !in s && forall p <- g[r] :: p in s
    ensures !Reaches(g, r, r)
  {
    forall p | IsWalk(g, p) && p[0] == r ensures p[|p| - 1] in s {
      assert p[1] in g[p[0]];
      if |p| > 2 {
        WalkTail(g, p);
        WalkStaysInside(g, s, p[1..]);
      }
    }
  }

  lemma KnownParent(g: Graph, r: string, p: string)
    requires Known(g) && r in g && p in g[r]
    ensures p in g
  {
    assert p in AllParents(g);
  }

  // ---- The depth-first search --------------------------------------------------

  /** The nested search, with the two sets it shares over all roots. */
  class CycleSearch {
    const nodes: Graph
    var visiting: set<string>
    var visited: set<string>

    constructor (g: Graph)
      ensures nodes == g && visiting == {} && visited == {}
    {
      nodes := g;
      visiting, visited := {}, {};
    }

    /** What has been left behind is closed under parents and lies on no cycle. */
    ghost predicate Valid()
      reads this
    {
      && visiting <= nodes.Keys && visited <= nodes.Keys && visiting !! visited
      && Closed(nodes, visited)
      && forall r <- visited :: !Reaches(nodes, r, r)
    }

    /** Everything on the current branch leads to `r`. */
    ghost predicate OnBranch(r: string)
      reads this
    {
      forall v <- visiting :: Reaches(nodes, v, r)
    }

    method Search(revision: string) returns (cyclic: bool)
      requires Valid() && Known(nodes) && revision in nodes && OnBranch(revision)
      modifies this
      ensures cyclic ==> HasCycle(nodes)
      ensures !cyclic ==> Valid() && visiting == old(visiting) && old(visited) + {revision} <= visited
      decreases nodes.Keys - visiting - visited
    {
      if revision in visiting { return true; }
      if revision in visited { return false; }
      ghost var unmarked := nodes.Keys - visiting - visited;
      visiting := visiting + {revision};
      cyclic := false;
      var i := 0;
      while i < |nodes[revision]| && !cyclic
        invariant i <= |nodes[revision]|
        invariant cyclic ==> HasCycle(nodes)
        invariant !cyclic ==> Valid() && visiting == old(visiting) + {revision} && old(visited) <= visited
        invariant !cyclic ==> forall j | 0 <= j < i :: nodes[revision][j] in visited
        decreases |nodes[revision]| - i
      {
        var parent := nodes[revision][i];
        KnownParent(nodes, revision, parent);
        assert revision in unmarked && nodes.Keys - visiting - visited <= unmarked - {revision};
        if parent in nodes {
          assert OnBranch(parent) by {
            EdgeReaches(nodes, revision, parent);
            forall v | v in visiting ensures Reaches(nodes, v, parent) {
              if v != revision { ReachesFurther(nodes, v, revision, parent); }
            }
          }
          cyclic := Search(parent);
        }
        i := i + 1;
      }
      visiting := visiting - {revision};
      if !cyclic { NoReturn(nodes, visited, revision); }
      visited := visited + {revision};
    }
  }

  /** The search over all roots reports a cycle if and only if the graph has one. */
  method FindsCycle(g: Graph, order: seq<string>) returns (cyclic: bool)
    requires Known(g) && forall r :: r in order <==> r in g
    ensures cyclic <==> HasCycle(g)
  {
    var search := new CycleSearch(g);
    var i := 0;
    while i < |order|
      invariant i <= |order| && fresh(search)
      invariant search.nodes == g && search.Valid() && search.visiting == {}
      invariant forall j | 0 <= j < i :: order[j] in search.visited
    {
      var found := search.Search(order[i]);
      if found { return true; }
      i := i + 1;
    }
    assert forall r <- g :: r in order && r in search.visited;
    cyclic := false;
  }

  // ---- Reachability from the head ------------------------------------------------

  ghost predicate FromHead(g: Graph, head: string, r: string) {
    r == head || Reaches(g, head, r)
  }

  ghost predicate HasChildIn(g: Graph, s: set<string>, r: string) {
    exists c :: c in s && c in g && r in g[c]
  }

  lemma ExtendWalk(g: Graph, c: string, p: seq<string>)
    requires p != [] && c in g && p[0] in g[c]
    requires forall i | 0 <= i < |p| - 1 :: p[i] in g && p[i + 1] in g[p[i]]
    ensures IsWalk(g, [c] + p)
  {
    var q := [c] + p;
    forall i | 0 <= i < |q| - 1 ensures q[i] in g && q[i + 1] in g[q[i]] {
      if i > 0 { assert q[i] == p[i - 1] && q[i + 1] == p[i - 1 + 1]; }
    }
  }

  /**
   * If every member of a nonempty finite set has a child in that set, the graph has a cycle.
   * `p` is the walk built so far, all in the set and without repetition.
   */
  lemma {:induction false} ChildrenForever(g: Graph, s: set<string>, p: seq<string>)
    requires s <= g.Keys && forall r <- s :: HasChildIn(g, s, r)
    requires p != [] && (forall r <- p :: r in s)
    requires forall i | 0 <= i < |p| - 1 :: p[i] in g && p[i + 1] in g[p[i]]
    ensures HasCycle(g)
    decreases s - set r | r in p
  {
    assert p[0] in s && HasChildIn(g, s, p[0]);
    var c :| c in s && c in g && p[0] in g[c];
    if c in p {
      var i :| 0 <= i < |p| && p[i] == c;
      ExtendWalk(g, c, p[..i + 1]);
      assert Walk(g, c, c, [c] + p[..i + 1]);
    } else {
      var q := [c] + p;
      ExtendWalk(g, c, p);
      assert c in q && forall r <- p :: r in q;
      assert c in (s - set r | r in p) && c !in (s - set r | r in q);
      ChildrenForever(g, s, q);
    }
  }

  /** With one head and no cycle, every revision is reachable from the head. */
  lemma EveryRevisionReachable(g: Graph, head: string, r: string)
    requires Known(g) && Heads(g) == {head} && !HasCycle(g) && r in g
    ensures FromHead(g, head, r)
  {
    var s := set v | v in g && !FromHead(g, head, v);
    if r in s {
      forall v | v in s ensures HasChildIn(g, s, v) {
        assert v !in Heads(g) && v in AllParents(g);
        var c :| c in g && v in g[c];
        if FromHead(g, head, c) {
          if c == head { EdgeReaches(g, head, v); } else { ReachesFurther(g, head, c, v); }
        }
      }
      ChildrenForever(g, s, [r]);
    }
  }

  /** A nonempty graph without a head has a cycle. */
  lemma HeadlessIsCyclic(g: Graph, r: string)
    requires Heads(g) == {} && r in g
    ensures HasCycle(g)
  {
    forall v | v in g.Keys ensures HasChildIn(g, g.Keys, v) {
      assert v !in Heads(g) && v in AllParents(g);
    }
    ChildrenForever(g, g.Keys, [r]);
  }

  /** The stack loop that collects what the head reaches. */
  method ReachableFrom(g: Graph, head: string) returns (reachable: set<string>)
    requires Known(g) && head in g
    ensures reachable <= g.Keys
    ensures forall r :: r in g ==> (r in reachable <==> FromHead(g, head, r))
  {
    reachable := {};
    var pending := [head];
    while pending != []
      invariant reachable <= g.Keys
      invariant forall r <- pending :: r in g && FromHead(g, head, r)
      invariant forall r <- reachable :: FromHead(g, head, r)
      invariant head in reachable || head in pending
      invariant forall r <- reachable :: forall p <- g[r] :: p in reachable || p in pending
      decreases g.Keys - reachable, |pending|
    {
      ghost var before := pending;
      var current := pending[|pending| - 1];
      pending := pending[..|pending| - 1];
      assert before == pending + [current];
      if current !in reachable {
        forall p | p in g[current] ensures p in g && FromHead(g, head, p) {
          assert p in AllParents(g);
          if current == head { EdgeReaches(g, head, p); } else { ReachesFurther(g, head, current, p); }
        }
        reachable := reachable + {current};
        pending := pending + g[current];
      }
    }
    forall r | r in g && FromHead(g, head, r) ensures r in reachable {
      if r != head {
        var p :| Walk(g, head, r, p);
        WalkStaysInside(g, reachable, p);
      }
    }
  }

  // ---- The whole check -----------------------------------------------------------

  predicate DistinctUpTo(ms: seq<Migration>, n: nat)
    requires n <= |ms|
  {
    forall i, j | 0 <= i < j < n :: ms[i].revision != ms[j].revision
  }

  function GraphOf(ms: seq<Migration>): Graph {
    if ms == [] then map[]
    else
      var last := ms[|ms| - 1];
      GraphOf(ms[..|ms| - 1])[last.revision := last.parents]
  }

  lemma {:induction false} GraphKeys(ms: seq<Migration>)
    ensures forall r :: r in GraphOf(ms) <==> exists i :: 0 <= i < |ms| && ms[i].revision == r
  {
    if ms != [] {
      var n := |ms| - 1;
      GraphKeys(ms[..n]);
      assert ms[n].revision in GraphOf(ms);
      forall r ensures r in GraphOf(ms) <==> exists i :: 0 <= i < |ms| && ms[i].revision == r {
        if r in GraphOf(ms[..n]) {
          var i :| 0 <= i < n && ms[..n][i].revision == r;
          assert ms[i].revision == r;
        } else if exists i :: 0 <= i < |ms| && ms[i].revision == r {
          var i :| 0 <= i < |ms| && ms[i].revision == r;
          assert i < n ==> ms[..n][i].revision == r;
        }
      }
    }
  }

  /** The checks in their order; the last one that the code makes, for disconnection, has no place here. */
  ghost predicate Verdict(ms: seq<Migration>, r: Result<string, HeadError>) {
    var g := GraphOf(ms);
    if !DistinctUpTo(ms, |ms|) then
      exists n :: 0 <= n < |ms| && DistinctUpTo(ms, n) && !DistinctUpTo(ms, n + 1)
        && r == Failure(DuplicateRevision(ms[n].revision))
    else if !Known(g) then r == Failure(MissingParents(AllParents(g) - g.Keys))
    else if !(exists h :: Heads(g) == {h}) then r == Failure(HeadCount(Heads(g)))
    else if HasCycle(g) then r == Failure(Cyclic)
    else r.Success? && Heads(g) == {r.value}
  }

  /** Reading the files in order: the graph and its revisions, or the first revision met twice. */
  method LoadGraph(ms: seq<Migration>) returns (r: Result<Graph, HeadError>, order: seq<string>)
    ensures r.Success? ==> DistinctUpTo(ms, |ms|) && r.value == GraphOf(ms)
    ensures r.Success? ==> forall v :: v in order <==> v in r.value
    ensures r.Failure? ==>
      exists n :: 0 <= n < |ms| && DistinctUpTo(ms, n) && !DistinctUpTo(ms, n + 1)
        && r.error == DuplicateRevision(ms[n].revision)
    ensures r.Failure? ==> !DistinctUpTo(ms, |ms|)
  {
    var nodes: Graph := map[];
    order := [];
    var i := 0;
    while i < |ms|
      invariant 0 <= i <= |ms| && nodes == GraphOf(ms[..i]) && DistinctUpTo(ms, i)
      invariant forall v :: v in order <==> v in nodes
    {
      assert ms[..i + 1][..i] == ms[..i];
      GraphKeys(ms[..i]);
      if ms[i].revision in nodes {
        var j :| 0 <= j < i && ms[..i][j].revision == ms[i].revision;
        assert ms[j].revision == ms[i].revision;
        assert !DistinctUpTo(ms, i + 1);
        return Failure(DuplicateRevision(ms[i].revision)), order;
      }
      assert DistinctUpTo(ms, i + 1) by {
        forall j | 0 <= j < i ensures ms[j].revision != ms[i].revision {
          assert ms[..i][j] == ms[j];
        }
      }
      nodes := nodes[ms[i].revision := ms[i].parents];
      order := order + [ms[i].revision];
      i := i + 1;
    }
    assert ms[..|ms|] == ms;
    r := Success(nodes);
  }

  /**
   * The whole check.  Beyond the verdict: a head is derived exactly for distinct revisions,
   * known parents, no cycle and one revision that is no one's parent, and the error for
   * disconnected revisions never occurs.
   */
  method DeriveMigrationHead(ms: seq<Migration>) returns (r: Result<string, HeadError>)
    ensures Verdict(ms, r)
    ensures r.Success? <==>
      && DistinctUpTo(ms, |ms|) && Known(GraphOf(ms)) && !HasCycle(GraphOf(ms))
      && exists h :: Heads(GraphOf(ms)) == {h}
    ensures r != Failure(Disconnected)
  {
    hide HasCycle, Heads, GraphOf, DistinctUpTo, AllParents, FromHead;
    var loaded, order := LoadGraph(ms);
    if loaded.Failure? { return Failure(loaded.error); }
    var nodes := loaded.value;
    var unknown := AllParents(nodes) - nodes.Keys;
    NothingUnknown(AllParents(nodes), nodes.Keys);
    if unknown != {} { return Failure(MissingParents(unknown)); }
    var heads := Heads(nodes);
    assert forall h :: heads == {h} ==> |heads| == 1;
    if |heads| != 1 { return Failure(HeadCount(heads)); }
    var head: string :| head in heads;
    SingletonIs(heads, head);
    var cyclic := FindsCycle(nodes, order);
    if cyclic { return Failure(Cyclic); }
    HeadIsNode(nodes, head);
    var reachable := ReachableFrom(nodes, head);
    forall v | v in nodes ensures v in reachable { EveryRevisionReachable(nodes, head, v); }
    if reachable != nodes.Keys { assert false; }
    r := Success(head);
  }

  lemma NothingUnknown(a: set<string>, b: set<string>)
    ensures a - b == {} <==> a <= b
  {
    assert forall x <- a :: x in a - b || x in b;
  }

  lemma HeadIsNode(g: Graph, head: string)
    requires head in Heads(g)
    ensures head in g
  {
  }

  lemma SingletonIs(s: set<string>, x: string)
    requires |s| == 1 && x in s
    ensures s == {x}
  {
    assert |s - {x}| == 0;
    assert s == {x} + (s - {x});
  }
}
