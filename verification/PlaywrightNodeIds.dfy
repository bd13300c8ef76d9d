/** The printed identity of a node: when it names one node, and a receipt in which it does not. */
module PlaywrightNodeIds {
  import opened Wrappers
  import opened CanonicalJson
  import opened PlaywrightReceipt
  import opened PlaywrightWalk
  import opened PlaywrightStack

  // ---- Exactly when an id names one node ------------------------------------------------

  predicate CutAt(id: string, i: nat) { i + 2 <= |id| && id[i..i + 2] == "::" }

  /** Two places, one behind the other, where an id can be taken apart. */
  predicate Cuts(id: string, i: nat, j: nat) { i + 2 <= j && CutAt(id, i) && CutAt(id, j) }

  function NodeCut(id: string, i: nat, j: nat): Node
    requires Cuts(id, i, j)
  {
    Node(id[..i], id[i + 2..j], id[j + 2..])
  }

  /** Taking an id apart and printing it again gives it back. */
  lemma CutPrints(id: string, i: nat, j: nat)
    requires Cuts(id, i, j)
    ensures NodeId(NodeCut(id, i, j)) == id
  {
    assert id == id[..i] + id[i..i + 2] + id[i + 2..j] + id[j..j + 2] + id[j + 2..];
  }

  /** A node's own cuts. */
  lemma OwnCuts(n: Node)
    ensures Cuts(NodeId(n), |n.project|, |n.project| + 2 + |n.spec|)
    ensures NodeCut(NodeId(n), |n.project|, |n.project| + 2 + |n.spec|) == n
  {
    var id := NodeId(n);
    var i, j := |n.project|, |n.project| + 2 + |n.spec|;
    assert id[i..i + 2] == "::" && id[j..j + 2] == "::";
    assert id[..i] == n.project && id[i + 2..j] == n.spec && id[j + 2..] == n.title;
  }

  /** An id names one node if and only if it can be taken apart in one way only. */
  lemma IdNamesOneNodeExactly(n: Node)
    ensures (forall m :: NodeId(m) == NodeId(n) ==> m == n)
      <==> forall i: nat, j: nat | Cuts(NodeId(n), i, j) :: i == |n.project| && j == |n.project| + 2 + |n.spec|
  {
    var id := NodeId(n);
    OwnCuts(n);
    if forall m :: NodeId(m) == id ==> m == n {
      forall i: nat, j: nat | Cuts(id, i, j) ensures i == |n.project| && j == |n.project| + 2 + |n.spec| {
        CutPrints(id, i, j);
        assert NodeCut(id, i, j) == n;
      }
    }
    if forall i: nat, j: nat | Cuts(id, i, j) :: i == |n.project| && j == |n.project| + 2 + |n.spec| {
      forall m | NodeId(m) == id ensures m == n { OwnCuts(m); }
    }
  }

  // ---- A condition on the nodes of a receipt ----------------------------------------------

  predicate ColonFree(n: Node) { ':' !in n.project && ':' !in n.spec }

  /** The first cut of a colon-free node is where its id first shows a colon. */
  lemma FirstColon(n: Node)
    requires ColonFree(n)
    ensures
      var id := NodeId(n);
      && (forall k | 0 <= k < |n.project| :: id[k] != ':') && id[|n.project|] == ':'
      && (forall k | |n.project| + 2 <= k < |n.project| + 2 + |n.spec| :: id[k] != ':')
      && id[|n.project| + 2 + |n.spec|] == ':'
  {
    var id := NodeId(n);
    forall k | 0 <= k < |n.project| ensures id[k] != ':' {
      assert id[k] == n.project[k] && n.project[k] in n.project;
    }
    forall k | |n.project| + 2 <= k < |n.project| + 2 + |n.spec| ensures id[k] != ':' {
      assert id[k] == n.spec[k - |n.project| - 2] && n.spec[k - |n.project| - 2] in n.spec;
    }
  }

  /** Nodes whose project and spec hold no colon have different ids. */
  lemma ColonFreeIdsDiffer(m: Node, n: Node)
    requires ColonFree(m) && ColonFree(n) && NodeId(m) == NodeId(n)
    ensures m == n
  {
    FirstColon(m);
    FirstColon(n);
    OwnCuts(m);
    OwnCuts(n);
    assert |m.project| == |n.project|;
    assert |m.spec| == |n.spec|;
  }

  /** In the report of such a receipt every outcome's id names exactly one node, a selected one. */
  lemma OutcomesNameOneNode(texts: Texts, suites: seq<Json>, x: Execution)
    requires
      var t := TallyOf(texts, suites, 1);
      t.Some? && Within(t.value) && Reports(x, t.value)
    requires forall n | n in x.nodes || n in x.skipped :: ColonFree(n)
    ensures forall o <- x.outcomes ::
      exists n :: n in x.nodes && forall m | m in x.nodes || m in x.skipped :: NodeId(m) == o.nodeId <==> m == n
  {
    hide TallyOf, Within, Reports, NodeId;
    ReportAccounts(texts, suites, x);
    forall o | o in x.outcomes
      ensures exists n :: n in x.nodes && forall m | m in x.nodes || m in x.skipped :: NodeId(m) == o.nodeId <==> m == n
    {
      var n :| n in x.nodes && NodeId(n) == o.nodeId;
      forall m | (m in x.nodes || m in x.skipped) && NodeId(m) == o.nodeId ensures m == n { ColonFreeIdsDiffer(m, n); }
    }
  }

  // ---- A receipt with one id for two nodes --------------------------------------------------

  /** A test expected to pass, without results. */
  function PlainTest(project: string): Json {
    Obj(map["expectedStatus" := Str("passed"), "projectName" := Str(project)])
  }

  /** A spec file that holds the one test of `n`. */
  function PlainSpec(n: Node): Json {
    Obj(map["file" := Str(n.spec), "title" := Str(n.title), "tests" := Arr([PlainTest(n.project)])])
  }

  /** A node that the library's path and title normalisation leave as it is. */
  predicate Normal(texts: Texts, n: Node) {
    && 0 < |n.project| <= MAX_STRING && 0 < |n.spec| <= MAX_STRING && 0 < |n.title| <= MAX_TITLE
    && texts.strip(n.title) == n.title && texts.path(n.spec) == n.spec && |NodeId(n)| <= MAX_NODE_ID
  }

  lemma PlainLeaf(texts: Texts, n: Node)
    requires Normal(texts, n)
    ensures LeafOf(texts, PlainSpec(n).members, Some(n.spec), PlainTest(n.project)) == Some(Leaf(n, false, None, 0))
  {
    var test := PlainTest(n.project).members;
    assert StringField(test, "expectedStatus") == Success(Some("passed"));
    assert "results" !in test && "title" !in test;
    assert ReadHead(test) == Success(Head("passed", []));
    assert StringField(PlainSpec(n).members, "title") == Success(Some(n.title));
    assert ProjectName(test, None) == Success(Some(n.project));
    assert LeafTitle(texts, PlainSpec(n).members, test) == Success(Some(n.title));
  }

  lemma PlainLeaves(texts: Texts, n: Node)
    requires Normal(texts, n)
    ensures LeavesOfSpec(texts, None, PlainSpec(n)) == Some([Leaf(n, false, None, 0)])
  {
    hide LeafOf;
    PlainLeaf(texts, n);
    var tests := [PlainTest(n.project)];
    assert tests[..0] == [];
    assert LeavesOfTests(texts, PlainSpec(n).members, Some(n.spec), []) == Some([]);
    assert [] + [Leaf(n, false, None, 0)] == [Leaf(n, false, None, 0)];
  }

  function PlainSuite(m: Node, n: Node): Json { Obj(map["specs" := Arr([PlainSpec(m), PlainSpec(n)])]) }

  lemma PlainTally(texts: Texts, m: Node, n: Node)
    requires Normal(texts, m) && Normal(texts, n)
    ensures TallyOf(texts, [PlainSuite(m, n)], 1)
      == Some(Tally(1, [Leaf(m, false, None, 0), Leaf(n, false, None, 0)]))
  {
    hide LeavesOfSpec;
    PlainLeaves(texts, m);
    PlainLeaves(texts, n);
    var specs := [PlainSpec(m), PlainSpec(n)];
    assert specs[..1] == [PlainSpec(m)] && specs[..1][..0] == [];
    assert LeavesOfSpecs(texts, None, []) == Some([]);
    assert [] + [Leaf(m, false, None, 0)] == [Leaf(m, false, None, 0)];
    assert LeavesOfSpecs(texts, None, specs[..1]) == Some([Leaf(m, false, None, 0)]);
    assert [Leaf(m, false, None, 0)] + [Leaf(n, false, None, 0)] == [Leaf(m, false, None, 0), Leaf(n, false, None, 0)];
    assert LeavesOfSpecs(texts, None, specs) == Some([Leaf(m, false, None, 0), Leaf(n, false, None, 0)]);
    PlainSuiteTally(texts, m, n);
  }

  lemma PlainSuiteTally(texts: Texts, m: Node, n: Node)
    requires LeavesOfSpecs(texts, None, [PlainSpec(m), PlainSpec(n)]).Some?
    ensures TallyOf(texts, [PlainSuite(m, n)], 1)
      == Some(Tally(1, LeavesOfSpecs(texts, None, [PlainSpec(m), PlainSpec(n)]).value))
  {
    hide LeavesOfSpecs, PlainSpec;
    var own := LeavesOfSpecs(texts, None, [PlainSpec(m), PlainSpec(n)]).value;
    var suite := PlainSuite(m, n);
    assert LeavesOfSuite(texts, suite) == Some(own);
    assert Children(suite) == [] && [suite][1..] == [];
    assert TallyOf(texts, [], 2) == Some(Tally(0, [])) && TallyOf(texts, [], 1) == Some(Tally(0, []));
    assert own + [] + [] == own;
  }

  /** Any two different nodes can stand in one accepted receipt, as far as each is normal. */
  lemma TwoNodesAccepted(texts: Texts, m: Node, n: Node)
    requires Normal(texts, m) && Normal(texts, n) && m != n
    ensures
      var t := TallyOf(texts, [PlainSuite(m, n)], 1);
      && t.Some? && Within(t.value)
      && t.value.leaves == [Leaf(m, false, None, 0), Leaf(n, false, None, 0)]
  {
    hide TallyOf, PlainSuite;
    PlainTally(texts, m, n);
    var a, b := Leaf(m, false, None, 0), Leaf(n, false, None, 0);
    assert [a, b][..1] == [a] && [a][..0] == [];
    assert TotalResults([a]) == 0 && TotalResults([a, b]) == 0;
    assert OutcomesOf([]) == [] && OutcomesOf([a]) == OutcomesOf([a][..0]) + [];
    assert OutcomesOf([a, b]) == OutcomesOf([a, b][..1]) + [];
    assert OutcomesOf([a]) == [] && OutcomesOf([a, b]) == [];
  }

  const FIRST_NODE: Node := Node("a::e2e/x", "e2e/y", "t")
  const SECOND_NODE: Node := Node("a", "e2e/x::e2e/y", "t")

  /** Two different nodes with one id, both in one receipt that the walk accepts. */
  lemma NodeIdsCollide(texts: Texts)
    requires texts.strip("t") == "t"
    requires texts.path("e2e/y") == "e2e/y" && texts.path("e2e/x::e2e/y") == "e2e/x::e2e/y"
    ensures FIRST_NODE != SECOND_NODE && NodeId(FIRST_NODE) == NodeId(SECOND_NODE)
    ensures
      var t := TallyOf(texts, [PlainSuite(FIRST_NODE, SECOND_NODE)], 1);
      && t.Some? && Within(t.value)
      && StateOf(t.value).nodes == {FIRST_NODE, SECOND_NODE}
  {
    hide TallyOf, Within;
    assert NodeId(FIRST_NODE) == "a::e2e/x::e2e/y::t";
    assert NodeId(SECOND_NODE) == "a::e2e/x::e2e/y::t";
    assert |FIRST_NODE.project| != |SECOND_NODE.project|;
    TwoNodesAccepted(texts, FIRST_NODE, SECOND_NODE);
    var t := TallyOf(texts, [PlainSuite(FIRST_NODE, SECOND_NODE)], 1).value;
    assert t.leaves[0].node == FIRST_NODE && t.leaves[1].node == SECOND_NODE;
  }
}
