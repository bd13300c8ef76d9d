/**
 * What a whole receipt contains and which rules it has to keep: the recursive traversal succeeds
 * exactly on well-formed suites that keep the rules, and then adds exactly their tests.
 */
module PlaywrightWalk {
  import opened Wrappers
  import opened CanonicalJson
  import opened PlaywrightReceipt

  // ---- What a whole receipt contains, limits and duplicates aside -------------------

  /** The suites and the tests of a part of a receipt, in the order of the text. */
  datatype Tally = Tally(suites: nat, leaves: seq<Leaf>)

  function Plus(a: Tally, b: Tally): Tally { Tally(a.suites + b.suites, a.leaves + b.leaves) }

  /** Only a selected test has an outcome, which then bears its node's name and a failure status. */
  predicate LeafOk(l: Leaf) {
    l.outcome.Some? ==> !l.skipped && l.outcome.value.nodeId == NodeId(l.node) && l.outcome.value.status in FAILURES
  }

  function LeafOf(texts: Texts, spec: Fields, path: Option<string>, test: Json): (r: Option<Leaf>)
    ensures r.Some? ==> LeafOk(r.value)
  {
    if !test.Obj? then None
    else
      match ReadHead(test.members)
      case Failure(_) => None
      case Success(head) =>
        match ReadLeaf(texts, spec, path, test.members, head)
        case Failure(_) => None
        case Success((node, skipped, result)) =>
          if skipped then Some(Leaf(node, true, None, |head.results|))
          else
            match ReadOutcome(texts, node, head.expected, result)
            case Failure(_) => None
            case Success(outcome) => Some(Leaf(node, false, outcome, |head.results|))
  }

  function LeavesOfTests(texts: Texts, spec: Fields, path: Option<string>, tests: seq<Json>): (r: Option<seq<Leaf>>)
    ensures r.Some? ==> forall l <- r.value :: LeafOk(l)
  {
    if tests == [] then Some([])
    else
      match (LeavesOfTests(texts, spec, path, tests[..|tests| - 1]), LeafOf(texts, spec, path, tests[|tests| - 1]))
      case (Some(before), Some(leaf)) => Some(before + [leaf])
      case _ => None
  }

  function LeavesOfSpec(texts: Texts, suiteFile: Option<string>, spec: Json): (r: Option<seq<Leaf>>)
    ensures r.Some? ==> forall l <- r.value :: LeafOk(l)
  {
    if !spec.Obj? then None
    else
      match (SpecPath(texts, spec.members, suiteFile), ListField(spec.members, "tests"))
      case (Success(path), Success(tests)) => LeavesOfTests(texts, spec.members, path, tests)
      case _ => None
  }

  function LeavesOfSpecs(texts: Texts, suiteFile: Option<string>, specs: seq<Json>): (r: Option<seq<Leaf>>)
    ensures r.Some? ==> forall l <- r.value :: LeafOk(l)
  {
    if specs == [] then Some([])
    else
      match (LeavesOfSpecs(texts, suiteFile, specs[..|specs| - 1]), LeavesOfSpec(texts, suiteFile, specs[|specs| - 1]))
      case (Some(before), Some(leaves)) => Some(before + leaves)
      case _ => None
  }

  /** The tests of a suite itself; `None` when the suite or anything directly in it is malformed. */
  function LeavesOfSuite(texts: Texts, suite: Json): (r: Option<seq<Leaf>>)
    ensures r.Some? ==> forall l <- r.value :: LeafOk(l)
  {
    if !suite.Obj? then None
    else
      match (StringField(suite.members, "file"), ListField(suite.members, "specs"), ListField(suite.members, "suites"))
      case (Success(file), Success(specs), Success(_)) => LeavesOfSpecs(texts, file, specs)
      case _ => None
  }

  /** Everything in a list of suites at one depth; `None` for a malformed or too deep part. */
  function TallyOf(texts: Texts, suites: seq<Json>, depth: nat): (r: Option<Tally>)
    ensures r.Some? ==> forall l <- r.value.leaves :: LeafOk(l)
    decreases suites
  {
    if suites == [] then Some(Tally(0, []))
    else if depth > MAX_DEPTH then None
    else
      assert Children(suites[0]) == [] ==> Children(suites[0]) == suites[|suites|..];
      match (LeavesOfSuite(texts, suites[0]), TallyOf(texts, Children(suites[0]), depth + 1),
        TallyOf(texts, suites[1..], depth))
      case (Some(own), Some(below), Some(beside)) => Some(Plus(Plus(Tally(1, own), below), beside))
      case _ => None
  }

  /** The status a test's only result reports. */
  function Reported(results: seq<Json>): Option<string> {
    if results != [] && results[0].Obj? && HasText(results[0].members, "status")
    then Some(results[0].members["status"].text) else None
  }

  predicate HasText(m: Fields, key: string) { key in m && m[key].Str? }

  function ResultsOf(test: Fields): seq<Json> {
    if "results" in test && test["results"].Arr? then test["results"].items else []
  }

  /**
   * What a test's leaf means in terms of the receipt's text: the statuses are known ones, a
   * test counts as skipped when it was expected to be or reports so, and it has an outcome
   * exactly when it reports a failure that was not expected.
   */
  lemma LeafMeans(texts: Texts, spec: Fields, path: Option<string>, test: Json)
    requires LeafOf(texts, spec, path, test).Some?
    ensures
      var leaf := LeafOf(texts, spec, path, test).value;
      && test.Obj? && HasText(test.members, "expectedStatus")
      && var expected, status := test.members["expectedStatus"].text, Reported(ResultsOf(test.members));
      && expected in {"passed", "failed", "timedOut", "skipped", "interrupted"}
      && (status.Some? ==> status.value in {"passed", "failed", "timedOut", "skipped", "interrupted"})
      && leaf.results == |ResultsOf(test.members)| <= 1 && (leaf.results == 1 <==> status.Some?)
      && (expected == "skipped" ==> status.None? || status.value == "skipped")
      && (leaf.skipped <==> expected == "skipped" || status == Some("skipped"))
      && (leaf.outcome.Some? <==>
            && (status == Some("failed") || status == Some("timedOut") || status == Some("interrupted"))
            && status != Some(expected))
      && (leaf.outcome.Some? ==> Some(leaf.outcome.value.status) == status)
      && path == Some(leaf.node.spec) && |NodeId(leaf.node)| <= 2048 && 1 <= |leaf.node.title| <= 1024
  {
    hide ProjectName;
  }

  // ---- The rules on the whole ----------------------------------------------------------

  function TotalResults(leaves: seq<Leaf>): nat {
    if leaves == [] then 0 else TotalResults(leaves[..|leaves| - 1]) + leaves[|leaves| - 1].results
  }

  function OutcomesOf(leaves: seq<Leaf>): seq<Outcome> {
    if leaves == [] then []
    else
      OutcomesOf(leaves[..|leaves| - 1])
      + match leaves[|leaves| - 1].outcome case None => [] case Some(o) => [o]
  }

  predicate DistinctNodes(leaves: seq<Leaf>) {
    forall i, j | 0 <= i < j < |leaves| :: leaves[i].node != leaves[j].node
  }

  predicate Within(t: Tally) {
    && t.suites <= MAX_SUITES && |t.leaves| <= MAX_NODES && TotalResults(t.leaves) <= MAX_RESULTS
    && DistinctNodes(t.leaves) && |OutcomesOf(t.leaves)| <= MAX_OUTCOMES
  }

  function StateOf(t: Tally): State {
    State(
      set l | l in t.leaves && !l.skipped :: l.node,
      set l | l in t.leaves && l.skipped :: l.node,
      OutcomesOf(t.leaves), t.suites, |t.leaves|, TotalResults(t.leaves))
  }

  lemma {:induction false} LongerCounts(a: seq<Leaf>, b: seq<Leaf>)
    ensures TotalResults(a) <= TotalResults(a + b) && |OutcomesOf(a)| <= |OutcomesOf(a + b)|
  {
    if b == [] {
      assert a + b == a;
    } else {
      var n := |b| - 1;
      assert (a + b)[..|a + b| - 1] == a + b[..n];
      LongerCounts(a, b[..n]);
    }
  }

  /** The rules hold of every part that the walk has covered on the way. */
  lemma WithinBefore(t: Tally, more: Tally)
    requires Within(Plus(t, more))
    ensures Within(t)
  {
    LongerCounts(t.leaves, more.leaves);
    var all := t.leaves + more.leaves;
    forall i, j | 0 <= i < j < |t.leaves| ensures t.leaves[i].node != t.leaves[j].node {
      assert all[i] == t.leaves[i] && all[j] == t.leaves[j];
    }
  }

  /** `r` is what a walk from the state of `t` over `more` has to give. */
  predicate Tracks(r: Step, t: Tally, more: Option<Tally>) {
    if more.Some? && Within(Plus(t, more.value)) then r == Success(StateOf(Plus(t, more.value))) else r.Failure?
  }

  function Both(a: Option<Tally>, b: Option<Tally>): Option<Tally> {
    match (a, b) case (Some(x), Some(y)) => Some(Plus(x, y)) case _ => None
  }

  function Leaves(l: Option<seq<Leaf>>): Option<Tally> {
    match l case None => None case Some(leaves) => Some(Tally(0, leaves))
  }

  lemma PlusAssociates(a: Tally, b: Tally, c: Tally)
    ensures Plus(Plus(a, b), c) == Plus(a, Plus(b, c))
  {
    assert a.leaves + b.leaves + c.leaves == a.leaves + (b.leaves + c.leaves);
  }

  /** Two walks, one after the other. */
  lemma TracksBoth(first: Step, second: Step, t: Tally, a: Option<Tally>, b: Option<Tally>)
    requires Tracks(first, t, a)
    requires first.Success? && a.Some? ==> Tracks(second, Plus(t, a.value), b)
    ensures Tracks(if first.Success? then second else first, t, Both(a, b))
  {
    hide Within, StateOf;
    if a.Some? && b.Some? {
      PlusAssociates(t, a.value, b.value);
      if Within(Plus(t, Plus(a.value, b.value))) { WithinBefore(Plus(t, a.value), b.value); }
    }
  }

  // ---- One leaf ------------------------------------------------------------------------

  lemma LeafState(t: Tally, l: Leaf)
    ensures
      var st := StateOf(Plus(t, Tally(0, [l])));
      && st.nodes == StateOf(t).nodes + (if l.skipped then {} else {l.node})
      && st.skipped == StateOf(t).skipped + (if l.skipped then {l.node} else {})
      && st.outcomes == StateOf(t).outcomes + (match l.outcome case None => [] case Some(o) => [o])
      && st.suites == t.suites && st.tests == |t.leaves| + 1 && st.results == StateOf(t).results + l.results
  {
    var all := t.leaves + [l];
    assert all[..|all| - 1] == t.leaves;
    assert forall x :: x in all <==> x in t.leaves || x == l;
  }

  lemma LeafWithin(t: Tally, l: Leaf)
    requires Within(t)
    ensures Within(Plus(t, Tally(0, [l]))) <==>
      && |t.leaves| + 1 <= MAX_NODES && TotalResults(t.leaves) + l.results <= MAX_RESULTS
      && l.node !in StateOf(t).nodes && l.node !in StateOf(t).skipped
      && (l.outcome.Some? ==> |OutcomesOf(t.leaves)| + 1 <= MAX_OUTCOMES)
  {
    var all := t.leaves + [l];
    assert all[..|all| - 1] == t.leaves;
    assert DistinctNodes(all) <==> l.node !in StateOf(t).nodes && l.node !in StateOf(t).skipped by {
      if DistinctNodes(all) {
        forall x | x in t.leaves ensures x.node != l.node {
          var i :| 0 <= i < |t.leaves| && t.leaves[i] == x;
          assert all[i].node != all[|t.leaves|].node;
        }
      } else {
        var i, j :| 0 <= i < j < |all| && all[i].node == all[j].node;
        assert j == |t.leaves|;
        assert t.leaves[i] in t.leaves && t.leaves[i].node == l.node;
      }
    }
  }

  lemma StateFields(t: Tally)
    ensures StateOf(t).tests == |t.leaves| && StateOf(t).results == TotalResults(t.leaves)
    ensures StateOf(t).outcomes == OutcomesOf(t.leaves) && StateOf(t).suites == t.suites
  {
  }

  lemma TestTracks(texts: Texts, t: Tally, spec: Fields, path: Option<string>, test: Json)
    requires Within(t)
    ensures
      var leaf := LeafOf(texts, spec, path, test);
      Tracks(VisitTest(texts, StateOf(t), spec, path, test), t, if leaf.Some? then Some(Tally(0, [leaf.value]))
        else None)
  {
    hide Within, StateOf, ReadHead, ReadLeaf, ReadOutcome;
    StateFields(t);
    var leaf := LeafOf(texts, spec, path, test);
    if leaf.Some? {
      LeafWithin(t, leaf.value);
      LeafState(t, leaf.value);
      var was, now := StateOf(t), StateOf(Plus(t, Tally(0, [leaf.value])));
      var l := leaf.value;
      assert now.nodes == if l.skipped then was.nodes else was.nodes + {l.node};
      assert now.skipped == if l.skipped then was.skipped + {l.node} else was.skipped;
      assert now.outcomes == if l.outcome.Some? then was.outcomes + [l.outcome.value] else was.outcomes;
      assert now == State(now.nodes, now.skipped, now.outcomes, was.suites, was.tests + 1, was.results + l.results);
    }
  }

  lemma {:induction false} TestsTrack(texts: Texts, t: Tally, spec: Fields, path: Option<string>, tests: seq<Json>)
    requires Within(t)
    ensures Tracks(VisitTests(texts, StateOf(t), spec, path, tests), t, Leaves(LeavesOfTests(texts, spec, path, tests)))
  {
    hide Within, StateOf, VisitTest, LeafOf;
    if tests == [] {
      assert Plus(t, Tally(0, [])) == t;
    } else {
      var before, last := tests[..|tests| - 1], tests[|tests| - 1];
      TestsTrack(texts, t, spec, path, before);
      var first := VisitTests(texts, StateOf(t), spec, path, before);
      var a := Leaves(LeavesOfTests(texts, spec, path, before));
      var leaf := LeafOf(texts, spec, path, last);
      var b := if leaf.Some? then Some(Tally(0, [leaf.value])) else None;
      var second := if first.Success? then VisitTest(texts, first.value, spec, path, last) else first;
      if first.Success? { TestTracks(texts, Plus(t, a.value), spec, path, last); }
      TracksBoth(first, second, t, a, b);
    }
  }

  // ---- Specs, suites, trees ------------------------------------------------------------

  lemma SpecTracks(texts: Texts, t: Tally, suiteFile: Option<string>, spec: Json)
    requires Within(t)
    ensures Tracks(VisitSpec(texts, StateOf(t), suiteFile, spec), t, Leaves(LeavesOfSpec(texts, suiteFile, spec)))
  {
    hide Within, StateOf, VisitTests, LeavesOfTests;
    if spec.Obj? && SpecPath(texts, spec.members, suiteFile).Success? && ListField(spec.members, "tests").Success? {
      TestsTrack(texts, t, spec.members, SpecPath(texts, spec.members, suiteFile).value,
        ListField(spec.members, "tests").value);
    }
  }

  lemma {:induction false} SpecsTrack(texts: Texts, t: Tally, suiteFile: Option<string>, specs: seq<Json>)
    requires Within(t)
    ensures Tracks(VisitSpecs(texts, StateOf(t), suiteFile, specs), t, Leaves(LeavesOfSpecs(texts, suiteFile, specs)))
  {
    hide Within, StateOf, VisitSpec, LeavesOfSpec;
    if specs == [] {
      assert Plus(t, Tally(0, [])) == t;
    } else {
      var before, last := specs[..|specs| - 1], specs[|specs| - 1];
      SpecsTrack(texts, t, suiteFile, before);
      var first := VisitSpecs(texts, StateOf(t), suiteFile, before);
      var a := Leaves(LeavesOfSpecs(texts, suiteFile, before));
      var b := Leaves(LeavesOfSpec(texts, suiteFile, last));
      var second := if first.Success? then VisitSpec(texts, first.value, suiteFile, last) else first;
      if first.Success? { SpecTracks(texts, Plus(t, a.value), suiteFile, last); }
      TracksBoth(first, second, t, a, b);
    }
  }

  lemma SuiteState(t: Tally)
    ensures StateOf(Plus(t, Tally(1, []))) == StateOf(t).(suites := t.suites + 1)
    ensures Within(t) ==> (Within(Plus(t, Tally(1, []))) <==> t.suites + 1 <= MAX_SUITES)
  {
    assert t.leaves + [] == t.leaves;
  }

  function OneSuite(own: Option<seq<Leaf>>): Option<Tally> {
    match own case None => None case Some(leaves) => Some(Tally(1, leaves))
  }

  lemma SuiteTracks(texts: Texts, t: Tally, suite: Json, depth: nat)
    requires Within(t) && depth <= MAX_DEPTH
    ensures Tracks(VisitSuite(texts, StateOf(t), suite, depth), t, OneSuite(LeavesOfSuite(texts, suite)))
  {
    hide Within, StateOf, VisitSpecs, LeavesOfSpecs;
    SuiteState(t);
    StateFields(t);
    var one := Plus(t, Tally(1, []));
    var own := LeavesOfSuite(texts, suite);
    if own.Some? {
      PlusAssociates(t, Tally(1, []), Tally(0, own.value));
      assert [] + own.value == own.value;
      if !Within(one) && Within(Plus(t, Tally(1, own.value))) { WithinBefore(one, Tally(0, own.value)); }
    }
    if Within(one) && suite.Obj? && StringField(suite.members, "file").Success?
      && ListField(suite.members, "specs").Success? {
      SpecsTrack(texts, one, StringField(suite.members, "file").value, ListField(suite.members, "specs").value);
    }
  }

  /** The recursive traversal succeeds exactly on well-formed suites that keep the rules, with their tally. */
  lemma {:induction false} ForestTracks(texts: Texts, t: Tally, suites: seq<Json>, depth: nat)
    requires Within(t)
    ensures Tracks(WalkForest(texts, StateOf(t), suites, depth), t, TallyOf(texts, suites, depth))
    decreases suites
  {
    hide Within, StateOf, VisitSuite, LeavesOfSuite;
    if suites == [] {
      assert Plus(t, Tally(0, [])) == t;
    } else if depth > MAX_DEPTH {
      assert VisitSuite(texts, StateOf(t), suites[0], depth).Failure? by { TooDeep(texts, StateOf(t), suites[0],
        depth); }
    } else {
      assert Children(suites[0]) == [] ==> Children(suites[0]) == suites[|suites|..];
      var own := OneSuite(LeavesOfSuite(texts, suites[0]));
      var below := TallyOf(texts, Children(suites[0]), depth + 1);
      var beside := TallyOf(texts, suites[1..], depth);
      SuiteTracks(texts, t, suites[0], depth);
      var first := VisitSuite(texts, StateOf(t), suites[0], depth);
      var second := if first.Success? then WalkForest(texts, first.value, Children(suites[0]), depth + 1) else first;
      if first.Success? { ForestTracks(texts, Plus(t, own.value), Children(suites[0]), depth + 1); }
      TracksBoth(first, second, t, own, below);
      var both := Both(own, below);
      var third := if second.Success? then WalkForest(texts, second.value, suites[1..], depth) else second;
      if second.Success? { ForestTracks(texts, Plus(t, both.value), suites[1..], depth); }
      TracksBoth(second, third, t, both, beside);
    }
  }

  lemma TooDeep(texts: Texts, st: State, suite: Json, depth: nat)
    requires depth > MAX_DEPTH
    ensures VisitSuite(texts, st, suite, depth).Failure?
  {
  }
}
