/** The walk as it is programmed: nested loops over an explicit stack, then sorted results. */
module PlaywrightStack {
  import opened Wrappers
  import opened CanonicalJson
  import opened CanonicalText
  import opened Sorting
  import opened PlaywrightReceipt
  import opened PlaywrightWalk
  import opened PlaywrightRules

  datatype Execution = Execution(nodes: seq<Node>, skipped: seq<Node>, outcomes: seq<Outcome>)

  datatype Pending = Pending(suite: Json, depth: nat)

  // ---- The stack and the recursion -----------------------------------------------------

  /** What popping the stack (its top is its last element) until it is empty has to compute. */
  function RunStack(texts: Texts, st: State, stack: seq<Pending>): Step
    decreases |stack|
  {
    if stack == [] then Success(st)
    else
      var top := stack[|stack| - 1];
      match WalkForest(texts, st, [top.suite], top.depth)
      case Failure(error) => Failure(error)
      case Success(mid) => RunStack(texts, mid, stack[..|stack| - 1])
  }

  /** `reversed(suites)`, each with its depth. */
  function Reversed(suites: seq<Json>, depth: nat): seq<Pending> {
    if suites == [] then [] else Reversed(suites[1..], depth) + [Pending(suites[0], depth)]
  }

  lemma WalkFirst(texts: Texts, st: State, suites: seq<Json>, depth: nat)
    requires suites != []
    ensures WalkForest(texts, st, suites, depth) ==
      match WalkForest(texts, st, [suites[0]], depth)
      case Failure(error) => Failure(error)
      case Success(mid) => WalkForest(texts, mid, suites[1..], depth)
  {
    assert [suites[0]][1..] == [];
  }

  /** Suites pushed in reverse are walked in order, and then what lies below them. */
  lemma {:induction false} ReversedWalks(texts: Texts, st: State, suites: seq<Json>, depth: nat, stack: seq<Pending>)
    ensures RunStack(texts, st, stack + Reversed(suites, depth)) ==
      match WalkForest(texts, st, suites, depth)
      case Failure(error) => Failure(error)
      case Success(mid) => RunStack(texts, mid, stack)
    decreases |suites|
  {
    if suites == [] {
      assert stack + [] == stack;
    } else {
      var pushed := stack + Reversed(suites[1..], depth);
      assert stack + Reversed(suites, depth) == pushed + [Pending(suites[0], depth)];
      assert (pushed + [Pending(suites[0], depth)])[..|pushed|] == pushed;
      WalkFirst(texts, st, suites, depth);
      match WalkForest(texts, st, [suites[0]], depth) {
        case Failure(_) =>
        case Success(mid) => ReversedWalks(texts, mid, suites[1..], depth, stack);
      }
    }
  }

  lemma WalkOne(texts: Texts, st: State, suite: Json, depth: nat)
    ensures WalkForest(texts, st, [suite], depth) ==
      match VisitSuite(texts, st, suite, depth)
      case Failure(error) => Failure(error)
      case Success(mid) => WalkForest(texts, mid, Children(suite), depth + 1)
  {
    hide VisitSuite, Children;
    assert [suite][1..] == [];
    match VisitSuite(texts, st, suite, depth) {
      case Failure(_) =>
      case Success(mid) =>
        match WalkForest(texts, mid, Children(suite), depth + 1) {
          case Failure(_) =>
          case Success(after) => assert WalkForest(texts, after, [], depth) == Success(after);
        }
    }
  }

  /** One turn of the loop: a popped suite is visited and its children are pushed. */
  lemma PopWalks(texts: Texts, st: State, stack: seq<Pending>)
    requires stack != []
    ensures
      var top, rest := stack[|stack| - 1], stack[..|stack| - 1];
      RunStack(texts, st, stack) ==
        match VisitSuite(texts, st, top.suite, top.depth)
        case Failure(error) => Failure(error)
        case Success(mid) => RunStack(texts, mid, rest + Reversed(Children(top.suite), top.depth + 1))
  {
    hide VisitSuite, WalkForest, Children;
    var top, rest := stack[|stack| - 1], stack[..|stack| - 1];
    WalkOne(texts, st, top.suite, top.depth);
    match VisitSuite(texts, st, top.suite, top.depth) {
      case Failure(_) =>
      case Success(mid) => ReversedWalks(texts, mid, Children(top.suite), top.depth + 1, rest);
    }
  }

  // ---- The loops -----------------------------------------------------------------------

  method ReverseOf(suites: seq<Json>, depth: nat) returns (r: seq<Pending>)
    ensures r == Reversed(suites, depth)
  {
    r := [];
    var i := |suites|;
    while i > 0
      invariant 0 <= i <= |suites| && r == Reversed(suites[i..], depth)
    {
      i := i - 1;
      assert suites[i..][1..] == suites[i + 1..];
      r := r + [Pending(suites[i], depth)];
    }
    assert suites[0..] == suites;
  }

  lemma {:induction false} TestsFail(texts: Texts, st: State, spec: Fields, path: Option<string>, tests: seq<Json>,
      n: nat)
    requires n <= |tests| && VisitTests(texts, st, spec, path, tests[..n]).Failure?
    ensures VisitTests(texts, st, spec, path, tests) == VisitTests(texts, st, spec, path, tests[..n])
    decreases |tests| - n
  {
    if n == |tests| {
      assert tests[..n] == tests;
    } else {
      assert tests[..n + 1][..n] == tests[..n];
      TestsFail(texts, st, spec, path, tests, n + 1);
    }
  }

  lemma {:induction false} SpecsFail(texts: Texts, st: State, file: Option<string>, specs: seq<Json>, n: nat)
    requires n <= |specs| && VisitSpecs(texts, st, file, specs[..n]).Failure?
    ensures VisitSpecs(texts, st, file, specs) == VisitSpecs(texts, st, file, specs[..n])
    decreases |specs| - n
  {
    if n == |specs| {
      assert specs[..n] == specs;
    } else {
      assert specs[..n + 1][..n] == specs[..n];
      SpecsFail(texts, st, file, specs, n + 1);
    }
  }

  method WalkTests(texts: Texts, start: State, spec: Fields, path: Option<string>, tests: seq<Json>) returns (r: Step)
    ensures r == VisitTests(texts, start, spec, path, tests)
  {
    hide VisitTest;
    var st := start;
    var i := 0;
    while i < |tests|
      invariant 0 <= i <= |tests| && VisitTests(texts, start, spec, path, tests[..i]) == Success(st)
    {
      assert tests[..i + 1][..i] == tests[..i];
      var step := VisitTest(texts, st, spec, path, tests[i]);
      if step.Failure? {
        TestsFail(texts, start, spec, path, tests, i + 1);
        return step;
      }
      st := step.value;
      i := i + 1;
    }
    assert tests[..i] == tests;
    r := Success(st);
  }

  method WalkSpecs(texts: Texts, start: State, file: Option<string>, specs: seq<Json>) returns (r: Step)
    ensures r == VisitSpecs(texts, start, file, specs)
  {
    hide VisitTests, SpecPath, ListField;
    var st := start;
    var i := 0;
    while i < |specs|
      invariant 0 <= i <= |specs| && VisitSpecs(texts, start, file, specs[..i]) == Success(st)
    {
      assert specs[..i + 1][..i] == specs[..i];
      var step := OneSpec(texts, st, file, specs[i]);
      if step.Failure? {
        SpecsFail(texts, start, file, specs, i + 1);
        return step;
      }
      st := step.value;
      i := i + 1;
    }
    assert specs[..i] == specs;
    r := Success(st);
  }

  method OneSpec(texts: Texts, st: State, file: Option<string>, spec: Json) returns (r: Step)
    ensures r == VisitSpec(texts, st, file, spec)
  {
    hide VisitTests, SpecPath, ListField;
    if !spec.Obj? { return Failure(InvalidShape); }
    var path := SpecPath(texts, spec.members, file);
    if path.Failure? { return Failure(path.error); }
    var tests := ListField(spec.members, "tests");
    if tests.Failure? { return Failure(tests.error); }
    r := WalkTests(texts, st, spec.members, path.value, tests.value);
  }

  method OneSuite(texts: Texts, st: State, suite: Json, depth: nat) returns (r: Step)
    ensures r == VisitSuite(texts, st, suite, depth)
  {
    hide VisitSpecs, StringField, ListField;
    if depth > MAX_DEPTH { return Failure(SuiteDepthLimit); }
    if !suite.Obj? { return Failure(InvalidShape); }
    if st.suites + 1 > MAX_SUITES { return Failure(SuiteLimit); }
    var file := StringField(suite.members, "file");
    if file.Failure? { return Failure(file.error); }
    var specs := ListField(suite.members, "specs");
    if specs.Failure? { return Failure(specs.error); }
    r := WalkSpecs(texts, st.(suites := st.suites + 1), file.value, specs.value);
    if r.Failure? { return; }
    var children := ListField(suite.members, "suites");
    if children.Failure? { return Failure(children.error); }
  }

  // ---- Sorted results --------------------------------------------------------------------

  method SortNodes(s: set<Node>) returns (r: seq<Node>)
    ensures Sorted(NodeKey, r) && multiset(r) == multiset(s)
  {
    r := [];
    var rest := s;
    while rest != {}
      invariant rest <= s && Sorted(NodeKey, r) && multiset(r) == multiset(s - rest)
      decreases rest
    {
      var n :| n in rest;
      InsertSorts(NodeKey, n, r);
      r := Insert(NodeKey, n, r);
      assert s - (rest - {n}) == (s - rest) + {n};
      rest := rest - {n};
    }
    assert s - rest == s;
  }

  method SortOutcomes(xs: seq<Outcome>) returns (r: seq<Outcome>)
    ensures Sorted(OutcomeKey, r) && multiset(r) == multiset(xs)
  {
    r := [];
    var i := 0;
    while i < |xs|
      invariant 0 <= i <= |xs| && Sorted(OutcomeKey, r) && multiset(r) == multiset(xs[..i])
    {
      InsertSorts(OutcomeKey, xs[i], r);
      r := Insert(OutcomeKey, xs[i], r);
      assert xs[..i + 1] == xs[..i] + [xs[i]];
      i := i + 1;
    }
    assert xs[..i] == xs;
  }

  /** Records are ordered field by field, and fields by character codes. */
  lemma OrderSpelled(a: Node, b: Node, o: Outcome, q: Outcome)
    ensures KeyBefore(NodeKey(a), NodeKey(b)) <==>
      || CodeOrder(a.project, b.project)
      || (a.project == b.project && (CodeOrder(a.spec, b.spec) || (a.spec == b.spec && CodeOrder(a.title, b.title))))
    ensures KeyBefore(OutcomeKey(o), OutcomeKey(q)) <==>
      || CodeOrder(o.nodeId, q.nodeId)
      || (o.nodeId == q.nodeId && (CodeOrder(o.status, q.status)
          || (o.status == q.status && CodeOrder(o.detail, q.detail))))
  {
    ThreeFields(a.project, a.spec, a.title, b.project, b.spec, b.title);
    ThreeFields(o.nodeId, o.status, o.detail, q.nodeId, q.status, q.detail);
  }

  lemma ThreeFields(a: string, b: string, c: string, x: string, y: string, z: string)
    ensures KeyBefore([a, b, c], [x, y, z]) <==>
      CodeOrder(a, x) || (a == x && (CodeOrder(b, y) || (b == y && CodeOrder(c, z))))
  {
    BeforeIsCodeOrder(a, x);
    BeforeIsCodeOrder(b, y);
    BeforeIsCodeOrder(c, z);
    hide Before, CodeOrder;
    assert [a, b, c][1..] == [b, c] && [x, y, z][1..] == [y, z];
    assert [b, c][1..] == [c] && [y, z][1..] == [z] && [c][1..] == [] && [z][1..] == [];
    assert KeyBefore([c], [z]) <==> Before(c, z);
    assert KeyBefore([b, c], [y, z]) <==> Before(b, y) || (b == y && Before(c, z));
  }

  // ---- The walk ---------------------------------------------------------------------------

  /** What a successful walk returns for a receipt with tally `t`. */
  ghost predicate Reports(x: Execution, t: Tally) {
    && Sorted(NodeKey, x.nodes) && Sorted(NodeKey, x.skipped) && Sorted(OutcomeKey, x.outcomes)
    && multiset(x.nodes) == multiset(StateOf(t).nodes) && multiset(x.skipped) == multiset(StateOf(t).skipped)
    && multiset(x.outcomes) == multiset(OutcomesOf(t.leaves))
  }

  /**
   * The report of an accepted receipt in terms of its tests: the nodes of those that are not
   * skipped, the nodes of those that are, each once, and the outcomes of the unexpected failures.
   */
  ghost predicate ReportsTests(texts: Texts, x: Execution, suites: seq<Json>) {
    && (forall n :: n in x.nodes <==> Holds(texts, suites, n, false))
    && (forall n :: n in x.skipped <==> Holds(texts, suites, n, true))
    && (forall o :: o in x.outcomes <==> Fails(texts, suites, o))
    && |x.nodes| + |x.skipped| == |Places(suites)|
  }

  /**
   * The walk ends, succeeds exactly when the receipt is accepted by its rules, and then reports
   * exactly its tests, sorted.
   */
  method WalkSuites(texts: Texts, suites: seq<Json>) returns (r: Result<Execution, ReceiptError>)
    ensures r.Success? <==> Accepted(texts, suites)
    ensures r.Success? ==>
      && TallyOf(texts, suites, 1).Some? && Reports(r.value, TallyOf(texts, suites, 1).value)
      && ReportsTests(texts, r.value, suites)
    ensures r.Failure? ==>
      match WalkForest(texts, START, suites, 1)
      case Failure(error) => r.error == error
      case Success(_) => r.error == EmptySelection
  {
    hide VisitSuite, Within, TallyOf, StateOf, Accepted, ReportsTests;
    AcceptedExactly(texts, suites);
    var stack := ReverseOf(suites, 1);
    ReversedWalks(texts, START, suites, 1, []);
    assert [] + stack == stack;
    StartTracks(texts, suites);
    var st := START;
    while stack != []
      invariant st.suites <= MAX_SUITES
      invariant RunStack(texts, st, stack) == WalkForest(texts, START, suites, 1)
      decreases MAX_SUITES - st.suites, |stack|
    {
      PopWalks(texts, st, stack);
      var top := stack[|stack| - 1];
      stack := stack[..|stack| - 1];
      var step := OneSuite(texts, st, top.suite, top.depth);
      if step.Failure? { return Failure(step.error); }
      st := step.value;
      var children := ReverseOf(Children(top.suite), top.depth + 1);
      stack := stack + children;
    }
    if st.nodes == {} && st.skipped == {} { return Failure(EmptySelection); }
    var nodes := SortNodes(st.nodes);
    var skipped := SortNodes(st.skipped);
    var outcomes := SortOutcomes(st.outcomes);
    r := Success(Execution(nodes, skipped, outcomes));
    ReportExactly(texts, suites, r.value);
  }

  lemma StartTracks(texts: Texts, suites: seq<Json>)
    ensures
      var t := TallyOf(texts, suites, 1);
      var r := WalkForest(texts, START, suites, 1);
      && (r.Success? <==> t.Some? && Within(t.value))
      && (r.Success? ==>
            && r.value == StateOf(t.value) && r.value.outcomes == OutcomesOf(t.value.leaves)
            && (t.value.leaves == [] <==> r.value.nodes == {} && r.value.skipped == {}))
  {
    hide WalkForest, TallyOf;
    var none := Tally(0, []);
    assert StateOf(none) == START;
    ForestTracks(texts, none, suites, 1);
    var t := TallyOf(texts, suites, 1);
    if t.Some? {
      assert Plus(none, t.value) == t.value;
      if t.value.leaves != [] {
        var l := t.value.leaves[0];
        assert l in t.value.leaves;
        assert l.node in StateOf(t.value).nodes || l.node in StateOf(t.value).skipped;
      }
    }
  }

  // ---- What the report says -----------------------------------------------------------------

  /**
   * The reported nodes account for every test once: selected and skipped ones are disjoint,
   * together as many as the tests, and every outcome belongs to a selected node.
   */
  lemma ReportAccounts(texts: Texts, suites: seq<Json>, x: Execution)
    requires
      var t := TallyOf(texts, suites, 1);
      t.Some? && Within(t.value) && Reports(x, t.value)
    ensures
      var leaves := TallyOf(texts, suites, 1).value.leaves;
      && (forall l <- leaves :: (l.node in x.nodes <==> !l.skipped) && (l.node in x.skipped <==> l.skipped))
      && |x.nodes| + |x.skipped| == |leaves|
      && (forall n <- x.nodes :: n !in x.skipped)
      && forall o <- x.outcomes :: exists n :: n in x.nodes && NodeId(n) == o.nodeId
  {
    var t := TallyOf(texts, suites, 1).value;
    hide TallyOf;
    var st := StateOf(t);
    assert forall n :: n in x.nodes <==> n in multiset(x.nodes);
    assert forall n :: n in x.skipped <==> n in multiset(x.skipped);
    assert forall o :: o in x.outcomes <==> o in multiset(x.outcomes);
    NodesOnce(t);
    assert |x.nodes| == |multiset(x.nodes)| == |st.nodes| && |x.skipped| == |multiset(x.skipped)| == |st.skipped|;
    OutcomesSelected(t.leaves);
    forall o | o in x.outcomes ensures exists n :: n in x.nodes && NodeId(n) == o.nodeId {
      assert o in OutcomesOf(t.leaves);
      var l :| l in t.leaves && !l.skipped && NodeId(l.node) == o.nodeId;
      assert l.node in st.nodes;
    }
  }

  lemma {:induction false} OutcomesSelected(leaves: seq<Leaf>)
    requires forall l <- leaves :: LeafOk(l)
    ensures forall o <- OutcomesOf(leaves) :: exists l :: l in leaves && !l.skipped && NodeId(l.node) == o.nodeId
  {
    if leaves != [] {
      var before, last := leaves[..|leaves| - 1], leaves[|leaves| - 1];
      OutcomesSelected(before);
      assert last in leaves && LeafOk(last);
      forall o | o in OutcomesOf(leaves) ensures exists l :: l in leaves && !l.skipped && NodeId(l.node) == o.nodeId {
        if o in OutcomesOf(before) {
          var l :| l in before && !l.skipped && NodeId(l.node) == o.nodeId;
          assert l in leaves;
        } else {
          assert last.outcome == Some(o);
        }
      }
    }
  }

  lemma {:induction false} NodesOnce(t: Tally)
    requires DistinctNodes(t.leaves)
    ensures StateOf(t).nodes !! StateOf(t).skipped
    ensures |StateOf(t).nodes| + |StateOf(t).skipped| == |t.leaves|
    decreases |t.leaves|
  {
    if t.leaves == [] {
      assert StateOf(t).nodes == {} && StateOf(t).skipped == {};
    } else {
      var n := |t.leaves| - 1;
      var before, last := Tally(t.suites, t.leaves[..n]), t.leaves[n];
      NodesOnce(before);
      assert Plus(before, Tally(0, [last])) == t;
      OneMore(before, last);
    }
  }

  lemma OneMore(t: Tally, l: Leaf)
    requires DistinctNodes(t.leaves + [l])
    requires StateOf(t).nodes !! StateOf(t).skipped
    ensures
      var st := StateOf(Plus(t, Tally(0, [l])));
      && st.nodes !! st.skipped
      && |st.nodes| + |st.skipped| == |StateOf(t).nodes| + |StateOf(t).skipped| + 1
  {
    LeafState(t, l);
    FreshNode(t, l);
    hide StateOf;
    var st := StateOf(Plus(t, Tally(0, [l])));
    assert !l.skipped ==> st.skipped == StateOf(t).skipped;
    assert l.skipped ==> st.nodes == StateOf(t).nodes;
  }

  lemma FreshNode(t: Tally, l: Leaf)
    requires DistinctNodes(t.leaves + [l])
    ensures l.node !in StateOf(t).nodes && l.node !in StateOf(t).skipped
  {
    var all := t.leaves + [l];
    forall x | x in t.leaves ensures x.node != l.node {
      var i :| 0 <= i < |t.leaves| && t.leaves[i] == x;
      assert all[i].node != all[|t.leaves|].node;
    }
  }

  lemma ReportLeaves(t: Tally, x: Execution, n: Node, o: Outcome)
    requires Reports(x, t)
    ensures n in x.nodes <==> exists l :: l in t.leaves && l.node == n && l.skipped == false
    ensures n in x.skipped <==> exists l :: l in t.leaves && l.node == n && l.skipped == true
    ensures o in x.outcomes <==> exists l :: l in t.leaves && l.outcome == Some(o)
  {
    OutcomesAre(t.leaves, o);
    assert n in x.nodes <==> n in multiset(x.nodes);
    assert n in x.skipped <==> n in multiset(x.skipped);
    assert o in x.outcomes <==> o in multiset(x.outcomes);
    hide Sorted;
  }

  lemma ReportsOne(texts: Texts, suites: seq<Json>, t: Tally, x: Execution, n: Node, o: Outcome)
    requires Reports(x, t) && Each(texts, Places(suites), t.leaves)
    ensures n in x.nodes <==> Holds(texts, suites, n, false)
    ensures n in x.skipped <==> Holds(texts, suites, n, true)
    ensures o in x.outcomes <==> Fails(texts, suites, o)
  {
    hide *;
    LeavesHold(texts, suites, t.leaves, n, o);
    ReportLeaves(t, x, n, o);
  }

  lemma TestsCounted(texts: Texts, suites: seq<Json>, x: Execution)
    requires
      var t := TallyOf(texts, suites, 1);
      t.Some? && Within(t.value) && Reports(x, t.value)
    ensures Each(texts, Places(suites), TallyOf(texts, suites, 1).value.leaves)
    ensures |x.nodes| + |x.skipped| == |Places(suites)|
  {
    hide TallyOf, Places, Gives, Reports, Within, Accepted;
    AcceptedExactly(texts, suites);
    ReportAccounts(texts, suites, x);
  }

  /** The report lists the tests of the receipt and no others. */
  lemma ReportExactly(texts: Texts, suites: seq<Json>, x: Execution)
    requires
      var t := TallyOf(texts, suites, 1);
      t.Some? && Within(t.value) && Reports(x, t.value)
    ensures ReportsTests(texts, x, suites)
  {
    hide TallyOf, Holds, Fails, Places, Each, Reports, Within;
    TestsCounted(texts, suites, x);
    var t := TallyOf(texts, suites, 1).value;
    forall n ensures n in x.nodes <==> Holds(texts, suites, n, false) {
      ReportsOne(texts, suites, t, x, n, Outcome("", "", ""));
    }
    forall n ensures n in x.skipped <==> Holds(texts, suites, n, true) {
      ReportsOne(texts, suites, t, x, n, Outcome("", "", ""));
    }
    forall o ensures o in x.outcomes <==> Fails(texts, suites, o) {
      ReportsOne(texts, suites, t, x, Node("", "", ""), o);
    }
  }
}
