/**
 * The rules of a receipt in its own fields: which tests it holds, when each is well formed, and
 * what it then contributes.  Nothing here refers to the walk; the lemmas tie the walk to it.
 */
module PlaywrightRules {
  import opened Wrappers
  import opened CanonicalJson
  import opened PlaywrightReceipt
  import opened PlaywrightWalk

  // ---- Fields ---------------------------------------------------------------------------

  function Items(v: Json, key: string): (r: seq<Json>)
    ensures r != [] ==> v.Obj? && key in v.members && v.members[key] == Arr(r)
  {
    if v.Obj? && key in v.members && v.members[key].Arr? then v.members[key].items else []
  }

  function Written(v: Json, key: string): Option<string> {
    if v.Obj? && key in v.members && v.members[key].Str? then Some(v.members[key].text) else None
  }

  /** An optional string is missing, null, or a text of at most 4096 characters. */
  predicate Fine(v: Json, key: string) {
    v.Obj? && (key in v.members ==> v.members[key].Null? || (v.members[key].Str? && |v.members[key].text| <= 4096))
  }

  predicate FineList(v: Json, key: string) { v.Obj? && (key in v.members ==> v.members[key].Arr?) }

  predicate Present(s: Option<string>) { s.Some? && s.value != "" }

  // ---- Which tests a receipt holds ------------------------------------------------------

  /** A test, the spec around it, and the file that spec is in (empty when none is written). */
  datatype Place = Place(spec: Json, file: string, test: Json)

  function FileOf(spec: Json, suite: Json): string {
    if Present(Written(spec, "file")) then Written(spec, "file").value
    else if Present(Written(suite, "file")) then Written(suite, "file").value
    else ""
  }

  function PlacesInSpec(suite: Json, spec: Json): seq<Place> {
    var tests := Items(spec, "tests");
    seq(|tests|, i requires 0 <= i < |tests| => Place(spec, FileOf(spec, suite), tests[i]))
  }

  function PlacesInSpecs(suite: Json, specs: seq<Json>): seq<Place> {
    if specs == [] then [] else PlacesInSpecs(suite, specs[..|specs| - 1]) + PlacesInSpec(suite, specs[|specs| - 1])
  }

  /** Every test below a list of suites, each once. */
  function Places(suites: seq<Json>): seq<Place>
    decreases suites
  {
    if suites == [] then []
    else
      var suite := suites[0];
      var children := Items(suite, "suites");
      assert children == [] ==> children == suites[|suites|..];
      PlacesInSpecs(suite, Items(suite, "specs")) + Places(children) + Places(suites[1..])
  }

  function SuiteCount(suites: seq<Json>): nat
    decreases suites
  {
    if suites == [] then 0
    else
      var children := Items(suites[0], "suites");
      assert children == [] ==> children == suites[|suites|..];
      1 + SuiteCount(children) + SuiteCount(suites[1..])
  }

  predicate SpecShaped(spec: Json) { Fine(spec, "file") && FineList(spec, "tests") }

  predicate SuiteShaped(suite: Json) {
    && Fine(suite, "file") && FineList(suite, "specs") && FineList(suite, "suites")
    && forall spec <- Items(suite, "specs") :: SpecShaped(spec)
  }

  /** Suites and specs are objects with lists where lists belong, down to the 32nd level. */
  predicate Shaped(suites: seq<Json>, depth: nat)
    decreases suites
  {
    suites != [] ==>
      var children := Items(suites[0], "suites");
      assert children == [] ==> children == suites[|suites|..];
      depth <= 32 && SuiteShaped(suites[0]) && Shaped(children, depth + 1) && Shaped(suites[1..], depth)
  }

  // ---- One test -------------------------------------------------------------------------

  predicate Known(status: Option<string>) {
    || status == Some("passed") || status == Some("failed") || status == Some("timedOut")
    || status == Some("skipped") || status == Some("interrupted")
  }

  function Expected(p: Place): Option<string> { Written(p.test, "expectedStatus") }

  function Results(p: Place): seq<Json> { Items(p.test, "results") }

  /** What the only result of a test says under a key. */
  function Says(p: Place, key: string): Option<string> {
    if Results(p) == [] then None else Written(Results(p)[0], key)
  }

  /** The statuses are known ones, and a test expected to be skipped did not run. */
  predicate StatusesFine(p: Place) {
    && Fine(p.test, "expectedStatus") && Known(Expected(p)) && FineList(p.test, "results") && |Results(p)| <= 1
    && (Results(p) != [] ==> Fine(Results(p)[0], "status") && Known(Says(p, "status")))
    && (Expected(p) == Some("skipped") ==> Says(p, "status") == None || Says(p, "status") == Some("skipped"))
  }

  /** The test's own project, or else its result's; the file's path; the test's own title, or else the spec's. */
  predicate Names(texts: Texts, p: Place, n: Node) {
    var own, reported := Written(p.test, "projectName"), Says(p, "projectName");
    var title := if Present(Written(p.test, "title")) then Written(p.test, "title") else Written(p.spec, "title");
    && Fine(p.test, "projectName") && (Results(p) != [] ==> Fine(Results(p)[0], "projectName"))
    && (Present(own) && Present(reported) ==> own == reported)
    && Some(n.project) == (if Present(own) then own else reported)
    && p.file != "" && n.spec == texts.path(p.file)
    && Fine(p.test, "title") && (Present(Written(p.test, "title")) || Fine(p.spec, "title"))
    && title.Some? && n.title == texts.strip(title.value) && 1 <= |n.title| <= 1024
    && |n.project + "::" + n.spec + "::" + n.title| <= 2048
  }

  predicate Skipped(p: Place) { Expected(p) == Some("skipped") || Says(p, "status") == Some("skipped") }

  /** The test reports a failure that was not expected. */
  predicate FailsUnexpectedly(p: Place) {
    var status := Says(p, "status");
    && !Skipped(p) && (status == Some("failed") || status == Some("timedOut") || status == Some("interrupted"))
    && status != Expected(p)
  }

  predicate Judges(texts: Texts, p: Place, n: Node, outcome: Option<Outcome>) {
    if FailsUnexpectedly(p) then
      match texts.detail(Results(p)[0], n.spec)
      case None => false
      case Some(detail) =>
        outcome == Some(Outcome(n.project + "::" + n.spec + "::" + n.title, Says(p, "status").value, detail))
    else outcome == None
  }

  /** The test at `p` is well formed and amounts to `l`. */
  predicate Gives(texts: Texts, p: Place, l: Leaf) {
    && StatusesFine(p) && Names(texts, p, l.node) && Judges(texts, p, l.node, l.outcome)
    && l.skipped == Skipped(p) && l.results == |Results(p)|
  }

  ghost predicate Readable(texts: Texts, p: Place) { exists l :: Gives(texts, p, l) }

  lemma FieldExactly(m: Fields, key: string)
    ensures StringField(m, key).Success? <==> Fine(Obj(m), key)
    ensures StringField(m, key).Success? ==> StringField(m, key).value == Written(Obj(m), key)
    ensures ListField(m, key).Success? <==> FineList(Obj(m), key)
    ensures ListField(m, key).Success? ==> ListField(m, key).value == Items(Obj(m), key)
  {
  }

  lemma HeadExactly(p: Place)
    requires p.test.Obj?
    ensures
      var head := ReadHead(p.test.members);
      && (head.Success? && ReadResult(head.value.results).Success? <==>
            && Fine(p.test, "expectedStatus") && Known(Expected(p)) && FineList(p.test, "results") && |Results(p)| <= 1
            && (Results(p) != [] ==> Fine(Results(p)[0], "status") && Known(Says(p, "status"))))
      && (head.Success? ==> head.value == Head(Expected(p).value, Results(p)))
      && (head.Success? && ReadResult(head.value.results).Success? ==>
            ReadResult(Results(p)).value ==
            if Results(p) == [] then None else Some((Results(p)[0].members, Says(p, "status").value)))
  {
    FieldExactly(p.test.members, "expectedStatus");
    FieldExactly(p.test.members, "results");
    if Results(p) != [] && Results(p)[0].Obj? { FieldExactly(Results(p)[0].members, "status"); }
    hide Written, Fine, FineList, StringField, ListField;
  }

  function PathOf(texts: Texts, p: Place): Option<string> { if p.file == "" then None else Some(texts.path(p.file)) }

  lemma NodeExactly(texts: Texts, p: Place)
    requires p.spec.Obj? && p.test.Obj? && (Results(p) != [] ==> Results(p)[0].Obj?)
    ensures
      var result := if Results(p) == [] then None else Some(Results(p)[0].members);
      var r := ReadNode(texts, p.spec.members, PathOf(texts, p), p.test.members, result);
      && (r.Success? ==> Names(texts, p, r.value))
      && forall n | Names(texts, p, n) :: r == Success(n)
  {
    FieldExactly(p.test.members, "projectName");
    FieldExactly(p.test.members, "title");
    FieldExactly(p.spec.members, "title");
    if Results(p) != [] { FieldExactly(Results(p)[0].members, "projectName"); }
    hide Written, Fine, FineList, StringField, ListField;
  }

  lemma JudgedLeafExactly(texts: Texts, p: Place, l: Leaf)
    requires p.spec.Obj? && p.test.Obj? && StatusesFine(p)
    ensures Gives(texts, p, l) <==> LeafOf(texts, p.spec.members, PathOf(texts, p), p.test) == Some(l)
  {
    assert Results(p) != [] ==> Results(p)[0].Obj?;
    hide Names, ReadNode, StringField, ListField, Written, Fine, FineList, Items, Known, ReadHead, ReadResult, PathOf;
    HeadExactly(p);
    NodeExactly(texts, p);
  }

  lemma NoLeaf(texts: Texts, p: Place)
    requires p.spec.Obj? && !(p.test.Obj? && StatusesFine(p))
    ensures LeafOf(texts, p.spec.members, PathOf(texts, p), p.test) == None
  {
    hide ReadNode, StringField, ListField, Written, Fine, FineList, Items, Known, ReadHead, ReadResult, PathOf;
    if p.test.Obj? { HeadExactly(p); }
  }

  /** A test is read exactly when it is well formed, and then as what it amounts to. */
  lemma LeafExactly(texts: Texts, p: Place)
    requires p.spec.Obj?
    ensures
      var r := LeafOf(texts, p.spec.members, PathOf(texts, p), p.test);
      && (r.Some? <==> Readable(texts, p))
      && forall l :: Gives(texts, p, l) <==> r == Some(l)
  {
    hide LeafOf, PathOf, Names, Judges;
    forall l ensures Gives(texts, p, l) <==> LeafOf(texts, p.spec.members, PathOf(texts, p), p.test) == Some(l) {
      if p.test.Obj? && StatusesFine(p) { JudgedLeafExactly(texts, p, l); } else { NoLeaf(texts, p); }
    }
  }

  // ---- The whole receipt ----------------------------------------------------------------

  /** The tests at `places` amount to `leaves`, one by one. */
  ghost predicate Each(texts: Texts, places: seq<Place>, leaves: seq<Leaf>) {
    |places| == |leaves| && forall i | 0 <= i < |places| :: Gives(texts, places[i], leaves[i])
  }

  /** `r` is read exactly when the shapes are in order and every test is well formed. */
  ghost predicate Reads(texts: Texts, shaped: bool, places: seq<Place>, r: Option<seq<Leaf>>) {
    && (r.Some? <==> shaped && forall p <- places :: Readable(texts, p))
    && (r.Some? ==> Each(texts, places, r.value))
  }

  lemma ReadsBoth(texts: Texts, s: bool, p: seq<Place>, a: Option<seq<Leaf>>, t: bool, q: seq<Place>,
      b: Option<seq<Leaf>>)
    requires Reads(texts, s, p, a) && Reads(texts, t, q, b)
    ensures Reads(texts, s && t, p + q, if a.Some? && b.Some? then Some(a.value + b.value) else None)
  {
    hide Gives, Readable;
  }

  lemma TestReads(texts: Texts, p: Place)
    requires p.spec.Obj?
    ensures
      var r := LeafOf(texts, p.spec.members, PathOf(texts, p), p.test);
      Reads(texts, true, [p], if r.Some? then Some([r.value]) else None)
  {
    LeafExactly(texts, p);
    hide Gives, Readable, LeafOf;
  }

  lemma {:induction false} TestsRead(texts: Texts, spec: Json, file: string, path: Option<string>, tests: seq<Json>)
    requires spec.Obj? && path == PathOf(texts, Place(spec, file, Null))
    ensures Reads(texts, true, seq(|tests|, i requires 0 <= i < |tests| => Place(spec, file, tests[i])),
      LeavesOfTests(texts, spec.members, path, tests))
  {
    hide Reads, LeafOf;
    var places := seq(|tests|, i requires 0 <= i < |tests| => Place(spec, file, tests[i]));
    if tests == [] {
      assert Reads(texts, true, [], Some([])) by { ReadsNothing(texts); }
      assert places == [];
    } else {
      var before, last := tests[..|tests| - 1], tests[|tests| - 1];
      TestsRead(texts, spec, file, path, before);
      var p := Place(spec, file, last);
      assert PathOf(texts, p) == path;
      TestReads(texts, p);
      var some := LeafOf(texts, spec.members, path, last);
      var earlier := seq(|before|, i requires 0 <= i < |before| => Place(spec, file, before[i]));
      ReadsBoth(texts, true, earlier, LeavesOfTests(texts, spec.members, path, before), true, [p],
        if some.Some? then Some([some.value]) else None);
      assert places == earlier + [p];
    }
  }

  lemma ReadsNothing(texts: Texts)
    ensures Reads(texts, true, [], Some([]))
  {
  }

  lemma SpecReads(texts: Texts, suite: Json, spec: Json)
    requires suite.Obj? && Fine(suite, "file")
    ensures Reads(texts, SpecShaped(spec), PlacesInSpec(suite, spec),
      LeavesOfSpec(texts, Written(suite, "file"), spec))
  {
    hide Reads, LeavesOfTests;
    if spec.Obj? {
      FieldExactly(spec.members, "file");
      FieldExactly(spec.members, "tests");
      var file := FileOf(spec, suite);
      var path := PathOf(texts, Place(spec, file, Null));
      assert StringField(spec.members, "file").Success? ==>
        SpecPath(texts, spec.members, Written(suite, "file")) == Success(path);
      TestsRead(texts, spec, file, path, Items(spec, "tests"));
    }
    if !SpecShaped(spec) { Unshaped(texts, PlacesInSpec(suite, spec)); }
  }

  lemma Unshaped(texts: Texts, places: seq<Place>)
    ensures Reads(texts, false, places, None)
  {
  }

  lemma {:induction false} SpecsRead(texts: Texts, suite: Json, specs: seq<Json>)
    requires suite.Obj? && Fine(suite, "file")
    ensures Reads(texts, forall spec <- specs :: SpecShaped(spec), PlacesInSpecs(suite, specs),
      LeavesOfSpecs(texts, Written(suite, "file"), specs))
  {
    hide Reads, LeavesOfSpec, SpecShaped, PlacesInSpec, Fine, Written;
    if specs == [] {
      ReadsNothing(texts);
    } else {
      var before, last := specs[..|specs| - 1], specs[|specs| - 1];
      assert specs == before + [last];
      SpecsRead(texts, suite, before);
      SpecReads(texts, suite, last);
      ReadsBoth(texts, forall spec <- before :: SpecShaped(spec), PlacesInSpecs(suite, before),
        LeavesOfSpecs(texts, Written(suite, "file"), before), SpecShaped(last), PlacesInSpec(suite, last),
        LeavesOfSpec(texts, Written(suite, "file"), last));
    }
  }

  lemma SuiteReads(texts: Texts, suite: Json)
    ensures Reads(texts, SuiteShaped(suite), PlacesInSpecs(suite, Items(suite, "specs")), LeavesOfSuite(texts, suite))
  {
    hide Reads, LeavesOfSpecs, SpecShaped, PlacesInSpecs, StringField, ListField;
    if suite.Obj? {
      FieldExactly(suite.members, "file");
      FieldExactly(suite.members, "specs");
      FieldExactly(suite.members, "suites");
      hide Fine, FineList, Written, Items;
      if Fine(suite, "file") { SpecsRead(texts, suite, Items(suite, "specs")); }
    }
    if !SuiteShaped(suite) { Unshaped(texts, PlacesInSpecs(suite, Items(suite, "specs"))); }
  }

  function LeavesOf(t: Option<Tally>): Option<seq<Leaf>> {
    match t case None => None case Some(t) => Some(t.leaves)
  }

  /** A receipt is read exactly when it is shaped and every test in it is well formed, each test once. */
  lemma {:induction false} TallyExactly(texts: Texts, suites: seq<Json>, depth: nat)
    ensures Reads(texts, Shaped(suites, depth), Places(suites), LeavesOf(TallyOf(texts, suites, depth)))
    ensures TallyOf(texts, suites, depth).Some? ==> TallyOf(texts, suites, depth).value.suites == SuiteCount(suites)
    decreases suites
  {
    hide Reads, LeavesOfSuite, SuiteShaped, PlacesInSpecs;
    if suites == [] {
      ReadsNothing(texts);
    } else if depth > 32 {
      Unshaped(texts, Places(suites));
    } else {
      var suite := suites[0];
      var children := Items(suite, "suites");
      assert children == [] ==> children == suites[|suites|..];
      assert Children(suite) == children;
      SuiteReads(texts, suite);
      TallyExactly(texts, children, depth + 1);
      TallyExactly(texts, suites[1..], depth);
      var own := PlacesInSpecs(suite, Items(suite, "specs"));
      var a, b := LeavesOfSuite(texts, suite), LeavesOf(TallyOf(texts, children, depth + 1));
      ReadsBoth(texts, SuiteShaped(suite), own, a, Shaped(children, depth + 1), Places(children), b);
      ReadsBoth(texts, SuiteShaped(suite) && Shaped(children, depth + 1), own + Places(children),
        if a.Some? && b.Some? then Some(a.value + b.value) else None, Shaped(suites[1..], depth), Places(suites[1..]),
        LeavesOf(TallyOf(texts, suites[1..], depth)));
    }
  }

  // ---- Acceptance and report ------------------------------------------------------------

  /** The rules on the tests of a receipt together. */
  predicate Limits(leaves: seq<Leaf>) {
    && 1 <= |leaves| <= 1024 && TotalResults(leaves) <= 512 && |OutcomesOf(leaves)| <= 16
    && forall i, j | 0 <= i < j < |leaves| :: leaves[i].node != leaves[j].node
  }

  /** A receipt is accepted when its shapes, its tests and its limits are in order. */
  ghost predicate Accepted(texts: Texts, suites: seq<Json>) {
    && Shaped(suites, 1) && SuiteCount(suites) <= 1024
    && exists leaves :: Each(texts, Places(suites), leaves) && Limits(leaves)
  }

  lemma GivesOnce(texts: Texts, p: Place, l: Leaf, m: Leaf)
    requires Gives(texts, p, l) && Gives(texts, p, m)
    ensures l == m
  {
    assert l.node == m.node by { hide StatusesFine, Judges; }
    hide Names, StatusesFine;
  }

  lemma EachOnce(texts: Texts, places: seq<Place>, a: seq<Leaf>, b: seq<Leaf>)
    requires Each(texts, places, a) && Each(texts, places, b)
    ensures a == b
  {
    hide Gives;
    forall i | 0 <= i < |places| ensures a[i] == b[i] {
      GivesOnce(texts, places[i], a[i], b[i]);
    }
  }

  lemma AcceptedExactly(texts: Texts, suites: seq<Json>)
    ensures
      var t := TallyOf(texts, suites, 1);
      && (Accepted(texts, suites) <==> t.Some? && Within(t.value) && t.value.leaves != [])
      && (t.Some? ==> Each(texts, Places(suites), t.value.leaves))
  {
    hide Shaped, Places, TallyOf, Each, Readable, SuiteCount, TotalResults, OutcomesOf;
    TallyExactly(texts, suites, 1);
    var t := TallyOf(texts, suites, 1);
    if Accepted(texts, suites) {
      var leaves :| Each(texts, Places(suites), leaves) && Limits(leaves);
      EachReadable(texts, Places(suites), leaves);
      EachOnce(texts, Places(suites), leaves, t.value.leaves);
    }
  }

  lemma EachReadable(texts: Texts, places: seq<Place>, leaves: seq<Leaf>)
    requires Each(texts, places, leaves)
    ensures forall p <- places :: Readable(texts, p)
  {
    hide Gives;
  }

  /** `n` is the node of a test that is, or is not, skipped. */
  ghost predicate Holds(texts: Texts, suites: seq<Json>, n: Node, skipped: bool) {
    exists p :: p in Places(suites) && Names(texts, p, n) && Skipped(p) == skipped
  }

  /** `o` is the outcome of a test that failed unexpectedly. */
  ghost predicate Fails(texts: Texts, suites: seq<Json>, o: Outcome) {
    exists p, n :: p in Places(suites) && Names(texts, p, n) && FailsUnexpectedly(p) && Judges(texts, p, n, Some(o))
  }

  lemma LeafHeld(texts: Texts, p: Place, l: Leaf, n: Node, o: Outcome)
    requires Gives(texts, p, l)
    ensures Names(texts, p, n) <==> l.node == n
    ensures l.skipped == Skipped(p)
    ensures FailsUnexpectedly(p) && Judges(texts, p, l.node, Some(o)) <==> l.outcome == Some(o)
  {
    assert Names(texts, p, n) ==> l.node == n by { hide StatusesFine, Judges; }
    hide Names, StatusesFine;
  }

  /** The nodes and outcomes of the leaves are those of the tests. */
  lemma LeavesHold(texts: Texts, suites: seq<Json>, leaves: seq<Leaf>, n: Node, o: Outcome)
    requires Each(texts, Places(suites), leaves)
    ensures forall skipped :: Holds(texts, suites, n, skipped) <==>
      exists l :: l in leaves && l.node == n && l.skipped == skipped
    ensures Fails(texts, suites, o) <==> exists l :: l in leaves && l.outcome == Some(o)
  {
    hide Places, Gives, Names, Judges, FailsUnexpectedly, Skipped;
    var places := Places(suites);
    forall i | 0 <= i < |places|
      ensures Names(texts, places[i], n) <==> leaves[i].node == n
      ensures leaves[i].skipped == Skipped(places[i])
      ensures Names(texts, places[i], leaves[i].node)
      ensures FailsUnexpectedly(places[i]) && Judges(texts, places[i], leaves[i].node, Some(o)) <==>
        leaves[i].outcome == Some(o)
      ensures forall m :: Names(texts, places[i], m) ==> m == leaves[i].node
    {
      LeafHeld(texts, places[i], leaves[i], n, o);
      LeafHeld(texts, places[i], leaves[i], leaves[i].node, o);
      forall m ensures Names(texts, places[i], m) ==> m == leaves[i].node {
        LeafHeld(texts, places[i], leaves[i], m, o);
      }
    }
    forall skipped
      ensures Holds(texts, suites, n, skipped) <==> exists l :: l in leaves && l.node == n && l.skipped == skipped
    {
      if Holds(texts, suites, n, skipped) {
        var p :| p in places && Names(texts, p, n) && Skipped(p) == skipped;
        var i :| 0 <= i < |places| && places[i] == p;
        assert leaves[i] in leaves;
      }
      if l :| l in leaves && l.node == n && l.skipped == skipped {
        var i :| 0 <= i < |leaves| && leaves[i] == l;
        assert places[i] in places;
      }
    }
    if Fails(texts, suites, o) {
      var p, m :| p in places && Names(texts, p, m) && FailsUnexpectedly(p) && Judges(texts, p, m, Some(o));
      var i :| 0 <= i < |places| && places[i] == p;
      assert leaves[i] in leaves;
    }
    if l :| l in leaves && l.outcome == Some(o) {
      var i :| 0 <= i < |leaves| && leaves[i] == l;
      assert places[i] in places;
    }
  }

  lemma {:induction false} OutcomesAre(leaves: seq<Leaf>, o: Outcome)
    ensures o in OutcomesOf(leaves) <==> exists l :: l in leaves && l.outcome == Some(o)
  {
    if leaves != [] {
      var before, last := leaves[..|leaves| - 1], leaves[|leaves| - 1];
      assert leaves == before + [last];
      OutcomesAre(before, o);
    }
  }
}
