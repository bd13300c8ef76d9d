/** Which rule a test breaks first: the error that a walk reports, in the receipt's own fields. */
module PlaywrightFaults {
  import opened Wrappers
  import opened CanonicalJson
  import opened PlaywrightReceipt
  import opened PlaywrightRules

  type Fault = Option<ReceiptError>

  function When(broken: bool, error: ReceiptError): Fault { if broken then Some(error) else None }

  /** The first of two faults. */
  function Then(a: Fault, b: Fault): Fault { if a.Some? then a else b }

  function FaultOf<T>(r: Result<T, ReceiptError>): Fault {
    match r case Failure(error) => Some(error) case Success(_) => None
  }

  // ---- The rules, in the order in which they are applied ----------------------------------

  /** An optional string that is something else, or too long. */
  function TextFault(v: Json, key: string): Fault {
    if !v.Obj? || key !in v.members || v.members[key].Null? then None
    else if v.members[key].Str? then When(|v.members[key].text| > 4096, StringTooLong)
    else Some(InvalidShape)
  }

  /** A status that is missing, or none of the five. */
  function StatusFault(v: Json, key: string): Fault {
    Then(TextFault(v, key),
      Then(When(Written(v, key) == None, MissingStatus), When(!Known(Written(v, key)), InvalidStatus)))
  }

  function HeadFault(p: Place): Fault {
    Then(StatusFault(p.test, "expectedStatus"), When(!FineList(p.test, "results"), InvalidShape))
  }

  function ResultFault(p: Place): Fault {
    if |Results(p)| > 1 then Some(AmbiguousResults)
    else if Results(p) == [] then None
    else if !Results(p)[0].Obj? then Some(InvalidShape)
    else StatusFault(Results(p)[0], "status")
  }

  /** A test that was expected to be skipped reports something else. */
  function SkipFault(p: Place): Fault {
    When(Expected(p) == Some("skipped") && Says(p, "status") != None && Says(p, "status") != Some("skipped"),
      ContradictoryStatus)
  }

  function Project(p: Place): Option<string> {
    if Present(Written(p.test, "projectName")) then Written(p.test, "projectName") else Says(p, "projectName")
  }

  function ProjectFault(p: Place): Fault {
    var own, reported := Written(p.test, "projectName"), Says(p, "projectName");
    Then(TextFault(p.test, "projectName"),
      Then(if Results(p) == [] then None else TextFault(Results(p)[0], "projectName"),
        When(Present(own) && Present(reported) && own != reported, AmbiguousResult)))
  }

  function Title(texts: Texts, p: Place): string {
    var title := if Present(Written(p.test, "title")) then Written(p.test, "title") else Written(p.spec, "title");
    if title == None then "" else texts.strip(title.value)
  }

  function TitleFault(texts: Texts, p: Place): Fault {
    Then(TextFault(p.test, "title"),
      Then(if Present(Written(p.test, "title")) then None else TextFault(p.spec, "title"),
        When(|Title(texts, p)| > 1024, TitleTooLong)))
  }

  /** A test without project, file or title, or with too long a name. */
  function NodeFault(texts: Texts, p: Place): Fault {
    Then(ProjectFault(p),
      Then(TitleFault(texts, p),
        Then(When(Project(p) == None || p.file == "" || Title(texts, p) == "", InvalidShape),
          When(Project(p).Some? && |Project(p).value + "::" + texts.path(p.file) + "::" + Title(texts, p)| > 2048,
            NodeIdTooLong))))
  }

  /** A name met before, or an unexpected failure that cannot be reported. */
  function EntryFault(texts: Texts, st: State, p: Place, n: Node): Fault {
    Then(When(n in st.nodes || n in st.skipped, DuplicateNode),
      if !FailsUnexpectedly(p) then None
      else Then(When(texts.detail(Results(p)[0], n.spec) == None, InvalidFailurePhase),
        When(|st.outcomes| >= 16, OutcomeLimit)))
  }

  function TestFault(texts: Texts, st: State, p: Place): Fault {
    Then(When(!p.test.Obj?, InvalidShape),
      Then(When(st.tests >= 1024, NodeLimit),
        Then(HeadFault(p),
          Then(When(st.results + |Results(p)| > 512, ResultLimit),
            Then(ResultFault(p),
              Then(SkipFault(p),
                Then(NodeFault(texts, p),
                  match Project(p)
                  case None => None
                  case Some(project) => EntryFault(texts, st, p,
                    Node(project, texts.path(p.file), Title(texts, p))))))))))
  }

  // ---- The walk reports the first fault ----------------------------------------------------

  lemma HeadFaultExactly(p: Place)
    requires p.test.Obj?
    ensures FaultOf(ReadHead(p.test.members)) == HeadFault(p)
  {
    FieldExactly(p.test.members, "results");
  }

  lemma ResultFaultExactly(p: Place)
    ensures FaultOf(ReadResult(Results(p))) == ResultFault(p)
  {
  }

  lemma ProjectFaultExactly(p: Place)
    requires p.test.Obj? && (Results(p) != [] ==> Results(p)[0].Obj?)
    ensures
      var r := ProjectName(p.test.members, if Results(p) == [] then None else Some(Results(p)[0].members));
      FaultOf(r) == ProjectFault(p) && (r.Success? ==> r.value == Project(p))
  {
    FieldExactly(p.test.members, "projectName");
    if Results(p) != [] { FieldExactly(Results(p)[0].members, "projectName"); }
  }

  lemma TitleFaultExactly(texts: Texts, p: Place)
    requires p.spec.Obj? && p.test.Obj?
    ensures
      var r := LeafTitle(texts, p.spec.members, p.test.members);
      FaultOf(r) == TitleFault(texts, p)
      && (r.Success? ==> r.value == if Title(texts, p) == "" then None else Some(Title(texts, p)))
  {
    FieldExactly(p.test.members, "title");
    FieldExactly(p.spec.members, "title");
  }

  lemma NodeFaultExactly(texts: Texts, p: Place)
    requires p.spec.Obj? && p.test.Obj? && (Results(p) != [] ==> Results(p)[0].Obj?)
    ensures
      var r := ReadNode(texts, p.spec.members, PathOf(texts, p), p.test.members,
        if Results(p) == [] then None else Some(Results(p)[0].members));
      FaultOf(r) == NodeFault(texts, p)
      && (r.Success? ==>
            Project(p).Some? && r.value == Node(Project(p).value, texts.path(p.file), Title(texts, p)))
  {
    ProjectFaultExactly(p);
    TitleFaultExactly(texts, p);
    hide ProjectFault, TitleFault, ProjectName, LeafTitle, Title, Project;
  }

  lemma EntryFaultExactly(texts: Texts, st: State, p: Place, n: Node, tests: nat, results: nat)
    requires StatusesFine(p) && p.test.Obj?
    ensures
      var result := if Results(p) == [] then None else Some((Results(p)[0].members, Says(p, "status").value));
      FaultOf(Enter(texts, st.(tests := tests, results := results), n, Skipped(p), Expected(p).value, result)) ==
        EntryFault(texts, st, p, n)
  {
    assert Results(p) != [] ==> Results(p)[0] == Obj(Results(p)[0].members);
    hide Written, Fine, FineList, Items;
  }

  lemma LeafFaultExactly(texts: Texts, p: Place)
    requires p.spec.Obj? && p.test.Obj? && ReadHead(p.test.members).Success?
    ensures
      var r := ReadLeaf(texts, p.spec.members, PathOf(texts, p), p.test.members, ReadHead(p.test.members).value);
      && FaultOf(r) == Then(ResultFault(p), Then(SkipFault(p), NodeFault(texts, p)))
      && (r.Success? ==>
            && StatusesFine(p) && Project(p).Some?
            && r.value == (
                 Node(Project(p).value, texts.path(p.file), Title(texts, p)), Skipped(p),
                 if Results(p) == [] then None else Some((Results(p)[0].members, Says(p, "status").value))))
  {
    assert ResultFault(p) == None && Results(p) != [] ==> Results(p)[0].Obj?;
    hide ResultFault, NodeFault, ReadHead, ReadResult, ReadNode, Known, Fine, FineList, Written, Items, Project, Title,
      PathOf;
    HeadExactly(p);
    ResultFaultExactly(p);
    if ResultFault(p) == None { NodeFaultExactly(texts, p); }
  }

  /** Reading a test fails exactly when it breaks a rule, with the error of the first one. */
  lemma TestFaultExactly(texts: Texts, st: State, p: Place)
    requires p.spec.Obj?
    ensures FaultOf(VisitTest(texts, st, p.spec.members, PathOf(texts, p), p.test)) == TestFault(texts, st, p)
  {
    hide HeadFault, ResultFault, NodeFault, SkipFault, ReadHead, ReadResult, ReadLeaf, Enter, EntryFault, Known, Fine,
      FineList, Written, Items, Project, Title, PathOf, StatusesFine;
    if p.test.Obj? {
      HeadFaultExactly(p);
      HeadExactly(p);
      if ReadHead(p.test.members).Success? {
        LeafFaultExactly(texts, p);
        if StatusesFine(p) && Project(p).Some? {
          EntryFaultExactly(texts, st, p, Node(Project(p).value, texts.path(p.file), Title(texts, p)), st.tests + 1,
            st.results + |Results(p)|);
        }
      }
    }
  }

  /** Reading a suite: its own shape and the limits first, then its specs, then the list of its children. */
  lemma SuiteFaultExactly(texts: Texts, st: State, suite: Json, depth: nat)
    ensures FaultOf(VisitSuite(texts, st, suite, depth)) ==
      Then(When(depth > 32, SuiteDepthLimit),
        Then(When(!suite.Obj?, InvalidShape),
          Then(When(st.suites >= 1024, SuiteLimit),
            Then(TextFault(suite, "file"),
              Then(When(!FineList(suite, "specs"), InvalidShape),
                Then(
                  FaultOf(VisitSpecs(texts, st.(suites := st.suites + 1), Written(suite, "file"),
                    Items(suite, "specs"))),
                  When(!FineList(suite, "suites"), InvalidShape)))))))
  {
    if suite.Obj? {
      FieldExactly(suite.members, "file");
      FieldExactly(suite.members, "specs");
      FieldExactly(suite.members, "suites");
    }
    hide VisitSpecs, FineList, Items, ListField;
  }

  /** Reading a spec: its own shape, then its tests with the path of its file. */
  lemma SpecFaultExactly(texts: Texts, st: State, suite: Json, spec: Json)
    ensures FaultOf(VisitSpec(texts, st, Written(suite, "file"), spec)) ==
      Then(When(!spec.Obj?, InvalidShape),
        Then(TextFault(spec, "file"),
          Then(When(!FineList(spec, "tests"), InvalidShape),
            if !spec.Obj? then None
            else
              FaultOf(VisitTests(texts, st, spec.members, PathOf(texts, Place(spec, FileOf(spec, suite), Null)),
                Items(spec, "tests"))))))
  {
    if spec.Obj? {
      FieldExactly(spec.members, "file");
      FieldExactly(spec.members, "tests");
    }
    hide VisitTests, FineList, Items, ListField;
  }
}
