/** Reading the suites of a Playwright JSON receipt: what each suite, spec and test contributes. */
module PlaywrightReceipt {
  import opened Wrappers
  import opened CanonicalJson

  datatype Node = Node(project: string, spec: string, title: string)

  /** A failed test; `detail` stands for its location, network codes and failure phase. */
  datatype Outcome = Outcome(nodeId: string, status: string, detail: string)

  datatype ReceiptError =
    | SuiteDepthLimit | InvalidShape | SuiteLimit | NodeLimit | MissingStatus | InvalidStatus
    | ResultLimit | AmbiguousResults | AmbiguousResult | ContradictoryStatus | StringTooLong
    | TitleTooLong | NodeIdTooLong | DuplicateNode | InvalidFailurePhase | OutcomeLimit | EmptySelection

  /**
   * Library functions that this model leaves abstract: stripping white space, normalising a
   * spec's path, and the diagnostic detail of a failed result (`None` when its phase is invalid).
   */
  datatype Texts = Texts(strip: string -> string, path: string -> string, detail: (Json, string) -> Option<string>)

  const MAX_DEPTH := 32
  const MAX_SUITES := 1024
  const MAX_NODES := 1024
  const MAX_RESULTS := 512
  const MAX_STRING := 4096
  const MAX_TITLE := 1024
  const MAX_NODE_ID := 2048
  const MAX_OUTCOMES := 16

  const STATUSES: set<string> := {"passed", "failed", "timedOut", "skipped", "interrupted"}
  const FAILURES: set<string> := {"failed", "timedOut", "interrupted"}

  function NodeId(n: Node): string { n.project + "::" + n.spec + "::" + n.title }

  // ---- Fields --------------------------------------------------------------------

  type Fields = map<string, Json>

  function StringField(m: Fields, key: string): Result<Option<string>, ReceiptError> {
    if key !in m || m[key].Null? then Success(None)
    else if !m[key].Str? then Failure(InvalidShape)
    else if |m[key].text| > MAX_STRING then Failure(StringTooLong)
    else Success(Some(m[key].text))
  }

  function ListField(m: Fields, key: string): Result<seq<Json>, ReceiptError> {
    if key !in m then Success([])
    else if m[key].Arr? then Success(m[key].items)
    else Failure(InvalidShape)
  }

  /** Python's truth value of an optional string. */
  predicate Truthy(s: Option<string>) { s.Some? && s.value != "" }

  /** Python's `a or b`. */
  function Or(a: Option<string>, b: Option<string>): Option<string> { if Truthy(a) then a else b }

  function LeafTitle(texts: Texts, spec: Fields, test: Fields): Result<Option<string>, ReceiptError> {
    match StringField(test, "title")
    case Failure(error) => Failure(error)
    case Success(own) =>
      var raw: Result<Option<string>, ReceiptError> := if Truthy(own) then Success(own) else StringField(spec, "title");
      match raw
      case Failure(error) => Failure(error)
      case Success(None) => Success(None)
      case Success(Some(raw)) =>
        var title := texts.strip(raw);
        if |title| > MAX_TITLE then Failure(TitleTooLong)
        else Success(if title == "" then None else Some(title))
  }

  function ProjectName(test: Fields, result: Option<Fields>): Result<Option<string>, ReceiptError> {
    var reported: Result<Option<string>, ReceiptError> :=
      match result case None => Success(None) case Some(r) => StringField(r, "projectName");
    match (StringField(test, "projectName"), reported)
    case (Failure(error), _) => Failure(error)
    case (_, Failure(error)) => Failure(error)
    case (Success(a), Success(b)) =>
      if Truthy(a) && Truthy(b) && a != b then Failure(AmbiguousResult) else Success(Or(a, b))
  }

  function SpecPath(texts: Texts, spec: Fields, suiteFile: Option<string>): Result<Option<string>, ReceiptError> {
    match StringField(spec, "file")
    case Failure(error) => Failure(error)
    case Success(own) =>
      var raw := Or(own, suiteFile);
      Success(if Truthy(raw) then Some(texts.path(raw.value)) else None)
  }

  // ---- One test --------------------------------------------------------------------

  /** What a well-formed test amounts to. */
  datatype Leaf = Leaf(node: Node, skipped: bool, outcome: Option<Outcome>, results: nat)

  /** A test's expected status and its results. */
  datatype Head = Head(expected: string, results: seq<Json>)

  function ReadHead(test: Fields): Result<Head, ReceiptError> {
    match StringField(test, "expectedStatus")
    case Failure(error) => Failure(error)
    case Success(None) => Failure(MissingStatus)
    case Success(Some(expected)) =>
      if expected !in STATUSES then Failure(InvalidStatus)
      else
        match ListField(test, "results")
        case Failure(error) => Failure(error)
        case Success(results) => Success(Head(expected, results))
  }

  /** The single result of a test, if it has one, and that result's status. */
  function ReadResult(results: seq<Json>): Result<Option<(Fields, string)>, ReceiptError> {
    if |results| > 1 then Failure(AmbiguousResults)
    else if results == [] then Success(None)
    else if !results[0].Obj? then Failure(InvalidShape)
    else
      match StringField(results[0].members, "status")
      case Failure(error) => Failure(error)
      case Success(None) => Failure(MissingStatus)
      case Success(Some(status)) =>
        if status !in STATUSES then Failure(InvalidStatus) else Success(Some((results[0].members, status)))
  }

  function ReadNode(texts: Texts, spec: Fields, path: Option<string>, test: Fields, result: Option<Fields>)
    : Result<Node, ReceiptError>
  {
    match ProjectName(test, result)
    case Failure(error) => Failure(error)
    case Success(project) =>
      match LeafTitle(texts, spec, test)
      case Failure(error) => Failure(error)
      case Success(title) =>
        if project.None? || path.None? || title.None? then Failure(InvalidShape)
        else
          var node := Node(project.value, path.value, title.value);
          if |NodeId(node)| > MAX_NODE_ID then Failure(NodeIdTooLong) else Success(node)
  }

  /** A test up to the point where its node is known: the node, whether it is skipped, and its result. */
  function ReadLeaf(texts: Texts, spec: Fields, path: Option<string>, test: Fields, head: Head)
    : Result<(Node, bool, Option<(Fields, string)>), ReceiptError>
  {
    match ReadResult(head.results)
    case Failure(error) => Failure(error)
    case Success(result) =>
      if head.expected == "skipped" && result.Some? && result.value.1 != "skipped" then Failure(ContradictoryStatus)
      else
        match ReadNode(texts, spec, path, test, match result case None => None case Some(r) => Some(r.0))
        case Failure(error) => Failure(error)
        case Success(node) =>
          Success((node, head.expected == "skipped" || (result.Some? && result.value.1 == "skipped"), result))
  }

  predicate IsUnexpected(expected: string, result: Option<(Fields, string)>) {
    result.Some? && result.value.1 in FAILURES && result.value.1 != expected
  }

  function ReadOutcome(texts: Texts, node: Node, expected: string, result: Option<(Fields, string)>)
    : Result<Option<Outcome>, ReceiptError>
  {
    if !IsUnexpected(expected, result) then Success(None)
    else
      match texts.detail(Obj(result.value.0), node.spec)
      case None => Failure(InvalidFailurePhase)
      case Some(detail) => Success(Some(Outcome(NodeId(node), result.value.1, detail)))
  }

  // ---- The walk as it accumulates -----------------------------------------------------

  datatype State = State(
    nodes: set<Node>, skipped: set<Node>, outcomes: seq<Outcome>, suites: nat, tests: nat, results: nat)

  const START: State := State({}, {}, [], 0, 0, 0)

  type Step = Result<State, ReceiptError>

  /** Enters a leaf whose node is known. */
  function Enter(texts: Texts, st: State, node: Node, skipped: bool, expected: string,
      result: Option<(Fields, string)>): (r: Step)
    ensures r.Success? ==> r.value.suites == st.suites
  {
    if node in st.nodes || node in st.skipped then Failure(DuplicateNode)
    else if skipped then Success(st.(skipped := st.skipped + {node}))
    else
      match ReadOutcome(texts, node, expected, result)
      case Failure(error) => Failure(error)
      case Success(None) => Success(st.(nodes := st.nodes + {node}))
      case Success(Some(outcome)) =>
        if |st.outcomes| + 1 > MAX_OUTCOMES then Failure(OutcomeLimit)
        else Success(st.(nodes := st.nodes + {node}, outcomes := st.outcomes + [outcome]))
  }

  function VisitTest(texts: Texts, st: State, spec: Fields, path: Option<string>, test: Json): (r: Step)
    ensures r.Success? ==> r.value.suites == st.suites
  {
    if !test.Obj? then Failure(InvalidShape)
    else if st.tests + 1 > MAX_NODES then Failure(NodeLimit)
    else
      match ReadHead(test.members)
      case Failure(error) => Failure(error)
      case Success(head) =>
        if st.results + |head.results| > MAX_RESULTS then Failure(ResultLimit)
        else
          match ReadLeaf(texts, spec, path, test.members, head)
          case Failure(error) => Failure(error)
          case Success((node, skipped, result)) =>
            Enter(texts, st.(tests := st.tests + 1, results := st.results + |head.results|), node, skipped,
              head.expected, result)
  }

  function VisitTests(texts: Texts, st: State, spec: Fields, path: Option<string>, tests: seq<Json>): (r: Step)
    ensures r.Success? ==> r.value.suites == st.suites
  {
    if tests == [] then Success(st)
    else
      match VisitTests(texts, st, spec, path, tests[..|tests| - 1])
      case Failure(error) => Failure(error)
      case Success(mid) => VisitTest(texts, mid, spec, path, tests[|tests| - 1])
  }

  function VisitSpec(texts: Texts, st: State, suiteFile: Option<string>, spec: Json): (r: Step)
    ensures r.Success? ==> r.value.suites == st.suites
  {
    if !spec.Obj? then Failure(InvalidShape)
    else
      match SpecPath(texts, spec.members, suiteFile)
      case Failure(error) => Failure(error)
      case Success(path) =>
        match ListField(spec.members, "tests")
        case Failure(error) => Failure(error)
        case Success(tests) => VisitTests(texts, st, spec.members, path, tests)
  }

  function VisitSpecs(texts: Texts, st: State, suiteFile: Option<string>, specs: seq<Json>): (r: Step)
    ensures r.Success? ==> r.value.suites == st.suites
  {
    if specs == [] then Success(st)
    else
      match VisitSpecs(texts, st, suiteFile, specs[..|specs| - 1])
      case Failure(error) => Failure(error)
      case Success(mid) => VisitSpec(texts, mid, suiteFile, specs[|specs| - 1])
  }

  /** The child suites of a suite. */
  function Children(suite: Json): seq<Json> {
    if suite.Obj? && "suites" in suite.members && suite.members["suites"].Arr? then suite.members["suites"].items
      else []
  }

  /** One suite without its children, whose list it leaves checked. */
  function VisitSuite(texts: Texts, st: State, suite: Json, depth: nat): (r: Step)
    ensures r.Success? ==> r.value.suites == st.suites + 1 <= MAX_SUITES
  {
    if depth > MAX_DEPTH then Failure(SuiteDepthLimit)
    else if !suite.Obj? then Failure(InvalidShape)
    else if st.suites + 1 > MAX_SUITES then Failure(SuiteLimit)
    else
      match StringField(suite.members, "file")
      case Failure(error) => Failure(error)
      case Success(file) =>
        match ListField(suite.members, "specs")
        case Failure(error) => Failure(error)
        case Success(specs) =>
          match VisitSpecs(texts, st.(suites := st.suites + 1), file, specs)
          case Failure(error) => Failure(error)
          case Success(after) =>
            match ListField(suite.members, "suites")
            case Failure(error) => Failure(error)
            case Success(_) => Success(after)
  }

  /** The recursive traversal: each suite, then its children one level deeper, then its right-hand neighbours. */
  function WalkForest(texts: Texts, st: State, suites: seq<Json>, depth: nat): Step
    decreases suites
  {
    if suites == [] then Success(st)
    else
      match VisitSuite(texts, st, suites[0], depth)
      case Failure(error) => Failure(error)
      case Success(mid) =>
        assert Children(suites[0]) == [] ==> Children(suites[0]) == suites[|suites|..];
        match WalkForest(texts, mid, Children(suites[0]), depth + 1)
        case Failure(error) => Failure(error)
        case Success(after) => WalkForest(texts, after, suites[1..], depth)
  }

  // ---- Sort keys -------------------------------------------------------------------------

  function NodeKey(n: Node): seq<string> { [n.project, n.spec, n.title] }

  function OutcomeKey(o: Outcome): seq<string> { [o.nodeId, o.status, o.detail] }
}
