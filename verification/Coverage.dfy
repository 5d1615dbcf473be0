/** Reconciling required CI cells with the producer's graph and its execution observations. */
module Coverage {
  import opened Common
  import opened Lists
  import MatrixJson

  /**
   * A matrix tuple by its canonical JSON, which tells validated tuples apart exactly
   * (`MatrixJson.CanonicalJsonExact`).
   */
  type Matrix = string

  const EMPTY_MATRIX: Matrix := "{}"

  datatype Scope = LocalLinux | GithubOnly
  datatype Provenance = ProducerGraph | ProducerExecution
  datatype GraphMatrix = NoMatrix | Exact(matrix: Matrix)
  datatype Outcome = Success | Failed | Skipped | Unsupported

  datatype Cell = Cell(id: string, workflow: string, job: string, runner: string, scope: Scope, matrix: Option<Matrix>)
  datatype Graph = Graph(workflow: string, job: string, runner: string, matrix: GraphMatrix, provenance: Provenance)
  datatype Observation = Observation(
    workflow: Option<string>, job: string, runner: Option<string>, matrix: Option<Matrix>,
    outcome: Outcome, provenance: Provenance)

  datatype Reason =
    | Covered | GithubOnlyCell | UnresolvedMatrix | Missing | Ambiguous | IncompleteIdentity
    | FailedCell | SkippedCell | UnsupportedCell

  datatype CellCoverage = CellCoverage(id: string, reason: Reason)
  datatype Report = Report(cells: seq<CellCoverage>, localComplete: bool, fullComplete: bool)
  datatype CoverageError = InventoryBound | RequiredIdentity | GraphIdentity | ExecutionIdentity | BadMatrix

  // -------------------------------------------------------------- identities

  predicate IdentifierChar(c: char) {
    'a' <= c <= 'z' || 'A' <= c <= 'Z' || '0' <= c <= '9' || c == '_' || c == '-' || c == '.'
  }

  predicate Identifier(s: string) {
    s != "" && Utf8Size(s) <= 128 && forall i :: 0 <= i < |s| ==> IdentifierChar(s[i])
  }

  predicate Identity(workflow: string, job: string, runner: string) {
    && workflow != "" && Utf8Size(workflow) <= 1024
    && '\\' !in workflow
    && (forall i :: 0 <= i < |workflow| ==> !MatrixJson.IsControl(workflow[i]))
    && (forall p :: p in Split(workflow) ==> p != "" && p != "." && p != "..")
    && Identifier(job) && Identifier(runner)
  }

  predicate ObservationIdentity(o: Observation) {
    && Identifier(o.job)
    && (o.workflow.Some? ==>
          Identity(o.workflow.value, o.job, if o.runner.Some? then o.runner.value else "unknown"))
    && (o.runner.Some? ==> Identifier(o.runner.value))
  }

  predicate DistinctIds(required: seq<Cell>) {
    forall i, j :: 0 <= i < j < |required| ==> required[i].id != required[j].id
  }

  predicate Admissible(required: seq<Cell>, graph: seq<Graph>, observed: seq<Observation>) {
    && 1 <= |required| <= 4096 && |graph| <= 4096 && |observed| <= 4096
    && (forall i :: 0 <= i < |required| ==>
                      Identifier(required[i].id) && Identity(required[i].workflow, required[i].job, required[i].runner))
    && DistinctIds(required)
    && (forall i :: 0 <= i < |graph| ==> Identity(graph[i].workflow, graph[i].job, graph[i].runner))
    && (forall i :: 0 <= i < |observed| ==> ObservationIdentity(observed[i]))
  }

  /** `sound` is what validation says of each matrix (`MatrixJson.Validate`). */
  predicate MatricesSound(required: seq<Cell>, graph: seq<Graph>, observed: seq<Observation>, sound: Matrix -> bool) {
    && (forall i :: 0 <= i < |required| && required[i].matrix.Some? ==> sound(required[i].matrix.value))
    && (forall i :: 0 <= i < |graph| && graph[i].matrix.Exact? ==> sound(graph[i].matrix.matrix))
    && (forall i :: 0 <= i < |observed| && observed[i].matrix.Some? ==> sound(observed[i].matrix.value))
  }

  /** What each refusal says of the inventories. */
  ghost predicate Blames(error: CoverageError, required: seq<Cell>, graph: seq<Graph>, observed: seq<Observation>, sound: Matrix -> bool) {
    match error
    case InventoryBound => required == [] || |required| > 4096 || |graph| > 4096 || |observed| > 4096
    case RequiredIdentity =>
      || !DistinctIds(required)
      || exists c :: c in required && !(Identifier(c.id) && Identity(c.workflow, c.job, c.runner))
    case GraphIdentity => exists g :: g in graph && !Identity(g.workflow, g.job, g.runner)
    case ExecutionIdentity => exists o :: o in observed && !ObservationIdentity(o)
    case BadMatrix => !MatricesSound(required, graph, observed, sound)
  }

  // ---------------------------------------------------------- the filters

  function SameJob(c: Cell): Graph -> bool {
    (g: Graph) => g.workflow == c.workflow && g.job == c.job && g.runner == c.runner
  }

  function Proves(c: Cell, m: Matrix): Graph -> bool {
    (g: Graph) => SameJob(c)(g) && match g.matrix case NoMatrix => m == EMPTY_MATRIX case Exact(x) => x == m
  }

  function HitBy(c: Cell, m: Matrix): Observation -> bool {
    (o: Observation) => o.workflow == Some(c.workflow) && o.job == c.job && o.runner == Some(c.runner) && o.matrix == Some(m)
  }

  function Claims(c: Cell, m: Matrix): Cell -> bool {
    (d: Cell) => d.workflow == c.workflow && d.job == c.job && d.runner == c.runner &&
         (d.matrix == Some(m) || (d.matrix.None? && m == EMPTY_MATRIX))
  }

  function Unidentified(c: Cell): Observation -> bool {
    (o: Observation) => o.job == c.job && (o.workflow.None? || o.runner.None?)
  }

  /** The matrix a cell stands for: its own, or the empty one the graph proves. */
  function Resolved(c: Cell, graph: seq<Graph>): Option<Matrix> {
    var proofs := Filter(graph, SameJob(c));
    if c.matrix.Some? then c.matrix
    else if |proofs| == 1 && proofs[0].provenance.ProducerGraph? && proofs[0].matrix.NoMatrix? then Some(EMPTY_MATRIX)
    else None
  }

  function OutcomeReason(o: Outcome): Reason {
    match o
    case Success => Covered
    case Failed => FailedCell
    case Skipped => SkippedCell
    case Unsupported => UnsupportedCell
  }

  /** The verdict on a resolved cell, from its claimants, its graph entries and its observations. */
  function Judge(claims: nat, exact: seq<Graph>, hits: seq<Observation>): Reason {
    if claims > 1 || |hits| > 1 || |exact| > 1 then Ambiguous
    else if !(|exact| == 1 && exact[0].provenance.ProducerGraph?) || hits == [] then Missing
    else if !hits[0].provenance.ProducerExecution? then IncompleteIdentity
    else OutcomeReason(hits[0].outcome)
  }

  function CellReason(c: Cell, required: seq<Cell>, graph: seq<Graph>, observed: seq<Observation>): Reason {
    if c.scope.GithubOnly? then GithubOnlyCell
    else
      match Resolved(c, graph)
      case None => UnresolvedMatrix
      case Some(m) =>
        if Filter(observed, Unidentified(c)) != [] then IncompleteIdentity
        else Judge(|Filter(required, Claims(c, m))|, Filter(graph, Proves(c, m)), Filter(observed, HitBy(c, m)))
  }

  /**
   * `reconcile_act_coverage`: each cell gets its reason, an outcome is reported exactly when the evidence
   * shows it, and the two flags say that every cell is covered, or covered wherever it can be run here.
   */
  method Reconcile(required: seq<Cell>, graph: seq<Graph>, observed: seq<Observation>, sound: Matrix -> bool)
    returns (r: Result<Report, CoverageError>)
    ensures r.Ok? <==> Admissible(required, graph, observed) && MatricesSound(required, graph, observed, sound)
    ensures r.Err? ==> Blames(r.error, required, graph, observed, sound)
    ensures r.Ok? ==>
              && |r.value.cells| == |required|
              && (forall i :: 0 <= i < |required| ==>
                    r.value.cells[i] == CellCoverage(required[i].id, CellReason(required[i], required, graph, observed)))
              && (forall i :: 0 <= i < |required| ==> OutcomesReported(r.value.cells[i].reason, required[i], required, graph, observed))
              && (r.value.fullComplete <==> forall c :: c in required ==> Shows(c, required, graph, observed, Success))
              && (r.value.localComplete <==>
                    forall c :: c in required ==> c.scope.GithubOnly? || Shows(c, required, graph, observed, Success))
  {
    var refusal := CheckInventories(required, graph, observed, sound);
    if refusal.Some? {
      return Err(refusal.value);
    }
    var cells := JudgeCells(required, graph, observed);
    var localComplete := forall i :: 0 <= i < |cells| ==> cells[i].reason in {Covered, GithubOnlyCell};
    var fullComplete := forall i :: 0 <= i < |cells| ==> cells[i].reason == Covered;
    CellsReported(required, graph, observed, cells);
    FlagsMean(required, graph, observed, cells);
    r := Ok(Report(cells, localComplete, fullComplete));
  }

  method CheckInventories(required: seq<Cell>, graph: seq<Graph>, observed: seq<Observation>, sound: Matrix -> bool)
    returns (p: Option<CoverageError>)
    ensures p.None? <==> Admissible(required, graph, observed) && MatricesSound(required, graph, observed, sound)
    ensures p.Some? ==> Blames(p.value, required, graph, observed, sound)
  {
    if required == [] || |required| > 4096 || |graph| > 4096 || |observed| > 4096 {
      return Some(InventoryBound);
    }
    var named := CheckRequired(required);
    if !named {
      return Some(RequiredIdentity);
    }
    if exists i :: 0 <= i < |graph| && !Identity(graph[i].workflow, graph[i].job, graph[i].runner) {
      return Some(GraphIdentity);
    }
    if exists i :: 0 <= i < |observed| && !ObservationIdentity(observed[i]) {
      return Some(ExecutionIdentity);
    }
    p := if MatricesSound(required, graph, observed, sound) then None else Some(BadMatrix);
  }

  /** Each outcome under its own name, exactly when the evidence shows it. */
  ghost predicate OutcomesReported(reason: Reason, c: Cell, required: seq<Cell>, graph: seq<Graph>, observed: seq<Observation>) {
    && (reason == Covered <==> Shows(c, required, graph, observed, Success))
    && (reason == FailedCell <==> Shows(c, required, graph, observed, Failed))
    && (reason == SkippedCell <==> Shows(c, required, graph, observed, Skipped))
    && (reason == UnsupportedCell <==> Shows(c, required, graph, observed, Unsupported))
  }

  lemma {:induction false} CellsReported(required: seq<Cell>, graph: seq<Graph>, observed: seq<Observation>, cells: seq<CellCoverage>)
    requires |cells| == |required|
    requires forall i :: 0 <= i < |cells| ==> cells[i].reason == CellReason(required[i], required, graph, observed)
    ensures forall i :: 0 <= i < |cells| ==> OutcomesReported(cells[i].reason, required[i], required, graph, observed)
  {
    forall i | 0 <= i < |cells| ensures OutcomesReported(cells[i].reason, required[i], required, graph, observed) {
      DecidedExact(required[i], required, graph, observed);
    }
  }

  lemma {:induction false} FlagsMean(required: seq<Cell>, graph: seq<Graph>, observed: seq<Observation>, cells: seq<CellCoverage>)
    requires |cells| == |required|
    requires forall i :: 0 <= i < |cells| ==> cells[i].reason == CellReason(required[i], required, graph, observed)
    ensures (forall i :: 0 <= i < |cells| ==> cells[i].reason == Covered) <==>
            forall c :: c in required ==> Shows(c, required, graph, observed, Success)
    ensures (forall i :: 0 <= i < |cells| ==> cells[i].reason in {Covered, GithubOnlyCell}) <==>
            forall c :: c in required ==> c.scope.GithubOnly? || Shows(c, required, graph, observed, Success)
  {
    forall i | 0 <= i < |cells|
      ensures cells[i].reason == Covered <==> Shows(required[i], required, graph, observed, Success)
      ensures cells[i].reason == GithubOnlyCell <==> required[i].scope.GithubOnly?
    {
      DecidedExact(required[i], required, graph, observed);
      UndecidedExact(required[i], required, graph, observed);
    }
    assert forall i :: 0 <= i < |required| ==> required[i] in required;
  }

  /** Every required cell is identified, and no two share an ID. */
  method CheckRequired(required: seq<Cell>) returns (ok: bool)
    ensures ok <==>
            && (forall i :: 0 <= i < |required| ==>
                              Identifier(required[i].id) && Identity(required[i].workflow, required[i].job, required[i].runner))
            && DistinctIds(required)
  {
    var ids: set<string> := {};
    for i := 0 to |required|
      invariant ids == set k | 0 <= k < i :: required[k].id
      invariant forall k :: 0 <= k < i ==>
                              Identifier(required[k].id) && Identity(required[k].workflow, required[k].job, required[k].runner)
      invariant DistinctIds(required[..i])
    {
      var c := required[i];
      if !Identifier(c.id) || c.id in ids || !Identity(c.workflow, c.job, c.runner) {
        if c.id in ids {
          var k :| 0 <= k < i && required[k].id == c.id;
          assert !DistinctIds(required);
        }
        return false;
      }
      ids := ids + {c.id};
      assert required[..i + 1] == required[..i] + [c];
    }
    assert required[..|required|] == required;
    ok := true;
  }

  method JudgeCells(required: seq<Cell>, graph: seq<Graph>, observed: seq<Observation>) returns (cells: seq<CellCoverage>)
    ensures |cells| == |required|
    ensures forall i :: 0 <= i < |required| ==>
                          cells[i] == CellCoverage(required[i].id, CellReason(required[i], required, graph, observed))
  {
    cells := [];
    for i := 0 to |required|
      invariant |cells| == i
      invariant forall k :: 0 <= k < i ==>
                              cells[k] == CellCoverage(required[k].id, CellReason(required[k], required, graph, observed))
    {
      cells := cells + [CellCoverage(required[i].id, CellReason(required[i], required, graph, observed))];
    }
  }

  // ------------------------------------------------- coverage is an injection

  /** The producer evidence behind one decided cell: one graph entry and one observation, no others. */
  ghost predicate Witnessed(c: Cell, m: Matrix, graph: seq<Graph>, observed: seq<Observation>, g: nat, o: nat) {
    && g < |graph| && o < |observed|
    && Proves(c, m)(graph[g]) && graph[g].provenance.ProducerGraph?
    && (forall k :: 0 <= k < |graph| && Proves(c, m)(graph[k]) ==> k == g)
    && HitBy(c, m)(observed[o]) && observed[o].provenance.ProducerExecution?
    && (forall k :: 0 <= k < |observed| && HitBy(c, m)(observed[k]) ==> k == o)
  }

  /** The same, and the execution succeeded. */
  ghost predicate Evidence(c: Cell, m: Matrix, graph: seq<Graph>, observed: seq<Observation>, g: nat, o: nat) {
    Witnessed(c, m, graph, observed, g, o) && observed[o].outcome.Success?
  }

  /** What a local cell needs to be decided by an outcome. */
  ghost predicate Decided(c: Cell, required: seq<Cell>, graph: seq<Graph>, observed: seq<Observation>, x: Outcome, m: Matrix, g: nat, o: nat) {
    && !c.scope.GithubOnly? && Resolved(c, graph) == Some(m)
    && Witnessed(c, m, graph, observed, g, o) && observed[o].outcome == x
    && (forall k :: 0 <= k < |observed| ==> !Unidentified(c)(observed[k]))
    && |Filter(required, Claims(c, m))| <= 1
  }

  lemma {:induction false} ReasonOfDecided(c: Cell, required: seq<Cell>, graph: seq<Graph>, observed: seq<Observation>, x: Outcome, m: Matrix, g: nat, o: nat)
    requires Decided(c, required, graph, observed, x, m, g, o)
    ensures CellReason(c, required, graph, observed) == OutcomeReason(x)
  {
    FilterNone(observed, Unidentified(c));
    FilterSole(graph, Proves(c, m), g);
    FilterSole(observed, HitBy(c, m), o);
  }

  lemma {:induction false} DecidedByReason(c: Cell, required: seq<Cell>, graph: seq<Graph>, observed: seq<Observation>, x: Outcome)
    returns (m: Matrix, g: nat, o: nat)
    requires CellReason(c, required, graph, observed) == OutcomeReason(x)
    ensures Decided(c, required, graph, observed, x, m, g, o)
  {
    m := Resolved(c, graph).value;
    g := FilterUnique(graph, Proves(c, m));
    o := FilterUnique(observed, HitBy(c, m));
    FilterMembers(observed, Unidentified(c));
    forall k | 0 <= k < |observed| ensures !Unidentified(c)(observed[k]) {
      assert observed[k] in observed;
    }
  }

  /** Unique, fully identified producer evidence shows this outcome. */
  ghost predicate Shows(c: Cell, required: seq<Cell>, graph: seq<Graph>, observed: seq<Observation>, x: Outcome) {
    exists m: Matrix, g: nat, o: nat :: Decided(c, required, graph, observed, x, m, g, o)
  }

  /** What that evidence is, field by field. */
  lemma {:induction false} DecidedMeaning(c: Cell, required: seq<Cell>, graph: seq<Graph>, observed: seq<Observation>, x: Outcome, m: Matrix, g: nat, o: nat)
    requires Decided(c, required, graph, observed, x, m, g, o)
    ensures c.scope.LocalLinux? && (c.matrix == Some(m) || (c.matrix.None? && m == "{}"))
    ensures g < |graph| && graph[g].workflow == c.workflow && graph[g].job == c.job && graph[g].runner == c.runner
    ensures graph[g].provenance.ProducerGraph? && (graph[g].matrix == Exact(m) || (graph[g].matrix.NoMatrix? && m == "{}"))
    ensures o < |observed| && observed[o] == Observation(Some(c.workflow), c.job, Some(c.runner), Some(m), x, ProducerExecution)
    ensures forall k :: 0 <= k < |observed| && observed[k].job == c.job ==> observed[k].workflow.Some? && observed[k].runner.Some?
    ensures forall k :: 0 <= k < |observed| && k != o && observed[k].matrix == Some(m) ==>
                          observed[k].workflow != Some(c.workflow) || observed[k].job != c.job || observed[k].runner != Some(c.runner)
    ensures forall i, j :: 0 <= i < j < |required| ==> !(StandsFor(required[i], c, m) && StandsFor(required[j], c, m))
  {
    forall k | 0 <= k < |observed| && observed[k].job == c.job ensures observed[k].workflow.Some? && observed[k].runner.Some? {
      assert !Unidentified(c)(observed[k]);
    }
    forall k | 0 <= k < |observed| && k != o && observed[k].matrix == Some(m)
      ensures observed[k].workflow != Some(c.workflow) || observed[k].job != c.job || observed[k].runner != Some(c.runner)
    {
      assert HitBy(c, m)(observed[k]) ==> k == o;
    }
    FilterMany(required, Claims(c, m));
    forall i, j | 0 <= i < j < |required| ensures !(StandsFor(required[i], c, m) && StandsFor(required[j], c, m)) {
      assert !(Claims(c, m)(required[i]) && Claims(c, m)(required[j]));
    }
  }

  /** A required cell of the same workflow, job and runner, with this matrix or, for the empty one, with none. */
  ghost predicate StandsFor(d: Cell, c: Cell, m: Matrix) {
    d.workflow == c.workflow && d.job == c.job && d.runner == c.runner && (d.matrix == Some(m) || (d.matrix.None? && m == "{}"))
  }

  /** Each outcome is reported, under its own name, exactly when the evidence shows it. */
  lemma {:induction false} DecidedExact(c: Cell, required: seq<Cell>, graph: seq<Graph>, observed: seq<Observation>)
    ensures var reason := CellReason(c, required, graph, observed);
            && (reason == Covered <==> Shows(c, required, graph, observed, Success))
            && (reason == FailedCell <==> Shows(c, required, graph, observed, Failed))
            && (reason == SkippedCell <==> Shows(c, required, graph, observed, Skipped))
            && (reason == UnsupportedCell <==> Shows(c, required, graph, observed, Unsupported))
  {
    OutcomeShown(c, required, graph, observed, Success);
    OutcomeShown(c, required, graph, observed, Failed);
    OutcomeShown(c, required, graph, observed, Skipped);
    OutcomeShown(c, required, graph, observed, Unsupported);
  }

  ghost predicate TwoOf<T>(s: seq<T>, p: T -> bool) {
    exists i, j :: 0 <= i < j < |s| && p(s[i]) && p(s[j])
  }

  /** Some observation of the cell's job does not say its workflow or its runner. */
  ghost predicate Clouded(c: Cell, observed: seq<Observation>) {
    exists k :: 0 <= k < |observed| && observed[k].job == c.job && (observed[k].workflow.None? || observed[k].runner.None?)
  }

  /** Two cells claim the tuple, two observations hit it, or two graph entries prove it. */
  ghost predicate Contested(c: Cell, required: seq<Cell>, graph: seq<Graph>, observed: seq<Observation>, m: Matrix) {
    TwoOf(required, Claims(c, m)) || TwoOf(observed, HitBy(c, m)) || TwoOf(graph, Proves(c, m))
  }

  /** A graph entry of the producer proves the tuple, and an observation hits it. */
  ghost predicate Present(c: Cell, graph: seq<Graph>, observed: seq<Observation>, m: Matrix) {
    && (exists g :: 0 <= g < |graph| && Proves(c, m)(graph[g]) && graph[g].provenance.ProducerGraph?)
    && (exists o :: 0 <= o < |observed| && HitBy(c, m)(observed[o]))
  }

  /** The reasons without an outcome, each with its exact condition. */
  lemma {:induction false} UndecidedExact(c: Cell, required: seq<Cell>, graph: seq<Graph>, observed: seq<Observation>)
    ensures var reason := CellReason(c, required, graph, observed);
            && (reason == GithubOnlyCell <==> c.scope.GithubOnly?)
            && (reason == UnresolvedMatrix <==>
                  c.scope.LocalLinux? && c.matrix.None? &&
                  !exists g :: 0 <= g < |graph| && SoleJob(c, graph, g) && graph[g].provenance.ProducerGraph? && graph[g].matrix.NoMatrix?)
            && (reason == Ambiguous <==>
                  c.scope.LocalLinux? && Resolved(c, graph).Some? && !Clouded(c, observed) &&
                  Contested(c, required, graph, observed, Resolved(c, graph).value))
            && (reason == Missing <==>
                  c.scope.LocalLinux? && Resolved(c, graph).Some? && !Clouded(c, observed) &&
                  !Contested(c, required, graph, observed, Resolved(c, graph).value) && !Present(c, graph, observed, Resolved(c, graph).value))
            && (reason == IncompleteIdentity <==>
                  c.scope.LocalLinux? && Resolved(c, graph).Some? &&
                  (Clouded(c, observed) ||
                   (!Contested(c, required, graph, observed, Resolved(c, graph).value) && Present(c, graph, observed, Resolved(c, graph).value) &&
                    !Executed(c, observed, Resolved(c, graph).value))))
  {
    ResolvedExact(c, graph);
    if c.scope.LocalLinux? && Resolved(c, graph).Some? {
      JudgedExact(c, required, graph, observed, Resolved(c, graph).value);
    }
  }

  /** The only graph entry of the cell's workflow, job and runner. */
  ghost predicate SoleJob(c: Cell, graph: seq<Graph>, g: nat)
    requires g < |graph|
  {
    && graph[g].workflow == c.workflow && graph[g].job == c.job && graph[g].runner == c.runner
    && forall k :: 0 <= k < |graph| && k != g ==> graph[k].workflow != c.workflow || graph[k].job != c.job || graph[k].runner != c.runner
  }

  /** An observation that hits the tuple comes from an execution. */
  ghost predicate Executed(c: Cell, observed: seq<Observation>, m: Matrix) {
    exists o :: 0 <= o < |observed| && HitBy(c, m)(observed[o]) && observed[o].provenance.ProducerExecution?
  }

  /** A cell stands for its own matrix, or for none where the one graph entry of its job proves there is none. */
  lemma {:induction false} ResolvedExact(c: Cell, graph: seq<Graph>)
    ensures c.matrix.Some? ==> Resolved(c, graph) == c.matrix
    ensures c.matrix.None? ==>
              Resolved(c, graph) ==
              if exists g :: 0 <= g < |graph| && SoleJob(c, graph, g) && graph[g].provenance.ProducerGraph? && graph[g].matrix.NoMatrix?
              then Some("{}") else None
  {
    var p := SameJob(c);
    if |Filter(graph, p)| == 1 {
      var g := FilterUnique(graph, p);
      assert SoleJob(c, graph, g);
      forall h | 0 <= h < |graph| && SoleJob(c, graph, h) ensures h == g {
        assert p(graph[h]);
      }
    } else {
      forall g | 0 <= g < |graph| && SoleJob(c, graph, g) ensures false {
        FilterSole(graph, p, g);
      }
    }
  }

  lemma {:induction false} CloudedExact(c: Cell, observed: seq<Observation>)
    ensures Filter(observed, Unidentified(c)) != [] <==> Clouded(c, observed)
  {
    FilterSome(observed, Unidentified(c));
    assert forall k :: 0 <= k < |observed| ==>
                         (Unidentified(c)(observed[k]) <==> observed[k].job == c.job && (observed[k].workflow.None? || observed[k].runner.None?));
  }

  lemma {:induction false} JudgedExact(c: Cell, required: seq<Cell>, graph: seq<Graph>, observed: seq<Observation>, m: Matrix)
    requires c.scope.LocalLinux? && Resolved(c, graph) == Some(m)
    ensures var reason := CellReason(c, required, graph, observed);
            if Clouded(c, observed) then reason == IncompleteIdentity
            else if Contested(c, required, graph, observed, m) then reason == Ambiguous
            else if !Present(c, graph, observed, m) then reason == Missing
            else if !Executed(c, observed, m) then reason == IncompleteIdentity
            else reason in {Covered, FailedCell, SkippedCell, UnsupportedCell}
  {
    CloudedExact(c, observed);
    FilterMany(required, Claims(c, m));
    FilterMany(observed, HitBy(c, m));
    FilterMany(graph, Proves(c, m));
    FilterSome(observed, HitBy(c, m));
    FilterSome(graph, Proves(c, m));
    if !Contested(c, required, graph, observed, m) {
      if |Filter(graph, Proves(c, m))| == 1 {
        var g := FilterUnique(graph, Proves(c, m));
      }
      if |Filter(observed, HitBy(c, m))| == 1 {
        var o := FilterUnique(observed, HitBy(c, m));
      }
    }
  }

  lemma {:induction false} OutcomeShown(c: Cell, required: seq<Cell>, graph: seq<Graph>, observed: seq<Observation>, x: Outcome)
    ensures CellReason(c, required, graph, observed) == OutcomeReason(x) <==> Shows(c, required, graph, observed, x)
  {
    if CellReason(c, required, graph, observed) == OutcomeReason(x) {
      var m, g, o := DecidedByReason(c, required, graph, observed, x);
    }
    if exists m: Matrix, g: nat, o: nat :: Decided(c, required, graph, observed, x, m, g, o) {
      var m: Matrix, g: nat, o: nat :| Decided(c, required, graph, observed, x, m, g, o);
      ReasonOfDecided(c, required, graph, observed, x, m, g, o);
    }
  }

  lemma {:induction false} CoveredHasEvidence(c: Cell, required: seq<Cell>, graph: seq<Graph>, observed: seq<Observation>)
    returns (m: Matrix, g: nat, o: nat)
    requires CellReason(c, required, graph, observed) == Covered
    ensures Resolved(c, graph) == Some(m)
    ensures Evidence(c, m, graph, observed, g, o)
    ensures |Filter(required, Claims(c, m))| <= 1
  {
    m, g, o := DecidedByReason(c, required, graph, observed, Success);
  }

  /** A cell claims its own resolved tuple. */
  lemma {:induction false} ClaimsOwn(c: Cell, graph: seq<Graph>, m: Matrix)
    requires Resolved(c, graph) == Some(m)
    ensures Claims(c, m)(c)
  {
  }

  /**
   * Full coverage is an injection: every required cell has its own graph entry and its own successful
   * producer observation, and no two cells share either.
   */
  lemma {:induction false} FullCoverageInjective(
    required: seq<Cell>, graph: seq<Graph>, observed: seq<Observation>, i: nat, j: nat)
    returns (m: Matrix, gi: nat, oi: nat, n: Matrix, gj: nat, oj: nat)
    requires i < |required| && j < |required| && i != j
    requires forall k :: 0 <= k < |required| ==> CellReason(required[k], required, graph, observed) == Covered
    ensures Resolved(required[i], graph) == Some(m) && Evidence(required[i], m, graph, observed, gi, oi)
    ensures Resolved(required[j], graph) == Some(n) && Evidence(required[j], n, graph, observed, gj, oj)
    ensures gi != gj && oi != oj
  {
    var c, d := required[i], required[j];
    m, gi, oi := CoveredHasEvidence(c, required, graph, observed);
    n, gj, oj := CoveredHasEvidence(d, required, graph, observed);
    if gi == gj || oi == oj {
      ClaimsOwn(c, graph, m);
      ClaimsOwn(d, graph, n);
      if i < j {
        FilterTwo(required, Claims(c, m), i, j);
      } else {
        FilterTwo(required, Claims(c, m), j, i);
      }
    }
  }

  /** Reordering the graph or the observations changes no verdict. */
  lemma {:induction false} OrderIndependent(
    c: Cell, required: seq<Cell>, graph: seq<Graph>, graph': seq<Graph>, observed: seq<Observation>, observed': seq<Observation>)
    requires multiset(graph) == multiset(graph') && multiset(observed) == multiset(observed')
    ensures CellReason(c, required, graph, observed) == CellReason(c, required, graph', observed')
  {
    ResolvedReorder(c, graph, graph');
    FilterReorder(observed, observed', Unidentified(c));
    if Resolved(c, graph).Some? {
      var m := Resolved(c, graph).value;
      FilterReorder(graph, graph', Proves(c, m));
      FilterReorder(observed, observed', HitBy(c, m));
      JudgeSame(|Filter(required, Claims(c, m))|, Filter(graph, Proves(c, m)), Filter(graph', Proves(c, m)),
                Filter(observed, HitBy(c, m)), Filter(observed', HitBy(c, m)));
    }
  }

  lemma {:induction false} JudgeSame(claims: nat, exact: seq<Graph>, exact': seq<Graph>, hits: seq<Observation>, hits': seq<Observation>)
    requires |exact| == |exact'| && (|exact| == 1 ==> exact[0] == exact'[0])
    requires |hits| == |hits'| && (|hits| == 1 ==> hits[0] == hits'[0])
    ensures Judge(claims, exact, hits) == Judge(claims, exact', hits')
  {
  }

  lemma {:induction false} ResolvedReorder(c: Cell, graph: seq<Graph>, graph': seq<Graph>)
    requires multiset(graph) == multiset(graph')
    ensures Resolved(c, graph) == Resolved(c, graph')
  {
    FilterReorder(graph, graph', SameJob(c));
  }
}
