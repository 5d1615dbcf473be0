/** What an engine's record says about the calls that led to it. */
module ActHistory {
  import opened Common
  import opened ActEngine
  import opened ActCoupling

  // ------------------------------------------------------------------ write-once

  function Rank(s: State): nat {
    match s
    case Pending => 0
    case Registered => 1
    case CleanupRequired => 2
    case Terminal => 3
  }

  predicate Fills<T(==)>(a: Option<T>, b: Option<T>) {
    a.Some? ==> a == b
  }

  /**
   * `b` may follow `a`: facts are written once, time and state never go back, a spare's claim is
   * handed over at most once, and a terminal record is final.
   */
  ghost predicate Follows(a: Record, b: Record) {
    && a.schema == b.schema && a.registryId == b.registryId && a.intent == b.intent
    && Fills(a.engineId, b.engineId) && Fills(a.execution, b.execution) && Fills(a.outcome, b.outcome)
    && Fills(a.removal, b.removal) && Fills(a.binding, b.binding)
    && (Fills(a.claim, b.claim) || (a.intent.spare && a.binding.None? && b.binding.Some? && b.claim.Some?))
    && a.updatedAt <= b.updatedAt
    && Rank(a.state) <= Rank(b.state)
    && (a.state.CleanupRequired? ==> a.claim == b.claim && a.execution == b.execution && a.outcome == b.outcome)
    && (a.state.Terminal? ==> a == b)
  }

  lemma {:induction false} FollowsTransitive(a: Record, b: Record, c: Record)
    requires Valid(a) && Valid(b) && Follows(a, b) && Follows(b, c)
    ensures Follows(a, c)
  {
  }

  // ------------------------------------------------------- one record, one call

  /** What an accepted call found. */
  predicate Guard(r: Record, op: Op) {
    match op
    case BeginOp(_) => false
    case RequestCreateOp(_, at) => r.state.Pending? && at.Finite?
    case MarkUncertainOp(_, at) => r.state.CleanupRequired? && OnTime(r, at)
    case RegisterOp(_, o, at, recovery) =>
      OnTime(r, at) && r.engineId.None? && r.state == if recovery then CleanupRequired else Pending
    case ClaimOp(i, _, _, at) => OnTime(r, at) && r.state.Registered? && r.execution.None? && r.claim.None?
    case ClaimSpareOp(_, _, from, _, _, at) =>
      OnTime(r, at) && r.intent.spare && r.state.Registered? && r.execution.None? && r.binding.None? && r.claim == Some(from)
    case RecordOp(_, token, _, at) => OnTime(r, at) && r.state.Registered? && r.execution.None? && r.claim == Some(token)
    case CleanupOp(_, token, _, at) => OnTime(r, at) && (r.state.Pending? || r.state.Registered?) && r.claim == token
    case FinalizeOp(_, proof, at, _, _) => OnTime(r, at) && r.state.CleanupRequired? && proof.engineId == r.engineId
    case OutsideOp(_, _) => false
  }

  /** What it wrote. */
  function Written(r: Record, op: Op): Record
    requires Guard(r, op)
  {
    match op
    case RequestCreateOp(_, at) => r.(createRequested := Some(true), updatedAt := Max(r.updatedAt, at.value))
    case MarkUncertainOp(_, at) => r.(createRequested := Some(true), updatedAt := at.value)
    case RegisterOp(_, o, at, recovery) =>
      r.(state := if recovery then r.state else Registered, engineId := Some(o.engineId), updatedAt := at.value)
    case ClaimOp(_, _, token, at) => r.(claim := Some(token), updatedAt := at.value)
    case ClaimSpareOp(_, _, _, token, b, at) => r.(claim := Some(token), binding := Some(b), updatedAt := at.value)
    case RecordOp(_, _, outcome, at) => r.(execution := Some(outcome), updatedAt := at.value)
    case CleanupOp(_, _, outcome, at) => r.(state := CleanupRequired, outcome := Some(outcome), updatedAt := at.value)
    case FinalizeOp(_, proof, at, _, _) => r.(removal := Some(proof), state := Terminal, updatedAt := at.value)
  }

  /** An accepted call on a known run passed its guard and wrote exactly this, and both records are valid. */
  ghost predicate Effect(s: Store, c: Call, run: string)
    requires run in s.records
  {
    Step(s, c).Ok? ==>
      && Guard(s.records[run], c.op)
      && Step(s, c).value.records == s.records[run := Written(s.records[run], c.op)]
  }

  lemma {:induction false} MarkEffect(s: Store, c: Call, run: string)
    requires RecordsSound(s) && run in s.records && Target(c.op) == Some(run)
    requires c.op.BeginOp? || c.op.RequestCreateOp? || c.op.MarkUncertainOp?
    ensures Effect(s, c, run)
  {
    FindSound(s, run);
  }

  lemma {:induction false} RegisterEffect(s: Store, c: Call, run: string)
    requires RecordsSound(s) && run in s.records && Target(c.op) == Some(run) && c.op.RegisterOp?
    ensures Effect(s, c, run)
  {
    FindSound(s, run);
  }

  lemma {:induction false} ClaimEffect(s: Store, c: Call, run: string)
    requires RecordsSound(s) && run in s.records && Target(c.op) == Some(run)
    requires c.op.ClaimOp? || c.op.ClaimSpareOp?
    ensures Effect(s, c, run)
  {
    FindSound(s, run);
  }

  lemma {:induction false} EndEffect(s: Store, c: Call, run: string)
    requires RecordsSound(s) && run in s.records && Target(c.op) == Some(run)
    requires c.op.RecordOp? || c.op.CleanupOp? || c.op.FinalizeOp?
    ensures Effect(s, c, run)
  {
    FindSound(s, run);
  }

  lemma {:induction false} StepEffect(s: Store, c: Call, run: string)
    requires RecordsSound(s) && run in s.records && Target(c.op) == Some(run)
    ensures Effect(s, c, run)
  {
    if c.op.RegisterOp? {
      RegisterEffect(s, c, run);
    } else if c.op.ClaimOp? || c.op.ClaimSpareOp? {
      ClaimEffect(s, c, run);
    } else if c.op.RecordOp? || c.op.CleanupOp? || c.op.FinalizeOp? {
      EndEffect(s, c, run);
    } else {
      MarkEffect(s, c, run);
    }
  }

  lemma {:induction false} WrittenFollows(r: Record, op: Op)
    requires Valid(r) && Guard(r, op)
    ensures Follows(r, Written(r, op))
  {
  }

  lemma {:induction false} TargetFollows(s: Store, c: Call, run: string)
    requires Coupled(s) && run in s.records && Target(c.op) == Some(run) && Step(s, c).Ok?
    ensures run in Step(s, c).value.records && Follows(s.records[run], Step(s, c).value.records[run])
  {
    StepEffect(s, c, run);
    WrittenFollows(s.records[run], c.op);
  }

  lemma {:induction false} StepFollows(s: Store, c: Call, run: string)
    requires Coupled(s) && run in s.records
    ensures run in Apply(s, c).records && Follows(s.records[run], Apply(s, c).records[run])
  {
    if Target(c.op) != Some(run) {
      OthersUntouched(s, c, run);
    } else if Step(s, c).Ok? {
      TargetFollows(s, c, run);
    }
  }

  /** Over any later calls, whoever makes them. */
  lemma {:induction false} RunFollows(s: Store, calls: seq<Call>, run: string)
    requires Coupled(s) && run in s.records
    ensures run in Execute(s, calls).records && Follows(s.records[run], Execute(s, calls).records[run])
  {
    if calls != [] {
      var before := calls[..|calls| - 1];
      RunFollows(s, before, run);
      RunsStayCoupled(s, before);
      StepFollows(Execute(s, before), calls[|calls| - 1], run);
      RunsStayCoupled(s, calls);
      FollowsTransitive(s.records[run], Execute(s, before).records[run], Execute(s, calls).records[run]);
    }
  }

  // ----------------------------------------------------------------------- trails

  /** An accepted call and its place in the run. */
  datatype Mark = Mark(at: nat, op: Op)

  /** The last accepted call of each kind that a record depends on. */
  datatype Trail = Trail(
    begun: Option<Mark>, registered: Option<Mark>, claimed: Option<Mark>,
    executed: Option<Mark>, cleaned: Option<Mark>, finished: Option<Mark>)

  function Unmarked(): Trail {
    Trail(None, None, None, None, None, None)
  }

  function Note(t: Trail, k: nat, op: Op): Trail {
    var m := Some(Mark(k, op));
    match op
    case BeginOp(_) => t.(begun := m)
    case RegisterOp(_, _, _, _) => t.(registered := m)
    case ClaimOp(_, _, _, _) => t.(claimed := m)
    case ClaimSpareOp(_, _, _, _, _, _) => t.(claimed := m)
    case RecordOp(_, _, _, _) => t.(executed := m)
    case CleanupOp(_, _, _, _) => t.(cleaned := m)
    case FinalizeOp(_, _, _, _, _) => t.(finished := m)
    case _ => t
  }

  /** The mark an operation of this kind would fill. */
  function Slot(t: Trail, op: Op): Option<Mark> {
    match op
    case BeginOp(_) => t.begun
    case RegisterOp(_, _, _, _) => t.registered
    case ClaimOp(_, _, _, _) => t.claimed
    case ClaimSpareOp(_, _, _, _, _, _) => t.claimed
    case RecordOp(_, _, _, _) => t.executed
    case CleanupOp(_, _, _, _) => t.cleaned
    case FinalizeOp(_, _, _, _, _) => t.finished
    case _ => None
  }

  predicate MarkBefore(m: Option<Mark>, k: nat) {
    m.Some? ==> m.value.at < k
  }

  predicate TrailBefore(t: Trail, k: nat) {
    && MarkBefore(t.begun, k) && MarkBefore(t.registered, k) && MarkBefore(t.claimed, k)
    && MarkBefore(t.executed, k) && MarkBefore(t.cleaned, k) && MarkBefore(t.finished, k)
  }

  predicate RegisterExplained(t: Trail, r: Record) {
    && (r.engineId.Some? <==> t.registered.Some?)
    && (t.registered.Some? ==>
          && t.registered.value.op.RegisterOp? && t.registered.value.op.run == r.intent.runId
          && r.engineId == Some(t.registered.value.op.observed.engineId)
          && MarkBefore(t.begun, t.registered.value.at))
  }

  function ClaimToken(op: Op): Option<string> {
    if op.ClaimOp? || op.ClaimSpareOp? then Some(op.token) else None
  }

  predicate ClaimExplained(t: Trail, r: Record) {
    && (r.claim.Some? <==> t.claimed.Some?)
    && (t.claimed.Some? ==>
          && Target(t.claimed.value.op) == Some(r.intent.runId) && ClaimToken(t.claimed.value.op) == r.claim
          && t.registered.Some? && RegisteredFromPending(t) && t.registered.value.at < t.claimed.value.at)
  }

  /** The engine ID came from an ordinary registration, not from crash recovery. */
  predicate RegisteredFromPending(t: Trail) {
    t.registered.Some? && t.registered.value.op.RegisterOp? && !t.registered.value.op.recovery
  }

  predicate ExecutionExplained(t: Trail, r: Record) {
    && (r.execution.Some? <==> t.executed.Some?)
    && (t.executed.Some? ==>
          && t.executed.value.op.RecordOp? && t.executed.value.op.run == r.intent.runId
          && r.claim == Some(t.executed.value.op.token) && r.execution == Some(t.executed.value.op.outcome)
          && MarkBefore(t.claimed, t.executed.value.at))
  }

  predicate CleanupExplained(t: Trail, r: Record) {
    && (r.outcome.Some? <==> t.cleaned.Some?)
    && (t.cleaned.Some? ==>
          && t.cleaned.value.op.CleanupOp? && t.cleaned.value.op.run == r.intent.runId
          && t.cleaned.value.op.owner == r.claim && r.outcome == Some(t.cleaned.value.op.outcome)
          && MarkBefore(t.begun, t.cleaned.value.at) && MarkBefore(t.claimed, t.cleaned.value.at)
          && MarkBefore(t.executed, t.cleaned.value.at)
          && (RegisteredFromPending(t) ==> MarkBefore(t.registered, t.cleaned.value.at)))
  }

  predicate FinishExplained(t: Trail, r: Record) {
    && (r.state.Terminal? <==> t.finished.Some?)
    && (t.finished.Some? ==>
          && t.finished.value.op.FinalizeOp? && t.finished.value.op.run == r.intent.runId
          && r.removal == Some(t.finished.value.op.proof) && t.finished.value.op.proof.engineId == r.engineId
          && MarkBefore(t.cleaned, t.finished.value.at) && MarkBefore(t.registered, t.finished.value.at))
  }

  predicate Explains(t: Trail, r: Record) {
    && r.schema == 3
    && (r.state.Registered? ==> RegisteredFromPending(t))
    && (t.registered.Some? && !RegisteredFromPending(t) ==> t.cleaned.Some? && t.cleaned.value.at < t.registered.value.at)
    && t.begun.Some? && t.begun.value.op == BeginOp(r.intent)
    && RegisterExplained(t, r) && ClaimExplained(t, r) && ExecutionExplained(t, r)
    && CleanupExplained(t, r) && FinishExplained(t, r)
  }

  lemma {:induction false} BeginNoted(s: Store, c: Call, run: string, k: nat)
    requires Coupled(s) && Target(c.op) == Some(run) && run !in s.records && Step(s, c).Ok?
    ensures c.op.BeginOp? && run in Step(s, c).value.records
    ensures Explains(Note(Unmarked(), k, c.op), Step(s, c).value.records[run])
  {
    FindSound(s, run);
  }

  /** A trail that explains a record explains what the next accepted call writes; nothing is done twice. */
  lemma {:induction false} WrittenExplained(r: Record, op: Op, t: Trail, k: nat)
    requires Valid(r) && Guard(r, op) && Target(op) == Some(r.intent.runId)
    requires Explains(t, r) && TrailBefore(t, k)
    ensures Explains(Note(t, k, op), Written(r, op)) && TrailBefore(Note(t, k, op), k + 1)
    ensures !op.ClaimSpareOp? ==> Slot(t, op).None?
  {
  }

  // ------------------------------------------------------------------ whole runs

  ghost function StateAt(s: Store, calls: seq<Call>, k: nat): Store
    requires k <= |calls|
  {
    Execute(s, calls[..k])
  }

  ghost predicate Accepted(s: Store, calls: seq<Call>, k: nat) {
    k < |calls| && Step(StateAt(s, calls, k), calls[k]).Ok?
  }

  ghost function TrailOf(s: Store, calls: seq<Call>, run: string, k: nat): Trail
    requires k <= |calls|
  {
    if k == 0 then Unmarked()
    else
      var t := TrailOf(s, calls, run, k - 1);
      if Target(calls[k - 1].op) == Some(run) && Accepted(s, calls, k - 1) then Note(t, k - 1, calls[k - 1].op) else t
  }

  lemma {:induction false} NextState(s: Store, calls: seq<Call>, k: nat)
    requires k < |calls|
    ensures StateAt(s, calls, k + 1) == Apply(StateAt(s, calls, k), calls[k])
  {
    assert calls[..k + 1][..k] == calls[..k] && calls[..k + 1][k] == calls[k];
  }

  /** A mark that stands for a call that was made, at that place, and accepted. */
  ghost function Real(s: Store, calls: seq<Call>): Mark -> bool {
    (m: Mark) => Accepted(s, calls, m.at) && calls[m.at].op == m.op
  }

  predicate Marked(m: Option<Mark>, good: Mark -> bool) {
    m.Some? ==> good(m.value)
  }

  predicate AllMarks(t: Trail, good: Mark -> bool) {
    && Marked(t.begun, good) && Marked(t.registered, good) && Marked(t.claimed, good)
    && Marked(t.executed, good) && Marked(t.cleaned, good) && Marked(t.finished, good)
  }

  ghost predicate Told(s: Store, calls: seq<Call>, run: string, k: nat)
    requires k <= |calls|
  {
    var t, now := TrailOf(s, calls, run, k), StateAt(s, calls, k);
    && AllMarks(t, Real(s, calls)) && TrailBefore(t, k)
    && (run !in now.records ==> t == Unmarked())
    && (run in now.records ==> Explains(t, now.records[run]))
  }

  lemma {:induction false} Idle(s: Store, calls: seq<Call>, run: string, k: nat)
    requires k < |calls| && Coupled(StateAt(s, calls, k))
    requires Target(calls[k].op) != Some(run) || !Accepted(s, calls, k)
    ensures run in StateAt(s, calls, k + 1).records <==> run in StateAt(s, calls, k).records
    ensures run in StateAt(s, calls, k).records ==> StateAt(s, calls, k + 1).records[run] == StateAt(s, calls, k).records[run]
  {
    NextState(s, calls, k);
    if Target(calls[k].op) != Some(run) {
      OthersUntouched(StateAt(s, calls, k), calls[k], run);
    }
  }

  lemma {:induction false} NotedMarks(t: Trail, k: nat, op: Op, good: Mark -> bool)
    requires AllMarks(t, good) && good(Mark(k, op))
    ensures AllMarks(Note(t, k, op), good)
  {
  }

  lemma {:induction false} ToldAct(s: Store, calls: seq<Call>, run: string, k: nat)
    requires Coupled(s) && Accepted(s, calls, k) && Target(calls[k].op) == Some(run) && Told(s, calls, run, k)
    ensures Told(s, calls, run, k + 1)
  {
    var now, t := StateAt(s, calls, k), TrailOf(s, calls, run, k);
    Acted(s, calls, run, k);
    NotedMarks(t, k, calls[k].op, Real(s, calls));
    if run in now.records {
      WrittenExplained(now.records[run], calls[k].op, t, k);
    } else {
      NextState(s, calls, k);
      BeginNoted(now, calls[k], run, k);
    }
  }

  lemma {:induction false} ToldStep(s: Store, calls: seq<Call>, run: string, k: nat)
    requires Coupled(s) && k < |calls| && Told(s, calls, run, k)
    ensures Told(s, calls, run, k + 1)
  {
    if Target(calls[k].op) == Some(run) && Accepted(s, calls, k) {
      ToldAct(s, calls, run, k);
    } else {
      RunsStayCoupled(s, calls[..k]);
      Idle(s, calls, run, k);
    }
  }

  /** In every run from an empty registry, each record is explained by the calls that were accepted. */
  lemma {:induction false} EveryRecordExplained(owner: string, calls: seq<Call>, run: string, k: nat)
    requires IsUuid(owner) && k <= |calls|
    ensures Told(Empty(owner), calls, run, k)
  {
    if k == 0 {
      assert calls[..0] == [];
    } else {
      EveryRecordExplained(owner, calls, run, k - 1);
      EmptyCoupled(owner);
      ToldStep(Empty(owner), calls, run, k - 1);
    }
  }

  /**
   * A run that ends passed was begun, registered from pending, claimed, recorded passed and sent to
   * cleanup by that claim's holder, and removed under that same engine ID, in that order.
   */
  lemma {:induction false} PassedHistory(owner: string, calls: seq<Call>, run: string) returns (b: nat, g: nat, c: nat, x: nat, k: nat, f: nat)
    requires IsUuid(owner) && run in Execute(Empty(owner), calls).records
    requires Execute(Empty(owner), calls).records[run].state.Terminal?
    requires Execute(Empty(owner), calls).records[run].outcome == Some(Passed)
    ensures b < g < c < x < k < f < |calls|
    ensures forall i :: i in {b, g, c, x, k, f} ==> Accepted(Empty(owner), calls, i)
    ensures var r := Execute(Empty(owner), calls).records[run];
            && calls[b].op == BeginOp(r.intent) && r.intent.runId == run
            && calls[g].op.RegisterOp? && calls[g].op.run == run && !calls[g].op.recovery && r.engineId == Some(calls[g].op.observed.engineId)
            && Target(calls[c].op) == Some(run) && r.claim.Some? && ClaimToken(calls[c].op) == r.claim
            && calls[x].op.RecordOp? && calls[x].op.run == run && calls[x].op.outcome == Passed && Some(calls[x].op.token) == r.claim
            && calls[k].op.CleanupOp? && calls[k].op.run == run && calls[k].op.outcome == Passed && calls[k].op.owner == r.claim
            && calls[f].op.FinalizeOp? && calls[f].op.run == run && calls[f].op.proof.engineId == r.engineId
  {
    var n := |calls|;
    var s := Empty(owner);
    assert calls[..n] == calls;
    EveryRecordExplained(owner, calls, run, n);
    EmptyCoupled(owner);
    RunsStayCoupled(s, calls);
    var t, r := TrailOf(s, calls, run, n), Execute(s, calls).records[run];
    assert Valid(r) && r.intent.runId == run;
    assert Explains(t, r);
    b, g, c, x, k, f := t.begun.value.at, t.registered.value.at, t.claimed.value.at, t.executed.value.at, t.cleaned.value.at, t.finished.value.at;
  }

  // ------------------------------------------------------------- nothing happens twice

  lemma {:induction false} ExecuteSplit(s: Store, a: seq<Call>, b: seq<Call>)
    ensures Execute(s, a + b) == Execute(Execute(s, a), b)
  {
    if b == [] {
      assert a + b == a;
    } else {
      var last := |b| - 1;
      assert (a + b)[..|a + b| - 1] == a + b[..last];
      ExecuteSplit(s, a, b[..last]);
    }
  }

  predicate SameKind(a: Op, b: Op) {
    || (a.BeginOp? && b.BeginOp?) || (a.RegisterOp? && b.RegisterOp?)
    || (a.ClaimOp? && b.ClaimOp?) || (a.ClaimSpareOp? && b.ClaimSpareOp?) || (a.RecordOp? && b.RecordOp?)
    || (a.CleanupOp? && b.CleanupOp?) || (a.FinalizeOp? && b.FinalizeOp?)
  }

  /** After a call of this kind was accepted, no later record of the run lets another one through. */
  lemma {:induction false} GuardGone(r: Record, a: Op, later: Record, b: Op)
    requires Valid(r) && Guard(r, a) && Valid(Written(r, a)) && Follows(Written(r, a), later) && Valid(later)
    requires SameKind(a, b)
    ensures !Guard(later, b)
  {
  }

  lemma {:induction false} LaterRecord(s: Store, calls: seq<Call>, run: string, i: nat, j: nat)
    requires Coupled(s) && i < j <= |calls| && run in StateAt(s, calls, i + 1).records
    ensures Coupled(StateAt(s, calls, j)) && run in StateAt(s, calls, j).records
    ensures Follows(StateAt(s, calls, i + 1).records[run], StateAt(s, calls, j).records[run])
  {
    assert calls[..j] == calls[..i + 1] + calls[i + 1..j];
    ExecuteSplit(s, calls[..i + 1], calls[i + 1..j]);
    RunsStayCoupled(s, calls[..i + 1]);
    RunsStayCoupled(s, calls[..j]);
    RunFollows(StateAt(s, calls, i + 1), calls[i + 1..j], run);
  }

  /** Each transition that moves a record on is accepted at most once per run, in any run of the registry. */
  lemma {:induction false} NothingTwice(s: Store, calls: seq<Call>, i: nat, j: nat)
    requires Coupled(s) && i < j < |calls| && Accepted(s, calls, i) && Accepted(s, calls, j)
    requires Target(calls[i].op) == Target(calls[j].op)
    ensures !SameKind(calls[i].op, calls[j].op)
  {
    if SameKind(calls[i].op, calls[j].op) {
      var run := Target(calls[i].op).value;
      Acted(s, calls, run, i);
      LaterRecord(s, calls, run, i, j);
      Acted(s, calls, run, j);
      if run in StateAt(s, calls, i).records {
        RunsStayCoupled(s, calls[..i + 1]);
        GuardGone(StateAt(s, calls, i).records[run], calls[i].op, StateAt(s, calls, j).records[run], calls[j].op);
      }
    }
  }

  predicate Runs(op: Op) {
    op.ClaimOp? || op.ClaimSpareOp? || op.RecordOp?
  }

  lemma {:induction false} RunsNeedsClaim(r: Record, op: Op, later: Record)
    requires Guard(r, op) && Runs(op) && Follows(Written(r, op), later)
    ensures later.claim.Some?
  {
  }

  lemma {:induction false} StaysStopped(r: Record, later: Record, op: Op)
    requires r.state.CleanupRequired? && Follows(r, later) && (Runs(op) || op.CleanupOp?)
    ensures !Guard(later, op)
  {
  }

  /** An engine whose ID came from crash recovery is never claimed and never executes, before or after. */
  lemma {:induction false} RecoveredNeverRuns(s: Store, calls: seq<Call>, g: nat, j: nat)
    requires Coupled(s) && Accepted(s, calls, g) && Accepted(s, calls, j)
    requires calls[g].op.RegisterOp? && calls[g].op.recovery && Target(calls[j].op) == Some(calls[g].op.run)
    ensures !Runs(calls[j].op)
  {
    var run := calls[g].op.run;
    if j < g {
      RunsBeforeRecovery(s, calls, g, j);
    } else if g < j {
      Acted(s, calls, run, g);
      LaterRecord(s, calls, run, g, j);
      Acted(s, calls, run, j);
      if Runs(calls[j].op) {
        StaysStopped(StateAt(s, calls, g + 1).records[run], StateAt(s, calls, j).records[run], calls[j].op);
      }
    }
  }

  lemma {:induction false} RunsBeforeRecovery(s: Store, calls: seq<Call>, g: nat, j: nat)
    requires Coupled(s) && Accepted(s, calls, g) && Accepted(s, calls, j) && j < g
    requires calls[g].op.RegisterOp? && calls[g].op.recovery && Target(calls[j].op) == Some(calls[g].op.run)
    ensures !Runs(calls[j].op)
  {
    var run := calls[g].op.run;
    Acted(s, calls, run, j);
    LaterRecord(s, calls, run, j, g);
    Acted(s, calls, run, g);
    var r := StateAt(s, calls, g).records[run];
    assert Valid(r) && r.claim.None?;
    if Runs(calls[j].op) {
      RunsNeedsClaim(StateAt(s, calls, j).records[run], calls[j].op, r);
    }
  }

  /** So it never ends passed. */
  lemma {:induction false} RecoveredNeverPasses(s: Store, calls: seq<Call>, g: nat)
    requires Coupled(s) && Accepted(s, calls, g) && calls[g].op.RegisterOp? && calls[g].op.recovery
    ensures calls[g].op.run in Execute(s, calls).records
    ensures var r := Execute(s, calls).records[calls[g].op.run];
            r.engineId == Some(calls[g].op.observed.engineId) && r.claim.None? && (r.schema == 3 ==> r.execution.None? && r.outcome != Some(Passed))
  {
    var run := calls[g].op.run;
    RunsStayCoupled(s, calls[..g]);
    Acted(s, calls, run, g);
    assert calls[..|calls|] == calls;
    LaterRecord(s, calls, run, g, |calls|);
  }

  /** An accepted call on a known run: what it found, and what it left for the next state. */
  lemma {:induction false} Acted(s: Store, calls: seq<Call>, run: string, k: nat)
    requires Coupled(s) && Accepted(s, calls, k) && Target(calls[k].op) == Some(run)
    ensures Coupled(StateAt(s, calls, k)) && run in StateAt(s, calls, k + 1).records
    ensures run in StateAt(s, calls, k).records ==>
              && Guard(StateAt(s, calls, k).records[run], calls[k].op)
              && StateAt(s, calls, k + 1).records[run] == Written(StateAt(s, calls, k).records[run], calls[k].op)
    ensures run !in StateAt(s, calls, k).records ==> calls[k].op.BeginOp?
  {
    var now := StateAt(s, calls, k);
    RunsStayCoupled(s, calls[..k]);
    NextState(s, calls, k);
    if run in now.records {
      StepEffect(now, calls[k], run);
    } else {
      BeginNoted(now, calls[k], run, k);
    }
  }
}
