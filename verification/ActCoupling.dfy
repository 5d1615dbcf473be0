/** Every transition keeps the engine records and the registry rows in step. */
module ActCoupling {
  import opened Common
  import opened ActEngine

  /** The two problems only a broken invariant could cause. */
  predicate Broken(p: Problem) {
    p.CorruptRow? || p.BadSnapshot?
  }

  ghost predicate Kept(r: Result<Store, Problem>) {
    match r
    case Ok(t) => Coupled(t)
    case Err(e) => !Broken(e)
  }

  lemma {:induction false} FindSound(s: Store, run: string)
    requires RecordsSound(s)
    ensures Find(s, run).Ok? <==> CanonicalRun(run) && run in s.records
    ensures Find(s, run).Ok? ==> Find(s, run).value == s.records[run] && Valid(s.records[run]) && s.records[run].intent.runId == run
    ensures Find(s, run).Err? ==> Find(s, run).error == if CanonicalRun(run) then Missing else BadRun
  {
  }

  lemma {:induction false} PutSound(s: Store, run: string, r: Record)
    requires RecordsSound(s) && Valid(r) && r.intent.runId == run && r.registryId == s.owner
    ensures RecordsSound(s.(records := s.records[run := r]))
  {
  }

  // -------------------------------------------------------- rows, records aside

  lemma {:induction false} HoldingsDecide(s: Store, t: Store)
    requires RowsCoupled(s) && s.resources == t.resources && s.uses == t.uses
    requires forall run :: Holds(t.records, run) == Holds(s.records, run)
    ensures RowsCoupled(t)
  {
  }

  lemma {:induction false} RowsAdded(s: Store, t: Store, i: Intent, at: real)
    requires RowsCoupled(s) && Holds(s.records, i.runId) == Nothing && !Occupied(s, i.runId)
    requires t.resources == s.resources[ResourceId(i.runId) := EngineRow(i, at, Active)]
    requires t.uses == s.uses[EngineUse(i) := Use(at, Active)]
    requires forall run :: Holds(t.records, run) == if run == i.runId then Rows(i, Active) else Holds(s.records, run)
    ensures RowsCoupled(t)
  {
    assert UseCoupled(s.uses, i.runId, Nothing);
    forall run ensures ResourceCoupled(t.resources, run, Holds(t.records, run)) && UseCoupled(t.uses, run, Holds(t.records, run)) {
      SameResourceId(run, i.runId);
      assert ResourceCoupled(s.resources, run, Holds(s.records, run)) && UseCoupled(s.uses, run, Holds(s.records, run));
    }
  }

  lemma {:induction false} RowsRetired(s: Store, t: Store, i: Intent, at: real)
    requires RowsCoupled(s) && Holds(s.records, i.runId) == Rows(i, Active) && ResourceId(i.runId) in s.resources
    requires t.resources == RetireResource(s.resources, ResourceId(i.runId), at)
    requires t.uses == RetireUses(s.uses, ResourceId(i.runId), at)
    requires forall run :: Holds(t.records, run) == if run == i.runId then Rows(i, Retired) else Holds(s.records, run)
    ensures RowsCoupled(t)
  {
    forall run ensures ResourceCoupled(t.resources, run, Holds(t.records, run)) && UseCoupled(t.uses, run, Holds(t.records, run)) {
      SameResourceId(run, i.runId);
      assert ResourceCoupled(s.resources, run, Holds(s.records, run)) && UseCoupled(s.uses, run, Holds(s.records, run));
    }
  }

  // ------------------------------------------------------------- one transition

  /** A record may be rewritten in place while what it holds stays. */
  lemma {:induction false} RewriteCoupled(s: Store, run: string, r: Record)
    requires RowsCoupled(s) && run in s.records
    requires Holds(map[run := r], run) == Holds(map[run := s.records[run]], run)
    ensures RowsCoupled(s.(records := s.records[run := r]))
  {
    var t := s.(records := s.records[run := r]);
    forall other ensures Holds(t.records, other) == Holds(s.records, other) {
      if other == run {
        assert Holds(t.records, run) == Holds(map[run := r], run);
        assert Holds(s.records, run) == Holds(map[run := s.records[run]], run);
      }
    }
    HoldingsDecide(s, t);
  }

  lemma {:induction false} SaveKept(s: Store, run: string, r: Record, admitted: bool)
    requires Coupled(s) && run in s.records && Valid(r) && r.intent == s.records[run].intent && r.intent.runId == run
    requires r.registryId == s.records[run].registryId
    requires Holds(map[run := r], run) == Holds(map[run := s.records[run]], run)
    ensures Kept(Save(s, r, admitted))
  {
    RewriteCoupled(s, run, r);
    PutSound(s, run, r);
  }

  lemma {:induction false} BeginKept(s: Store, i: Intent, admitted: bool)
    requires Coupled(s)
    ensures Kept(Begin(s, i, admitted))
  {
    var result := Begin(s, i, admitted);
    if result.Ok? {
      var t := result.value;
      PutSound(s, i.runId, FreshRecord(s.owner, i));
      assert forall other :: Holds(t.records, other) == Holds(s.records, other);
      HoldingsDecide(s, t);
    }
  }

  lemma {:induction false} RequestCreateKept(s: Store, run: string, at: Time, admitted: bool)
    requires Coupled(s)
    ensures Kept(RequestCreate(s, run, at, admitted))
  {
    FindSound(s, run);
    if RequestCreate(s, run, at, true).Ok? {
      var r := s.records[run];
      SaveKept(s, run, r.(createRequested := Some(true), updatedAt := Max(r.updatedAt, at.value)), admitted);
    }
  }

  lemma {:induction false} MarkUncertainKept(s: Store, run: string, at: Time, admitted: bool)
    requires Coupled(s)
    ensures Kept(MarkUncertain(s, run, at, admitted))
  {
    FindSound(s, run);
    if MarkUncertain(s, run, at, true).Ok? {
      SaveKept(s, run, s.records[run].(createRequested := Some(true), updatedAt := at.value), admitted);
    }
  }

  lemma {:induction false} ClaimKept(s: Store, i: Intent, o: Observation, token: string, at: Time, admitted: bool)
    requires Coupled(s)
    ensures Kept(Claim(s, i, o, token, at, admitted))
  {
    FindSound(s, i.runId);
    if Claim(s, i, o, token, at, true).Ok? {
      SaveKept(s, i.runId, s.records[i.runId].(claim := Some(token), updatedAt := at.value), admitted);
    }
  }

  lemma {:induction false} ClaimSpareKept(s: Store, run: string, o: Observation, from: string, token: string, b: Binding, at: Time, admitted: bool)
    requires Coupled(s)
    ensures Kept(ClaimSpare(s, run, o, from, token, b, at, admitted))
  {
    FindSound(s, run);
    if ClaimSpare(s, run, o, from, token, b, at, true).Ok? {
      SaveKept(s, run, s.records[run].(claim := Some(token), binding := Some(b), updatedAt := at.value), admitted);
    }
  }

  lemma {:induction false} RecordKept(s: Store, run: string, token: string, outcome: Outcome, at: Time, admitted: bool)
    requires Coupled(s)
    ensures Kept(RecordExecution(s, run, token, outcome, at, admitted))
  {
    FindSound(s, run);
    if RecordExecution(s, run, token, outcome, at, true).Ok? {
      SaveKept(s, run, s.records[run].(execution := Some(outcome), updatedAt := at.value), admitted);
    }
  }

  lemma {:induction false} CleanupKept(s: Store, run: string, token: Option<string>, outcome: Outcome, at: Time, admitted: bool)
    requires Coupled(s)
    ensures Kept(RequestCleanup(s, run, token, outcome, at, admitted))
  {
    FindSound(s, run);
    if Find(s, run).Ok? {
      var r := s.records[run];
      if CleanupGuard(r, token, outcome, at) {
        var next := r.(state := CleanupRequired, outcome := Some(outcome), updatedAt := at.value);
        CleanupValid(r, token, outcome, at);
        SaveKept(s, run, next, admitted);
      }
    }
  }

  predicate CleanupGuard(r: Record, token: Option<string>, outcome: Outcome, at: Time) {
    OnTime(r, at) && r.claim == token && (r.state.Pending? || r.state.Registered?) && (outcome.Passed? ==> r.execution == Some(Passed))
  }

  lemma {:induction false} CleanupValid(r: Record, token: Option<string>, outcome: Outcome, at: Time)
    requires Valid(r) && CleanupGuard(r, token, outcome, at)
    ensures Valid(r.(state := CleanupRequired, outcome := Some(outcome), updatedAt := at.value))
  {
  }

  lemma {:induction false} RegisterKept(s: Store, run: string, o: Observation, at: Time, recovery: bool, admitted: bool)
    requires Coupled(s)
    ensures Kept(Register(s, run, o, at, recovery, admitted))
  {
    FindSound(s, run);
    var result := Register(s, run, o, at, recovery, admitted);
    if result.Ok? {
      var r := s.records[run];
      var t := result.value;
      PutSound(WithRows(s, r.intent, at.value), run, t.records[run]);
      RowsAdded(s, t, r.intent, at.value);
    }
  }

  lemma {:induction false} FinalizeKept(s: Store, run: string, proof: Proof, at: Time, held: bool, helperHolds: bool, admitted: bool)
    requires Coupled(s)
    ensures Kept(Finalize(s, run, proof, at, held, helperHolds, admitted))
  {
    FindSound(s, run);
    var result := Finalize(s, run, proof, at, held, helperHolds, admitted);
    if result.Ok? {
      var r := s.records[run];
      var t := result.value;
      PutSound(s.(resources := t.resources, uses := t.uses), run, t.records[run]);
      if r.engineId.Some? {
        RowsRetired(s, t, r.intent, at.value);
      } else {
        HoldingsDecide(s, t);
      }
    }
  }

  lemma {:induction false} OutsideKept(s: Store, resources: map<string, Resource>, uses: map<UseKey, Use>)
    requires Coupled(s) && Elsewhere(s, resources, uses)
    ensures Coupled(s.(resources := resources, uses := uses))
  {
    var t := s.(resources := resources, uses := uses);
    forall run ensures ResourceCoupled(t.resources, run, Holds(t.records, run)) && UseCoupled(t.uses, run, Holds(t.records, run)) {
      assert ResourceCoupled(s.resources, run, Holds(s.records, run)) && UseCoupled(s.uses, run, Holds(s.records, run));
    }
  }

  /** One transaction: the coupling survives, and no snapshot that passed its guard is refused as malformed. */
  lemma {:induction false} StepKept(s: Store, c: Call)
    requires Coupled(s)
    ensures Kept(Step(s, c))
  {
    match c.op {
      case BeginOp(i) => BeginKept(s, i, c.admitted);
      case RequestCreateOp(run, at) => RequestCreateKept(s, run, at, c.admitted);
      case MarkUncertainOp(run, at) => MarkUncertainKept(s, run, at, c.admitted);
      case RegisterOp(run, o, at, recovery) => RegisterKept(s, run, o, at, recovery, c.admitted);
      case ClaimOp(i, o, token, at) => ClaimKept(s, i, o, token, at, c.admitted);
      case ClaimSpareOp(run, o, from, token, b, at) => ClaimSpareKept(s, run, o, from, token, b, at, c.admitted);
      case RecordOp(run, token, outcome, at) => RecordKept(s, run, token, outcome, at, c.admitted);
      case CleanupOp(run, token, outcome, at) => CleanupKept(s, run, token, outcome, at, c.admitted);
      case FinalizeOp(run, proof, at, held, helperHolds) => FinalizeKept(s, run, proof, at, held, helperHolds, c.admitted);
      case OutsideOp(resources, uses) =>
        if Elsewhere(s, resources, uses) {
          OutsideKept(s, resources, uses);
        }
    }
  }

  // ------------------------------------------------------------------ whole runs

  /** A refused transaction leaves the tables as they were. */
  ghost function Apply(s: Store, c: Call): Store {
    match Step(s, c)
    case Ok(t) => t
    case Err(_) => s
  }

  ghost function Execute(s: Store, calls: seq<Call>): Store {
    if calls == [] then s else Apply(Execute(s, calls[..|calls| - 1]), calls[|calls| - 1])
  }

  lemma {:induction false} EmptyCoupled(owner: string)
    requires IsUuid(owner)
    ensures Coupled(Empty(owner))
  {
    assert forall run :: Holds(map[], run) == Nothing;
  }

  /** Over every interleaving of calls on any number of runs. */
  lemma {:induction false} RunsStayCoupled(s: Store, calls: seq<Call>)
    requires Coupled(s)
    ensures Coupled(Execute(s, calls))
  {
    if calls != [] {
      RunsStayCoupled(s, calls[..|calls| - 1]);
      StepKept(Execute(s, calls[..|calls| - 1]), calls[|calls| - 1]);
    }
  }

  /** What a run owns: its record and its rows. */
  ghost predicate SameRun(s: Store, t: Store, run: string) {
    && (run in s.records <==> run in t.records)
    && (run in s.records ==> s.records[run] == t.records[run])
    && (ResourceId(run) in s.resources <==> ResourceId(run) in t.resources)
    && (ResourceId(run) in s.resources ==> s.resources[ResourceId(run)] == t.resources[ResourceId(run)])
    && (forall key: UseKey :: key.resource == ResourceId(run) ==> (key in s.uses <==> key in t.uses))
    && (forall key: UseKey :: key.resource == ResourceId(run) && key in s.uses && key in t.uses ==> s.uses[key] == t.uses[key])
  }

  lemma {:induction false} StartTouches(s: Store, c: Call, run: string)
    requires RecordsSound(s) && Target(c.op) != Some(run) && Step(s, c).Ok?
    requires c.op.BeginOp? || c.op.RequestCreateOp? || c.op.MarkUncertainOp?
    ensures SameRun(s, Step(s, c).value, run)
  {
    FindSound(s, Target(c.op).value);
  }

  lemma {:induction false} ClaimTouches(s: Store, c: Call, run: string)
    requires RecordsSound(s) && Target(c.op) != Some(run) && Step(s, c).Ok? && (c.op.ClaimOp? || c.op.ClaimSpareOp?)
    ensures SameRun(s, Step(s, c).value, run)
  {
    FindSound(s, Target(c.op).value);
  }

  lemma {:induction false} EndTouches(s: Store, c: Call, run: string)
    requires RecordsSound(s) && Target(c.op) != Some(run) && Step(s, c).Ok? && (c.op.RecordOp? || c.op.CleanupOp?)
    ensures SameRun(s, Step(s, c).value, run)
  {
    FindSound(s, Target(c.op).value);
  }

  lemma {:induction false} RegisterTouches(s: Store, target: string, o: Observation, at: Time, recovery: bool, admitted: bool, run: string)
    requires RecordsSound(s) && target != run && Register(s, target, o, at, recovery, admitted).Ok?
    ensures SameRun(s, Register(s, target, o, at, recovery, admitted).value, run)
  {
    FindSound(s, target);
    SameResourceId(run, target);
    var r := s.records[target];
    assert EngineUse(r.intent).resource == ResourceId(target);
  }

  lemma {:induction false} FinalizeTouches(s: Store, target: string, proof: Proof, at: Time, held: bool, helperHolds: bool, admitted: bool, run: string)
    requires RecordsSound(s) && target != run && Finalize(s, target, proof, at, held, helperHolds, admitted).Ok?
    ensures SameRun(s, Finalize(s, target, proof, at, held, helperHolds, admitted).value, run)
  {
    FindSound(s, target);
    SameResourceId(run, target);
  }

  /** No call touches the record or the rows of a run it does not address. */
  lemma {:induction false} OthersUntouched(s: Store, c: Call, run: string)
    requires Coupled(s) && Target(c.op) != Some(run)
    ensures SameRun(s, Apply(s, c), run)
  {
    if Step(s, c).Ok? {
      match c.op {
        case RegisterOp(target, o, at, recovery) => RegisterTouches(s, target, o, at, recovery, c.admitted, run);
        case FinalizeOp(target, proof, at, held, helperHolds) => FinalizeTouches(s, target, proof, at, held, helperHolds, c.admitted, run);
        case OutsideOp(resources, uses) =>
        case ClaimOp(_, _, _, _) => ClaimTouches(s, c, run);
        case ClaimSpareOp(_, _, _, _, _, _) => ClaimTouches(s, c, run);
        case RecordOp(_, _, _, _) => EndTouches(s, c, run);
        case CleanupOp(_, _, _, _) => EndTouches(s, c, run);
        case _ => StartTouches(s, c, run);
      }
    }
  }

  /** Registered rows never go missing: a requested cleanup is refused only for a stated outside reason. */
  lemma {:induction false} FinalizeExact(s: Store, run: string, proof: Proof, at: Time, held: bool, helperHolds: bool, admitted: bool)
    requires Coupled(s)
    ensures Finalize(s, run, proof, at, held, helperHolds, admitted).Ok? <==>
            && CanonicalRun(run) && run in s.records && s.records[run].state.CleanupRequired?
            && OnTime(s.records[run], at)
            && proof == Proof(StorageVolume(s.records[run].intent), EngineName(run), s.records[run].engineId)
            && (StorageVolume(s.records[run].intent).Some? ==> !helperHolds)
            && (s.records[run].engineId.Some? ==> !held)
            && admitted
  {
    FindSound(s, run);
    FinalizeKept(s, run, proof, at, held, helperHolds, admitted);
    assert ResourceCoupled(s.resources, run, Holds(s.records, run)) && UseCoupled(s.uses, run, Holds(s.records, run));
  }
}
