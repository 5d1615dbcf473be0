/** The registry transactions as they run: load a record, change it, write it back with its rows. */
module ActRegistry {
  import opened Common
  import opened ActEngine
  import opened ActCoupling
  import opened ActHistory

  // ------------------------------------- what a coupled registry lets through, exactly

  /** The engine in front of us is the one this record speaks of. */
  predicate Recognised(r: Record, o: Observation) {
    && o.name == "bosn-act-" + r.intent.runId && o.image == r.intent.engineImage && o.labelled
    && Hex(o.engineId, 64) && (r.engineId.Some? ==> r.engineId.value == o.engineId)
  }

  /** No container row goes by this engine's name. */
  predicate NameFree(resources: map<string, Resource>, run: string) {
    forall id :: id in resources && resources[id].kind.Container? ==> resources[id].name != "bosn-act-" + run
  }

  lemma {:induction false} VerifyExact(s: Store, run: string, o: Observation)
    requires RecordsSound(s)
    ensures Verify(s, run, o).Ok? <==> run in s.records && Recognised(s.records[run], o)
    ensures Verify(s, run, o).Ok? ==> Verify(s, run, o).value == s.records[run]
    ensures Verify(s, run, o).Err? ==>
              Verify(s, run, o).error == if !CanonicalRun(run) then BadRun else if run in s.records then Conflict else Missing
  {
    FindSound(s, run);
  }

  /** The tables with one more snapshot. */
  function Put(s: Store, r: Record): Store {
    s.(records := s.records[r.intent.runId := r])
  }

  lemma {:induction false} BeginExact(s: Store, i: Intent, admitted: bool)
    requires Coupled(s)
    ensures Begin(s, i, admitted).Ok? <==> ValidIntent(i) && i.profile.Some? && i.runId !in s.records && admitted
    ensures Begin(s, i, admitted).Ok? ==> Begin(s, i, admitted).value == Put(s, FreshRecord(s.owner, i))
  {
    BeginKept(s, i, admitted);
    FindSound(s, i.runId);
  }

  predicate Creatable(r: Record, at: Time) {
    r.state.Pending? && at.Finite?
  }

  lemma {:induction false} RequestCreateExact(s: Store, run: string, at: Time, admitted: bool)
    requires Coupled(s)
    ensures RequestCreate(s, run, at, admitted).Ok? <==> run in s.records && Creatable(s.records[run], at) && admitted
    ensures RequestCreate(s, run, at, admitted).Ok? ==>
              RequestCreate(s, run, at, admitted).value == Put(s, s.records[run].(createRequested := Some(true), updatedAt := if s.records[run].updatedAt < at.value then at.value else s.records[run].updatedAt))
  {
    RequestCreateKept(s, run, at, admitted);
    FindSound(s, run);
  }

  predicate Doubtful(r: Record, at: Time) {
    r.state.CleanupRequired? && r.engineId.None? && r.createRequested.None? && at.Finite? && at.value >= r.updatedAt
  }

  lemma {:induction false} MarkUncertainExact(s: Store, run: string, at: Time, admitted: bool)
    requires Coupled(s)
    ensures MarkUncertain(s, run, at, admitted).Ok? <==> run in s.records && Doubtful(s.records[run], at) && admitted
    ensures MarkUncertain(s, run, at, admitted).Ok? ==>
              MarkUncertain(s, run, at, admitted).value == Put(s, s.records[run].(createRequested := Some(true), updatedAt := at.value))
  {
    MarkUncertainKept(s, run, at, admitted);
    FindSound(s, run);
  }

  predicate Registrable(r: Record, o: Observation, at: Time, recovery: bool) {
    && Recognised(r, o) && at.Finite? && at.value >= r.updatedAt
    && r.state == (if recovery then CleanupRequired else Pending) && r.engineId.None?
  }

  lemma {:induction false} RegisterExact(s: Store, run: string, o: Observation, at: Time, recovery: bool, admitted: bool)
    requires Coupled(s)
    ensures Register(s, run, o, at, recovery, admitted).Ok? <==>
            run in s.records && Registrable(s.records[run], o, at, recovery) && NameFree(s.resources, run) && admitted
    ensures Register(s, run, o, at, recovery, admitted).Ok? ==>
              Register(s, run, o, at, recovery, admitted).value == Put(WithRows(s, s.records[run].intent, at.value),
                  s.records[run].(state := if recovery then CleanupRequired else Registered, engineId := Some(o.engineId), updatedAt := at.value))
    ensures Register(s, run, o, at, recovery, admitted).Ok? ==>
              var i, rows := s.records[run].intent, Register(s, run, o, at, recovery, admitted).value.resources;
              rows == s.resources["act-engine:" + run :=
                Resource(Container, "bosn-act-" + run, "act", run, SpecScope, i.workspace, i.createdAt.value, at.value, Active, Warm)]
  {
    RegisterKept(s, run, o, at, recovery, admitted);
    VerifyExact(s, run, o);
    assert ResourceCoupled(s.resources, run, Holds(s.records, run));
  }

  predicate Claimable(r: Record, i: Intent, o: Observation, token: string, at: Time) {
    && r.intent == i && i.profile.Some? && Recognised(r, o) && at.Finite? && at.value >= r.updatedAt
    && r.state.Registered? && r.claim.None? && CanonicalRun(token)
  }

  lemma {:induction false} ClaimExact(s: Store, i: Intent, o: Observation, token: string, at: Time, admitted: bool)
    requires Coupled(s)
    ensures Claim(s, i, o, token, at, admitted).Ok? <==>
            i.runId in s.records && Claimable(s.records[i.runId], i, o, token, at) && admitted
    ensures Claim(s, i, o, token, at, admitted).Ok? ==>
              Claim(s, i, o, token, at, admitted).value == Put(s, s.records[i.runId].(claim := Some(token), updatedAt := at.value))
  {
    ClaimKept(s, i, o, token, at, admitted);
    VerifyExact(s, i.runId, o);
    FindSound(s, i.runId);
  }

  predicate HandedOver(r: Record, o: Observation, from: string, token: string, b: Binding, at: Time) {
    && r.intent.spare && Recognised(r, o) && at.Finite? && at.value >= r.updatedAt && r.state.Registered? && r.execution.None?
    && r.claim == Some(from) && from != token && CanonicalRun(token) && r.binding.None? && ValidBinding(b)
  }

  lemma {:induction false} ClaimSpareExact(s: Store, run: string, o: Observation, from: string, token: string, b: Binding, at: Time, admitted: bool)
    requires Coupled(s)
    ensures ClaimSpare(s, run, o, from, token, b, at, admitted).Ok? <==>
            run in s.records && HandedOver(s.records[run], o, from, token, b, at) && admitted
    ensures ClaimSpare(s, run, o, from, token, b, at, admitted).Ok? ==>
              ClaimSpare(s, run, o, from, token, b, at, admitted).value == Put(s, s.records[run].(claim := Some(token), binding := Some(b), updatedAt := at.value))
  {
    ClaimSpareKept(s, run, o, from, token, b, at, admitted);
    VerifyExact(s, run, o);
    FindSound(s, run);
  }

  predicate Recordable(r: Record, token: string, at: Time) {
    r.intent.profile.Some? && at.Finite? && at.value >= r.updatedAt && r.state.Registered? && r.claim == Some(token) && r.execution.None?
  }

  lemma {:induction false} RecordExact(s: Store, run: string, token: string, outcome: Outcome, at: Time, admitted: bool)
    requires Coupled(s)
    ensures RecordExecution(s, run, token, outcome, at, admitted).Ok? <==>
            run in s.records && Recordable(s.records[run], token, at) && admitted
    ensures RecordExecution(s, run, token, outcome, at, admitted).Ok? ==>
              RecordExecution(s, run, token, outcome, at, admitted).value == Put(s, s.records[run].(execution := Some(outcome), updatedAt := at.value))
  {
    RecordKept(s, run, token, outcome, at, admitted);
    FindSound(s, run);
  }

  predicate Cleanable(r: Record, token: Option<string>, outcome: Outcome, at: Time) {
    && at.Finite? && at.value >= r.updatedAt && (r.state.Pending? || r.state.Registered?) && r.claim == token
    && (outcome.Passed? ==> r.execution == Some(Passed))
  }

  lemma {:induction false} CleanupExact(s: Store, run: string, token: Option<string>, outcome: Outcome, at: Time, admitted: bool)
    requires Coupled(s)
    ensures RequestCleanup(s, run, token, outcome, at, admitted).Ok? <==>
            run in s.records && Cleanable(s.records[run], token, outcome, at) && admitted
    ensures RequestCleanup(s, run, token, outcome, at, admitted).Ok? ==>
              RequestCleanup(s, run, token, outcome, at, admitted).value == Put(s, s.records[run].(state := CleanupRequired, outcome := Some(outcome), updatedAt := at.value))
  {
    CleanupKept(s, run, token, outcome, at, admitted);
    FindSound(s, run);
  }

  /** The engine was created with its storage on a named volume. */
  predicate KeepsStorage(r: Record) {
    r.intent.profile.Some? && r.intent.profile.value.policy.NamedDiskStorage?
  }

  predicate Removable(r: Record, proof: Proof, at: Time, held: bool, helperHolds: bool) {
    && r.state.CleanupRequired? && at.Finite? && at.value >= r.updatedAt
    && proof == Proof(if KeepsStorage(r) then Some("bosn-act-storage-" + r.intent.runId) else None, "bosn-act-" + r.intent.runId, r.engineId)
    && (KeepsStorage(r) ==> !helperHolds)
    && (r.engineId.Some? ==> !held)
  }

  /** In a coupled registry retiring an engine's uses rewrites its one use row. */
  lemma {:induction false} OneUseRetired(s: Store, run: string, at: real)
    requires Coupled(s) && run in s.records && s.records[run].engineId.Some?
    ensures RetireUses(s.uses, ResourceId(run), at) == s.uses[EngineUse(s.records[run].intent) := Use(at, Retired)]
  {
    assert UseCoupled(s.uses, run, Holds(s.records, run));
    assert EngineUse(s.records[run].intent).resource == ResourceId(run);
  }

  /** What an accepted removal leaves: the engine's rows retired, if it had any. */
  function WithoutRows(s: Store, r: Record, at: real): Store {
    if r.engineId.None? then s
    else s.(resources := s.resources[ResourceId(r.intent.runId) := EngineRow(r.intent, at, Retired)],
            uses := s.uses[EngineUse(r.intent) := Use(at, Retired)])
  }

  lemma {:induction false} RemoveExact(s: Store, run: string, proof: Proof, at: Time, held: bool, helperHolds: bool, admitted: bool)
    requires Coupled(s)
    ensures Finalize(s, run, proof, at, held, helperHolds, admitted).Ok? <==>
            run in s.records && Removable(s.records[run], proof, at, held, helperHolds) && admitted
    ensures Finalize(s, run, proof, at, held, helperHolds, admitted).Ok? ==>
              Finalize(s, run, proof, at, held, helperHolds, admitted).value ==
              Put(WithoutRows(s, s.records[run], at.value), s.records[run].(removal := Some(proof), state := Terminal, updatedAt := at.value))
  {
    FinalizeExact(s, run, proof, at, held, helperHolds, admitted);
    FindSound(s, run);
    if Finalize(s, run, proof, at, held, helperHolds, admitted).Ok? && s.records[run].engineId.Some? {
      OneUseRetired(s, run, at.value);
      assert ResourceCoupled(s.resources, run, Holds(s.records, run));
    }
  }

  // --------------------------------------------------------------- one transaction

  /** A transaction did what `spec` says, or was rolled back with its problem. */
  ghost predicate Did(before: Store, after: Store, p: Option<Problem>, spec: Result<Store, Problem>) {
    match spec
    case Ok(t) => p.None? && after == t
    case Err(e) => p == Some(e) && after == before
  }

  /** What every transaction leaves behind, accepted or not. */
  lemma {:induction false} Committed(owner: string, log: seq<Call>, s: Store, c: Call, t: Store, p: Option<Problem>)
    requires s == Execute(Empty(owner), log) && Coupled(s) && Did(s, t, p, Step(s, c))
    ensures t == Execute(Empty(owner), log + [c]) && Coupled(t)
    ensures p.Some? ==> !Broken(p.value) && t == s
    ensures forall other :: Target(c.op) != Some(other) ==> SameRun(s, t, other)
  {
    var next := log + [c];
    assert next[..|next| - 1] == log && next[|next| - 1] == c;
    StepKept(s, c);
    forall other | Target(c.op) != Some(other) ensures SameRun(s, t, other) {
      OthersUntouched(s, c, other);
    }
  }

  /**
   * The registry. `log` is every transaction so far, in the order they ran; the tables are what that
   * log makes of an empty registry, so what is proved of every run of calls holds of every object.
   */
  class Registry {
    const owner: string
    var records: map<string, Record>
    var resources: map<string, Resource>
    var uses: map<UseKey, Use>
    ghost var log: seq<Call>

    ghost predicate Valid()
      reads this
    {
      IsUuid(owner) && Coupled(Contents()) && Contents() == Execute(Empty(owner), log)
    }

    constructor (owner: string)
      requires IsUuid(owner)
      ensures Valid() && log == [] && Contents() == Empty(owner)
    {
      this.owner := owner;
      records, resources, uses, log := map[], map[], map[], [];
      EmptyCoupled(owner);
    }

    function Contents(): Store
      reads this
    {
      Store(owner, records, resources, uses)
    }

    // ------------------------------------------------- the steps of each transaction

    method ReadRecord(run: string) returns (r: Result<Option<Record>, Problem>)
      ensures r == Load(Contents(), run)
    {
      if !CanonicalRun(run) {
        return Err(BadRun);
      }
      if run !in records {
        return Ok(None);
      }
      var record := records[run];
      if !ActEngine.Valid(record) || record.intent.runId != run {
        return Err(CorruptRow);
      }
      if record.registryId != owner {
        return Err(Conflict);
      }
      return Ok(Some(record));
    }

    method FindRecord(run: string) returns (r: Result<Record, Problem>)
      ensures r == Find(Contents(), run)
    {
      var loaded := ReadRecord(run);
      match loaded {
        case Err(e) => return Err(e);
        case Ok(None) => return Err(Missing);
        case Ok(Some(record)) => return Ok(record);
      }
    }

    method CheckEngine(run: string, o: Observation) returns (r: Result<Record, Problem>)
      ensures r == Verify(Contents(), run, o)
    {
      r := FindRecord(run);
      if r.Ok? {
        var record := r.value;
        if || o.name != EngineName(record.intent.runId)
           || !Hex(o.engineId, 64)
           || o.image != record.intent.engineImage
           || (record.engineId.Some? && record.engineId.value != o.engineId)
           || !o.labelled {
          r := Err(Conflict);
        }
      }
    }

    method StoreRecord(record: Record, admitted: bool) returns (p: Option<Problem>)
      modifies this`records
      ensures Did(old(Contents()), Contents(), p, Save(old(Contents()), record, admitted))
    {
      if !ActEngine.Valid(record) {
        return Some(BadSnapshot);
      }
      if !admitted {
        return Some(StorageRefused);
      }
      records := records[record.intent.runId := record];
      return None;
    }

    method TryBegin(i: Intent, admitted: bool) returns (p: Option<Problem>)
      modifies this`records, this`resources, this`uses
      ensures Did(old(Contents()), Contents(), p, Begin(old(Contents()), i, admitted))
    {
      if !ValidIntent(i) {
        return Some(BadIntent);
      }
      if i.profile.None? {
        return Some(NeedsProfile);
      }
      var loaded := ReadRecord(i.runId);
      if loaded.Err? {
        return Some(loaded.error);
      }
      if loaded.value.Some? {
        return Some(Conflict);
      }
      p := StoreRecord(FreshRecord(owner, i), admitted);
    }

    method TryRequestCreate(run: string, at: Time, admitted: bool) returns (p: Option<Problem>)
      modifies this`records, this`resources, this`uses
      ensures Did(old(Contents()), Contents(), p, RequestCreate(old(Contents()), run, at, admitted))
    {
      var found := FindRecord(run);
      if found.Err? {
        return Some(found.error);
      }
      var record := found.value;
      if !record.state.Pending? || record.engineId.Some? || at.NotFinite? {
        return Some(OutOfOrder);
      }
      record := record.(createRequested := Some(true));
      record := record.(updatedAt := Max(record.updatedAt, at.value));
      p := StoreRecord(record, admitted);
    }

    method TryMarkUncertain(run: string, at: Time, admitted: bool) returns (p: Option<Problem>)
      modifies this`records, this`resources, this`uses
      ensures Did(old(Contents()), Contents(), p, MarkUncertain(old(Contents()), run, at, admitted))
    {
      var found := FindRecord(run);
      if found.Err? {
        return Some(found.error);
      }
      var record := found.value;
      if !record.state.CleanupRequired? || record.engineId.Some? || record.createRequested.Some? || !OnTime(record, at) {
        return Some(OutOfOrder);
      }
      record := record.(createRequested := Some(true));
      record := record.(updatedAt := at.value);
      p := StoreRecord(record, admitted);
    }

    /** Rows first, then the snapshot; a refused snapshot takes the rows back out. */
    method TryRegister(run: string, o: Observation, at: Time, recovery: bool, admitted: bool) returns (p: Option<Problem>)
      modifies this`records, this`resources, this`uses
      ensures Did(old(Contents()), Contents(), p, Register(old(Contents()), run, o, at, recovery, admitted))
    {
      var verified := CheckEngine(run, o);
      if verified.Err? {
        return Some(verified.error);
      }
      var record := verified.value;
      if !OnTime(record, at) {
        return Some(BadTime);
      }
      var expected := if recovery then CleanupRequired else Pending;
      if record.state != expected || record.engineId.Some? {
        return Some(OutOfOrder);
      }
      if Occupied(Contents(), run) {
        return Some(Conflict);
      }
      var savedResources, savedUses := resources, uses;
      resources := resources[ResourceId(record.intent.runId) := EngineRow(record.intent, at.value, Active)];
      uses := uses[EngineUse(record.intent) := Use(at.value, Active)];
      if !recovery {
        record := record.(state := Registered);
      }
      record := record.(engineId := Some(o.engineId));
      record := record.(updatedAt := at.value);
      p := StoreRecord(record, admitted);
      if p.Some? {
        resources, uses := savedResources, savedUses;
      }
    }

    method TryClaim(i: Intent, o: Observation, token: string, at: Time, admitted: bool) returns (p: Option<Problem>)
      modifies this`records, this`resources, this`uses
      ensures Did(old(Contents()), Contents(), p, Claim(old(Contents()), i, o, token, at, admitted))
    {
      if !CanonicalRun(token) {
        return Some(BadRun);
      }
      var verified := CheckEngine(i.runId, o);
      if verified.Err? {
        return Some(verified.error);
      }
      var record := verified.value;
      if !OnTime(record, at) {
        return Some(BadTime);
      }
      if record.schema != 3 || record.intent != i || !record.state.Registered? || record.execution.Some? || record.claim.Some? {
        return Some(OutOfOrder);
      }
      record := record.(claim := Some(token));
      record := record.(updatedAt := at.value);
      p := StoreRecord(record, admitted);
    }

    method TryHandOver(spare: string, o: Observation, from: string, token: string, b: Binding, at: Time, admitted: bool) returns (p: Option<Problem>)
      modifies this`records, this`resources, this`uses
      ensures Did(old(Contents()), Contents(), p, ClaimSpare(old(Contents()), spare, o, from, token, b, at, admitted))
    {
      if !CanonicalRun(from) || !CanonicalRun(token) {
        return Some(BadRun);
      }
      if !ValidBinding(b) {
        return Some(BadBinding);
      }
      var verified := CheckEngine(spare, o);
      if verified.Err? {
        return Some(verified.error);
      }
      var record := verified.value;
      if !OnTime(record, at) {
        return Some(BadTime);
      }
      if || !record.intent.spare || record.schema != 3 || !record.state.Registered? || record.execution.Some?
         || record.binding.Some? || record.claim != Some(from) || from == token {
        return Some(OutOfOrder);
      }
      record := record.(claim := Some(token));
      record := record.(binding := Some(b));
      record := record.(updatedAt := at.value);
      p := StoreRecord(record, admitted);
    }

    method TryRecord(run: string, token: string, outcome: Outcome, at: Time, admitted: bool) returns (p: Option<Problem>)
      modifies this`records, this`resources, this`uses
      ensures Did(old(Contents()), Contents(), p, RecordExecution(old(Contents()), run, token, outcome, at, admitted))
    {
      var found := FindRecord(run);
      if found.Err? {
        return Some(found.error);
      }
      var record := found.value;
      if !OnTime(record, at) {
        return Some(BadTime);
      }
      if !Owns(record, token) {
        return Some(NotOwner);
      }
      if record.schema != 3 || !record.state.Registered? || record.execution.Some? {
        return Some(OutOfOrder);
      }
      record := record.(execution := Some(outcome));
      record := record.(updatedAt := at.value);
      p := StoreRecord(record, admitted);
    }

    method TryRequestCleanup(run: string, token: Option<string>, outcome: Outcome, at: Time, admitted: bool) returns (p: Option<Problem>)
      modifies this`records, this`resources, this`uses
      ensures Did(old(Contents()), Contents(), p, RequestCleanup(old(Contents()), run, token, outcome, at, admitted))
    {
      var found := FindRecord(run);
      if found.Err? {
        return Some(found.error);
      }
      var record := found.value;
      if token.Some? && !Owns(record, token.value) {
        return Some(NotOwner);
      }
      if !OnTime(record, at) {
        return Some(BadTime);
      }
      if || record.claim != token
         || !(record.state.Pending? || record.state.Registered?)
         || (outcome.Passed? && record.execution != Some(Passed)) {
        return Some(OutOfOrder);
      }
      record := record.(state := CleanupRequired);
      record := record.(outcome := Some(outcome));
      record := record.(updatedAt := at.value);
      p := StoreRecord(record, admitted);
    }

    method RetireEngineRows(i: Intent, at: real)
      requires ResourceId(i.runId) in resources
      modifies this`resources, this`uses
      ensures resources == RetireResource(old(resources), ResourceId(i.runId), at)
      ensures uses == RetireUses(old(uses), ResourceId(i.runId), at)
    {
      var id := ResourceId(i.runId);
      uses := map key | key in uses :: if key.resource == id then Use(at, Retired) else uses[key];
      resources := resources[id := resources[id].(state := Retired, lastUsed := at)];
    }

    method TryFinalize(run: string, proof: Proof, at: Time, held: bool, helperHolds: bool, admitted: bool) returns (p: Option<Problem>)
      modifies this`records, this`resources, this`uses
      ensures Did(old(Contents()), Contents(), p, Finalize(old(Contents()), run, proof, at, held, helperHolds, admitted))
    {
      var found := FindRecord(run);
      if found.Err? {
        return Some(found.error);
      }
      var record := found.value;
      if !OnTime(record, at) {
        return Some(BadTime);
      }
      if || !record.state.CleanupRequired?
         || proof != Proof(StorageVolume(record.intent), EngineName(record.intent.runId), record.engineId)
         || (StorageVolume(record.intent).Some? && helperHolds) {
        return Some(OutOfOrder);
      }
      var savedResources, savedUses := resources, uses;
      if record.engineId.Some? {
        if !Retirable(resources, uses, record.intent, held) {
          return Some(Conflict);
        }
        RetireEngineRows(record.intent, at.value);
      }
      record := record.(removal := Some(proof));
      record := record.(state := Terminal);
      record := record.(updatedAt := at.value);
      p := StoreRecord(record, admitted);
      if p.Some? {
        resources, uses := savedResources, savedUses;
      }
    }

    // --------------------------------------- the transactions on a valid registry

    /** A valid registry answers with the stored record: no row is malformed or another registry's. */
    method LoadRecord(run: string) returns (r: Result<Option<Record>, Problem>)
      requires Valid()
      ensures r == if !CanonicalRun(run) then Err(BadRun) else Ok(if run in records then Some(records[run]) else None)
      ensures run in records ==> CanonicalRun(run) && ActEngine.Valid(records[run]) && records[run].intent.runId == run
    {
      FindSound(Contents(), run);
      r := ReadRecord(run);
    }

    /** An observation is accepted exactly for the engine the stored record speaks of. */
    method VerifyEngine(run: string, o: Observation) returns (r: Result<Record, Problem>)
      requires Valid()
      ensures r.Ok? <==> run in records && Recognised(records[run], o)
      ensures r.Ok? ==> r.value == records[run]
      ensures r.Err? ==> r.error == if !CanonicalRun(run) then BadRun else if run in records then Conflict else Missing
    {
      VerifyExact(Contents(), run, o);
      r := CheckEngine(run, o);
    }

    method BeginEngine(i: Intent, admitted: bool) returns (p: Option<Problem>)
      requires Valid()
      modifies this
      ensures Valid() && log == old(log) + [Call(BeginOp(i), admitted)]
      ensures p.None? <==> ValidIntent(i) && i.profile.Some? && i.runId !in old(records) && admitted
      ensures p.None? ==> records == old(records)[i.runId := FreshRecord(owner, i)]
      ensures p.Some? ==> !Broken(p.value) && records == old(records)
      ensures resources == old(resources) && uses == old(uses)
    {
      ghost var before, c := Contents(), Call(BeginOp(i), admitted);
      BeginExact(before, i, admitted);
      p := TryBegin(i, admitted);
      Committed(owner, log, before, c, Contents(), p);
      log := log + [c];
    }

    method RequestEngineCreate(run: string, at: Time, admitted: bool) returns (p: Option<Problem>)
      requires Valid()
      modifies this
      ensures Valid() && log == old(log) + [Call(RequestCreateOp(run, at), admitted)]
      ensures p.None? <==> run in old(records) && Creatable(old(records)[run], at) && admitted
      ensures p.None? ==>
                records == old(records)[run := old(records)[run].(createRequested := Some(true), updatedAt := Max(old(records)[run].updatedAt, at.value))]
      ensures p.Some? ==> !Broken(p.value) && records == old(records)
      ensures resources == old(resources) && uses == old(uses)
    {
      ghost var before, c := Contents(), Call(RequestCreateOp(run, at), admitted);
      RequestCreateExact(before, run, at, admitted);
      FindSound(before, run);
      p := TryRequestCreate(run, at, admitted);
      Committed(owner, log, before, c, Contents(), p);
      log := log + [c];
    }

    method MarkCreateUncertain(run: string, at: Time, admitted: bool) returns (p: Option<Problem>)
      requires Valid()
      modifies this
      ensures Valid() && log == old(log) + [Call(MarkUncertainOp(run, at), admitted)]
      ensures p.None? <==> run in old(records) && Doubtful(old(records)[run], at) && admitted
      ensures p.None? ==>
                records == old(records)[run := old(records)[run].(createRequested := Some(true), updatedAt := at.value)]
      ensures p.Some? ==> !Broken(p.value) && records == old(records)
      ensures resources == old(resources) && uses == old(uses)
    {
      ghost var before, c := Contents(), Call(MarkUncertainOp(run, at), admitted);
      MarkUncertainExact(before, run, at, admitted);
      FindSound(before, run);
      p := TryMarkUncertain(run, at, admitted);
      Committed(owner, log, before, c, Contents(), p);
      log := log + [c];
    }

    method RegisterIdentity(run: string, o: Observation, at: Time, recovery: bool, admitted: bool) returns (p: Option<Problem>)
      requires Valid()
      modifies this
      ensures Valid() && log == old(log) + [Call(RegisterOp(run, o, at, recovery), admitted)]
      ensures p.None? <==>
              run in old(records) && Registrable(old(records)[run], o, at, recovery) && NameFree(old(resources), run) && admitted
      ensures p.None? ==>
                var r := old(records)[run];
                && records == old(records)[run := r.(state := if recovery then CleanupRequired else Registered, engineId := Some(o.engineId), updatedAt := at.value)]
                && resources == old(resources)[ResourceId(run) := EngineRow(r.intent, at.value, Active)]
                && uses == old(uses)[EngineUse(r.intent) := Use(at.value, Active)]
      ensures p.Some? ==> !Broken(p.value) && Contents() == old(Contents())
      ensures forall other :: other != run ==> SameRun(old(Contents()), Contents(), other)
    {
      ghost var before, c := Contents(), Call(RegisterOp(run, o, at, recovery), admitted);
      RegisterExact(before, run, o, at, recovery, admitted);
      FindSound(before, run);
      p := TryRegister(run, o, at, recovery, admitted);
      Committed(owner, log, before, c, Contents(), p);
      log := log + [c];
    }

    method ClaimExecution(i: Intent, o: Observation, token: string, at: Time, admitted: bool) returns (p: Option<Problem>)
      requires Valid()
      modifies this
      ensures Valid() && log == old(log) + [Call(ClaimOp(i, o, token, at), admitted)]
      ensures p.None? <==> i.runId in old(records) && Claimable(old(records)[i.runId], i, o, token, at) && admitted
      ensures p.None? ==>
                records == old(records)[i.runId := old(records)[i.runId].(claim := Some(token), updatedAt := at.value)]
      ensures p.Some? ==> !Broken(p.value) && records == old(records)
      ensures resources == old(resources) && uses == old(uses)
    {
      ghost var before, c := Contents(), Call(ClaimOp(i, o, token, at), admitted);
      ClaimExact(before, i, o, token, at, admitted);
      FindSound(before, i.runId);
      p := TryClaim(i, o, token, at, admitted);
      Committed(owner, log, before, c, Contents(), p);
      log := log + [c];
    }

    method HandOverSpare(spare: string, o: Observation, from: string, token: string, b: Binding, at: Time, admitted: bool) returns (p: Option<Problem>)
      requires Valid()
      modifies this
      ensures Valid() && log == old(log) + [Call(ClaimSpareOp(spare, o, from, token, b, at), admitted)]
      ensures p.None? <==> spare in old(records) && HandedOver(old(records)[spare], o, from, token, b, at) && admitted
      ensures p.None? ==>
                records == old(records)[spare := old(records)[spare].(claim := Some(token), binding := Some(b), updatedAt := at.value)]
      ensures p.Some? ==> !Broken(p.value) && records == old(records)
      ensures resources == old(resources) && uses == old(uses)
    {
      ghost var before, c := Contents(), Call(ClaimSpareOp(spare, o, from, token, b, at), admitted);
      ClaimSpareExact(before, spare, o, from, token, b, at, admitted);
      FindSound(before, spare);
      p := TryHandOver(spare, o, from, token, b, at, admitted);
      Committed(owner, log, before, c, Contents(), p);
      log := log + [c];
    }

    method RecordRun(run: string, token: string, outcome: Outcome, at: Time, admitted: bool) returns (p: Option<Problem>)
      requires Valid()
      modifies this
      ensures Valid() && log == old(log) + [Call(RecordOp(run, token, outcome, at), admitted)]
      ensures p.None? <==> run in old(records) && Recordable(old(records)[run], token, at) && admitted
      ensures p.None? ==>
                records == old(records)[run := old(records)[run].(execution := Some(outcome), updatedAt := at.value)]
      ensures p.Some? ==> !Broken(p.value) && records == old(records)
      ensures resources == old(resources) && uses == old(uses)
    {
      ghost var before, c := Contents(), Call(RecordOp(run, token, outcome, at), admitted);
      RecordExact(before, run, token, outcome, at, admitted);
      FindSound(before, run);
      p := TryRecord(run, token, outcome, at, admitted);
      Committed(owner, log, before, c, Contents(), p);
      log := log + [c];
    }

    method RequestEngineCleanup(run: string, token: Option<string>, outcome: Outcome, at: Time, admitted: bool) returns (p: Option<Problem>)
      requires Valid()
      modifies this
      ensures Valid() && log == old(log) + [Call(CleanupOp(run, token, outcome, at), admitted)]
      ensures p.None? <==> run in old(records) && Cleanable(old(records)[run], token, outcome, at) && admitted
      ensures p.None? ==>
                records == old(records)[run := old(records)[run].(state := CleanupRequired, outcome := Some(outcome), updatedAt := at.value)]
      ensures p.Some? ==> !Broken(p.value) && records == old(records)
      ensures resources == old(resources) && uses == old(uses)
    {
      ghost var before, c := Contents(), Call(CleanupOp(run, token, outcome, at), admitted);
      CleanupExact(before, run, token, outcome, at, admitted);
      FindSound(before, run);
      p := TryRequestCleanup(run, token, outcome, at, admitted);
      Committed(owner, log, before, c, Contents(), p);
      log := log + [c];
    }

    method FinalizeCleanup(run: string, proof: Proof, at: Time, held: bool, helperHolds: bool, admitted: bool) returns (p: Option<Problem>)
      requires Valid()
      modifies this
      ensures Valid() && log == old(log) + [Call(FinalizeOp(run, proof, at, held, helperHolds), admitted)]
      ensures p.None? <==> run in old(records) && Removable(old(records)[run], proof, at, held, helperHolds) && admitted
      ensures p.None? ==>
                records == old(records)[run := old(records)[run].(removal := Some(proof), state := Terminal, updatedAt := at.value)]
      ensures p.None? && old(records)[run].engineId.None? ==> resources == old(resources) && uses == old(uses)
      ensures p.None? && old(records)[run].engineId.Some? ==>
                var i := old(records)[run].intent;
                && resources == old(resources)[ResourceId(run) := EngineRow(i, at.value, Retired)]
                && uses == old(uses)[EngineUse(i) := Use(at.value, Retired)]
      ensures p.Some? ==> !Broken(p.value) && Contents() == old(Contents())
      ensures forall other :: other != run ==> SameRun(old(Contents()), Contents(), other)
    {
      ghost var before, c := Contents(), Call(FinalizeOp(run, proof, at, held, helperHolds), admitted);
      RemoveExact(before, run, proof, at, held, helperHolds, admitted);
      FindSound(before, run);
      p := TryFinalize(run, proof, at, held, helperHolds, admitted);
      Committed(owner, log, before, c, Contents(), p);
      log := log + [c];
    }

    /** Another component's write to the shared tables, between two of the registry's own. */
    method WriteElsewhere(newResources: map<string, Resource>, newUses: map<UseKey, Use>)
      requires Valid() && Elsewhere(Contents(), newResources, newUses)
      modifies this
      ensures Valid() && log == old(log) + [Call(OutsideOp(newResources, newUses), true)]
      ensures records == old(records) && resources == newResources && uses == newUses
      ensures forall run :: SameRun(old(Contents()), Contents(), run)
    {
      ghost var before, c := Contents(), Call(OutsideOp(newResources, newUses), true);
      resources, uses := newResources, newUses;
      Committed(owner, log, before, c, Contents(), None);
      log := log + [c];
    }

    /**
     * A run this object ended as passed went, in this order and in this object's own log, through
     * its begin, its registration from pending, its claim, the recording, the cleanup request by the
     * claim's holder and the removal of that same engine.
     */
    lemma PassedInOrder(run: string) returns (b: nat, g: nat, c: nat, x: nat, k: nat, f: nat)
      requires Valid() && run in records && records[run].state.Terminal? && records[run].outcome == Some(Passed)
      ensures b < g < c < x < k < f < |log|
      ensures var r := records[run];
              && log[b].op == BeginOp(r.intent)
              && log[g].op.RegisterOp? && log[g].op.run == run && !log[g].op.recovery && r.engineId == Some(log[g].op.observed.engineId)
              && Target(log[c].op) == Some(run) && r.claim.Some? && ClaimToken(log[c].op) == r.claim
              && log[x].op.RecordOp? && log[x].op.run == run && log[x].op.outcome == Passed && Some(log[x].op.token) == r.claim
              && log[k].op.CleanupOp? && log[k].op.run == run && log[k].op.outcome == Passed && log[k].op.owner == r.claim
              && log[f].op.FinalizeOp? && log[f].op.run == run && log[f].op.proof.engineId == r.engineId
    {
      b, g, c, x, k, f := PassedHistory(owner, log, run);
    }
  }
}
