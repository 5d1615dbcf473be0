/** The durable ownership records of isolated Act engines, and the registry rows they hold. */
module ActEngine {
  import opened Common

  // -------------------------------------------------------------------- records

  /** A 64-bit float: a real number, or an infinity or NaN. */
  datatype Time = Finite(value: real) | NotFinite

  datatype TmpfsPolicy = StorageExec | DiskStorage | NamedDiskStorage

  /** A creation profile; `sound` is the verdict of its own field checks. */
  datatype Profile = Profile(policy: TmpfsPolicy, digest: string, sound: bool)

  datatype Binding = Binding(runId: string, workspace: string, candidate: string, payload: string, snapshot: string)

  datatype Intent = Intent(
    runId: string, workspace: string, candidate: string, payload: string, snapshot: string,
    actVersion: string, actImage: string, engineImage: string, runnerImage: string,
    createdAt: Time, profile: Option<Profile>, spare: bool)

  datatype State = Pending | Registered | CleanupRequired | Terminal

  datatype Outcome = Passed | Failed | Cancelled | Interrupted

  datatype Proof = Proof(storageVolume: Option<string>, name: string, engineId: Option<string>)

  datatype Record = Record(
    schema: nat, registryId: string, intent: Intent, state: State, engineId: Option<string>,
    execution: Option<Outcome>, claim: Option<string>, outcome: Option<Outcome>, removal: Option<Proof>,
    updatedAt: real, binding: Option<Binding>, createRequested: Option<bool>)

  /** `labelled`: every label the intent requires is present with its value. */
  datatype Observation = Observation(name: string, engineId: string, image: string, labelled: bool)

  datatype RowKind = Container | Volume | Image | Builder | Network
  datatype RowState = Active | Adopted | Done | Retired
  datatype Scope = SpecScope | StackScope | MachineScope
  datatype Retention = Warm | Pinned

  datatype Resource = Resource(
    kind: RowKind, name: string, stack: string, generation: string, scope: Scope, workspace: string,
    createdAt: real, lastUsed: real, state: RowState, retention: Retention)

  datatype UseKey = UseKey(resource: string, workspace: string, stack: string, generation: string)
  datatype Use = Use(lastUsed: real, state: RowState)

  /** The registry identity and the three tables an engine's transitions read and write. */
  datatype Store = Store(
    owner: string, records: map<string, Record>, resources: map<string, Resource>, uses: map<UseKey, Use>)

  datatype Problem =
    | BadRun | BadIntent | BadBinding | NeedsProfile | Missing | BadTime | OutOfOrder | NotOwner
    | Conflict | StorageRefused | CorruptRow | BadSnapshot

  // ----------------------------------------------------------------- text checks

  predicate IsDigit(c: char) { '0' <= c <= '9' }
  predicate IsLowerHex(c: char) { IsDigit(c) || 'a' <= c <= 'f' }
  predicate IsHex(c: char) { IsLowerHex(c) || 'A' <= c <= 'F' }
  predicate IsAlphanumeric(c: char) { IsDigit(c) || 'a' <= c <= 'z' || 'A' <= c <= 'Z' }

  predicate Hex(s: string, n: nat) {
    |s| == n && forall i :: 0 <= i < |s| ==> IsLowerHex(s[i])
  }

  predicate IsUuid(s: string) {
    |s| == 36 && forall i :: 0 <= i < |s| ==> if i == 8 || i == 13 || i == 18 || i == 23 then s[i] == '-' else IsHex(s[i])
  }

  predicate CanonicalRun(s: string) {
    IsUuid(s) && forall i :: 0 <= i < |s| ==> !('A' <= s[i] <= 'Z')
  }

  predicate ImageDigest(s: string) {
    |s| >= 7 && s[..7] == "sha256:" && Hex(s[7..], 64)
  }

  predicate Workspace(s: string) {
    s != "" && Utf8Size(s) <= 4096 && '\0' !in s && s[0] == '/'
  }

  predicate ActVersion(s: string) {
    1 <= |s| <= 32 && forall i :: 0 <= i < |s| ==> IsAlphanumeric(s[i]) || s[i] == '.' || s[i] == '-'
  }

  predicate ValidBinding(b: Binding) {
    CanonicalRun(b.runId) && Workspace(b.workspace) && Hex(b.candidate, 40) && Hex(b.payload, 64) && Hex(b.snapshot, 64)
  }

  predicate AllZero(s: string) {
    forall i :: 0 <= i < |s| ==> s[i] == '0'
  }

  predicate ValidIntent(i: Intent) {
    && CanonicalRun(i.runId)
    && (i.profile.Some? ==> i.profile.value.sound)
    && (i.spare ==> i.profile.Some? && AllZero(i.candidate) && AllZero(i.payload) && AllZero(i.snapshot))
    && Workspace(i.workspace) && Hex(i.candidate, 40) && Hex(i.payload, 64) && Hex(i.snapshot, 64)
    && i.createdAt.Finite? && i.createdAt.value >= 0.0
    && ActVersion(i.actVersion)
    && ImageDigest(i.actImage) && ImageDigest(i.engineImage) && ImageDigest(i.runnerImage)
  }

  function EngineName(run: string): string {
    "bosn-act-" + run
  }

  function ResourceId(run: string): string {
    "act-engine:" + run
  }

  function StorageVolume(i: Intent): Option<string> {
    if i.profile.Some? && i.profile.value.policy.NamedDiskStorage? then Some("bosn-act-storage-" + i.runId) else None
  }

  lemma {:induction false} SameResourceId(a: string, b: string)
    ensures ResourceId(a) == ResourceId(b) ==> a == b
  {
    assert a == ResourceId(a)[11..] && b == ResourceId(b)[11..];
  }

  /** `ActEngineRecord::validate`, for records without tool recovery. */
  predicate Valid(r: Record) {
    && ValidIntent(r.intent)
    && (r.state.Terminal? <==> r.removal.Some?)
    && (r.removal.Some? ==> r.removal.value == Proof(StorageVolume(r.intent), EngineName(r.intent.runId), r.engineId))
    && 1 <= r.schema <= 3
    && (r.schema == 3 <==> r.intent.profile.Some?)
    && (r.schema == 1 ==> r.claim.None?)
    && (r.claim.Some? ==> CanonicalRun(r.claim.value) && r.engineId.Some? && !r.state.Pending?)
    && (r.schema != 1 && r.execution.Some? ==> r.claim.Some?)
    && IsUuid(r.registryId)
    && r.updatedAt >= r.intent.createdAt.value
    && (r.engineId.Some? ==> Hex(r.engineId.value, 64))
    && (r.engineId.None? ==> r.execution.None?)
    && (r.state.Pending? ==> r.engineId.None? && r.outcome.None?)
    && (r.state.Registered? ==> r.engineId.Some? && r.outcome.None?)
    && (r.state.CleanupRequired? || r.state.Terminal? ==> r.outcome.Some?)
    && (r.outcome == Some(Passed) ==> r.engineId.Some? && r.execution == Some(Passed))
    && (r.binding.Some? ==> r.intent.spare && r.claim.Some? && ValidBinding(r.binding.value))
  }

  // ---------------------------------------------------------------- transitions

  function Load(s: Store, run: string): Result<Option<Record>, Problem> {
    if !CanonicalRun(run) then Err(BadRun)
    else if run !in s.records then Ok(None)
    else
      var r := s.records[run];
      if !Valid(r) || r.intent.runId != run then Err(CorruptRow)
      else if r.registryId != s.owner then Err(Conflict)
      else Ok(Some(r))
  }

  function Find(s: Store, run: string): Result<Record, Problem> {
    match Load(s, run)
    case Err(e) => Err(e)
    case Ok(None) => Err(Missing)
    case Ok(Some(r)) => Ok(r)
  }

  /** `store_act_record`: `admitted` is the journal's own capacity and storage verdict. */
  function Save(s: Store, r: Record, admitted: bool): Result<Store, Problem> {
    if !Valid(r) then Err(BadSnapshot)
    else if !admitted then Err(StorageRefused)
    else Ok(s.(records := s.records[r.intent.runId := r]))
  }

  predicate OnTime(r: Record, at: Time) {
    at.Finite? && at.value >= r.updatedAt
  }

  function FreshRecord(owner: string, i: Intent): Record
    requires i.createdAt.Finite?
  {
    Record(3, owner, i, Pending, None, None, None, None, None, i.createdAt.value, None, Some(false))
  }

  function Begin(s: Store, i: Intent, admitted: bool): Result<Store, Problem> {
    if !ValidIntent(i) then Err(BadIntent)
    else if i.profile.None? then Err(NeedsProfile)
    else match Load(s, i.runId)
      case Err(e) => Err(e)
      case Ok(Some(_)) => Err(Conflict)
      case Ok(None) => Save(s, FreshRecord(s.owner, i), admitted)
  }

  function Max(a: real, b: real): real {
    if a < b then b else a
  }

  function RequestCreate(s: Store, run: string, at: Time, admitted: bool): Result<Store, Problem> {
    match Find(s, run)
    case Err(e) => Err(e)
    case Ok(r) =>
      if !r.state.Pending? || r.engineId.Some? || at.NotFinite? then Err(OutOfOrder)
      else Save(s, r.(createRequested := Some(true), updatedAt := Max(r.updatedAt, at.value)), admitted)
  }

  function MarkUncertain(s: Store, run: string, at: Time, admitted: bool): Result<Store, Problem> {
    match Find(s, run)
    case Err(e) => Err(e)
    case Ok(r) =>
      if !r.state.CleanupRequired? || r.engineId.Some? || r.createRequested.Some? || !OnTime(r, at) then Err(OutOfOrder)
      else Save(s, r.(createRequested := Some(true), updatedAt := at.value), admitted)
  }

  function Verify(s: Store, run: string, o: Observation): Result<Record, Problem> {
    match Find(s, run)
    case Err(e) => Err(e)
    case Ok(r) =>
      if || o.name != EngineName(r.intent.runId)
         || !Hex(o.engineId, 64)
         || o.image != r.intent.engineImage
         || (r.engineId.Some? && r.engineId.value != o.engineId)
         || !o.labelled
      then Err(Conflict) else Ok(r)
  }

  predicate Occupied(s: Store, run: string) {
    || ResourceId(run) in s.resources
    || exists id :: id in s.resources && s.resources[id].kind.Container? && s.resources[id].name == EngineName(run)
  }

  function Stamp(t: Time): real {
    if t.Finite? then t.value else 0.0
  }

  function EngineRow(i: Intent, at: real, state: RowState): Resource {
    Resource(Container, EngineName(i.runId), "act", i.runId, SpecScope, i.workspace, Stamp(i.createdAt), at, state, Warm)
  }

  function EngineUse(i: Intent): UseKey {
    UseKey(ResourceId(i.runId), i.workspace, "act", i.runId)
  }

  function WithRows(s: Store, i: Intent, at: real): Store {
    s.(resources := s.resources[ResourceId(i.runId) := EngineRow(i, at, Active)],
       uses := s.uses[EngineUse(i) := Use(at, Active)])
  }

  function Register(s: Store, run: string, o: Observation, at: Time, recovery: bool, admitted: bool): Result<Store, Problem> {
    match Verify(s, run, o)
    case Err(e) => Err(e)
    case Ok(r) =>
      if !OnTime(r, at) then Err(BadTime)
      else if r.state != (if recovery then CleanupRequired else Pending) || r.engineId.Some? then Err(OutOfOrder)
      else if Occupied(s, run) then Err(Conflict)
      else
        Save(WithRows(s, r.intent, at.value),
             r.(state := if recovery then r.state else Registered, engineId := Some(o.engineId), updatedAt := at.value),
             admitted)
  }

  function Claim(s: Store, i: Intent, o: Observation, token: string, at: Time, admitted: bool): Result<Store, Problem> {
    if !CanonicalRun(token) then Err(BadRun)
    else match Verify(s, i.runId, o)
      case Err(e) => Err(e)
      case Ok(r) =>
        if !OnTime(r, at) then Err(BadTime)
        else if r.schema != 3 || r.intent != i || !r.state.Registered? || r.execution.Some? || r.claim.Some? then Err(OutOfOrder)
        else Save(s, r.(claim := Some(token), updatedAt := at.value), admitted)
  }

  function ClaimSpare(s: Store, spare: string, o: Observation, from: string, token: string, b: Binding, at: Time, admitted: bool): Result<Store, Problem> {
    if !CanonicalRun(from) || !CanonicalRun(token) then Err(BadRun)
    else if !ValidBinding(b) then Err(BadBinding)
    else match Verify(s, spare, o)
      case Err(e) => Err(e)
      case Ok(r) =>
        if !OnTime(r, at) then Err(BadTime)
        else if || !r.intent.spare || r.schema != 3 || !r.state.Registered? || r.execution.Some?
                || r.binding.Some? || r.claim != Some(from) || from == token
        then Err(OutOfOrder)
        else Save(s, r.(claim := Some(token), binding := Some(b), updatedAt := at.value), admitted)
  }

  predicate Owns(r: Record, token: string) {
    CanonicalRun(token) && (r.schema == 2 || r.schema == 3) && r.claim == Some(token)
  }

  function RecordExecution(s: Store, run: string, token: string, outcome: Outcome, at: Time, admitted: bool): Result<Store, Problem> {
    match Find(s, run)
    case Err(e) => Err(e)
    case Ok(r) =>
      if !OnTime(r, at) then Err(BadTime)
      else if !Owns(r, token) then Err(NotOwner)
      else if r.schema != 3 || !r.state.Registered? || r.execution.Some? then Err(OutOfOrder)
      else Save(s, r.(execution := Some(outcome), updatedAt := at.value), admitted)
  }

  /** Both cleanup requests: with the owner's token, or without one. */
  function RequestCleanup(s: Store, run: string, token: Option<string>, outcome: Outcome, at: Time, admitted: bool): Result<Store, Problem> {
    match Find(s, run)
    case Err(e) => Err(e)
    case Ok(r) =>
      if token.Some? && !Owns(r, token.value) then Err(NotOwner)
      else if !OnTime(r, at) then Err(BadTime)
      else if r.claim != token || !(r.state.Pending? || r.state.Registered?) || (outcome.Passed? && r.execution != Some(Passed)) then Err(OutOfOrder)
      else Save(s, r.(state := CleanupRequired, outcome := Some(outcome), updatedAt := at.value), admitted)
  }

  /** `check_act_retirement`; `held` says some lease or execution session names the row. */
  predicate Retirable(resources: map<string, Resource>, uses: map<UseKey, Use>, i: Intent, held: bool) {
    var id := ResourceId(i.runId);
    && id in resources
    && (var row := resources[id];
        && row.name == EngineName(i.runId) && row.kind.Container? && row.stack == "act"
        && row.generation == i.runId && row.workspace == i.workspace
        && row.scope.SpecScope? && row.retention.Warm? && row.state.Active?)
    && EngineUse(i) in uses && uses[EngineUse(i)].state.Active?
    && (forall key :: key in uses && key.resource == id ==> key == EngineUse(i) && uses[key].state.Active?)
    && !held
  }

  function RetireResource(resources: map<string, Resource>, id: string, at: real): map<string, Resource>
    requires id in resources
  {
    resources[id := resources[id].(state := Retired, lastUsed := at)]
  }

  function RetireUses(uses: map<UseKey, Use>, id: string, at: real): map<UseKey, Use> {
    map key | key in uses :: if key.resource == id then Use(at, Retired) else uses[key]
  }

  /** `helperHolds`: a recovery helper still holds the engine's storage volume. */
  function Finalize(s: Store, run: string, proof: Proof, at: Time, held: bool, helperHolds: bool, admitted: bool): Result<Store, Problem> {
    match Find(s, run)
    case Err(e) => Err(e)
    case Ok(r) =>
      var done := r.(removal := Some(proof), state := Terminal, updatedAt := if at.Finite? then at.value else r.updatedAt);
      if !OnTime(r, at) then Err(BadTime)
      else if || !r.state.CleanupRequired?
              || proof != Proof(StorageVolume(r.intent), EngineName(r.intent.runId), r.engineId)
              || (StorageVolume(r.intent).Some? && helperHolds)
      then Err(OutOfOrder)
      else if r.engineId.None? then Save(s, done, admitted)
      else if !Retirable(s.resources, s.uses, r.intent, held) then Err(Conflict)
      else
        var id := ResourceId(r.intent.runId);
        Save(s.(resources := RetireResource(s.resources, id, at.value), uses := RetireUses(s.uses, id, at.value)), done, admitted)
  }

  /** Another component's writes: anything that leaves the engines' rows and the name index alone. */
  ghost predicate Elsewhere(s: Store, resources: map<string, Resource>, uses: map<UseKey, Use>) {
    && (forall run :: ResourceId(run) in resources <==> ResourceId(run) in s.resources)
    && (forall run :: ResourceId(run) in resources ==> resources[ResourceId(run)] == s.resources[ResourceId(run)])
    && (forall run, key: UseKey :: key.resource == ResourceId(run) ==> (key in uses <==> key in s.uses))
    && (forall run, key: UseKey :: key.resource == ResourceId(run) && key in uses ==> uses[key] == s.uses[key])
    && UniqueNames(resources)
  }

  ghost predicate UniqueNames(resources: map<string, Resource>) {
    forall a, b :: a in resources && b in resources && resources[a].kind == resources[b].kind && resources[a].name == resources[b].name ==> a == b
  }

  // --------------------------------------------------------------------- steps

  datatype Op =
    | BeginOp(intent: Intent)
    | RequestCreateOp(run: string, at: Time)
    | MarkUncertainOp(run: string, at: Time)
    | RegisterOp(run: string, observed: Observation, at: Time, recovery: bool)
    | ClaimOp(intent: Intent, observed: Observation, token: string, at: Time)
    | ClaimSpareOp(run: string, observed: Observation, from: string, token: string, binding: Binding, at: Time)
    | RecordOp(run: string, token: string, outcome: Outcome, at: Time)
    | CleanupOp(run: string, owner: Option<string>, outcome: Outcome, at: Time)
    | FinalizeOp(run: string, proof: Proof, at: Time, held: bool, helperHolds: bool)
    | OutsideOp(resources: map<string, Resource>, uses: map<UseKey, Use>)

  /** One transaction, with the journal's verdict on it. */
  datatype Call = Call(op: Op, admitted: bool)

  /** The run an operation addresses. */
  function Target(op: Op): Option<string> {
    match op
    case BeginOp(i) => Some(i.runId)
    case ClaimOp(i, _, _, _) => Some(i.runId)
    case OutsideOp(_, _) => None
    case _ => Some(op.run)
  }

  ghost function Step(s: Store, c: Call): Result<Store, Problem> {
    match c.op
    case BeginOp(i) => Begin(s, i, c.admitted)
    case RequestCreateOp(run, at) => RequestCreate(s, run, at, c.admitted)
    case MarkUncertainOp(run, at) => MarkUncertain(s, run, at, c.admitted)
    case RegisterOp(run, o, at, recovery) => Register(s, run, o, at, recovery, c.admitted)
    case ClaimOp(i, o, token, at) => Claim(s, i, o, token, at, c.admitted)
    case ClaimSpareOp(run, o, from, token, b, at) => ClaimSpare(s, run, o, from, token, b, at, c.admitted)
    case RecordOp(run, token, outcome, at) => RecordExecution(s, run, token, outcome, at, c.admitted)
    case CleanupOp(run, token, outcome, at) => RequestCleanup(s, run, token, outcome, at, c.admitted)
    case FinalizeOp(run, proof, at, held, helperHolds) => Finalize(s, run, proof, at, held, helperHolds, c.admitted)
    case OutsideOp(resources, uses) =>
      if Elsewhere(s, resources, uses) then Ok(s.(resources := resources, uses := uses)) else Err(Conflict)
  }

  // ------------------------------------------------------------------ coupling

  ghost predicate RecordsSound(s: Store) {
    && IsUuid(s.owner)
    && forall run :: run in s.records ==>
         Valid(s.records[run]) && s.records[run].intent.runId == run && s.records[run].registryId == s.owner
  }

  /** What a record entitles its run to: nothing, or one row and one use in a given state. */
  datatype Holding = Nothing | Rows(intent: Intent, state: RowState)

  function Holds(records: map<string, Record>, run: string): Holding {
    if run in records && records[run].engineId.Some?
    then Rows(records[run].intent, if records[run].state.Terminal? then Retired else Active)
    else Nothing
  }

  /** A run's resource row exists exactly when it holds an engine, and says what the record says. */
  ghost predicate ResourceCoupled(resources: map<string, Resource>, run: string, h: Holding) {
    && (ResourceId(run) in resources <==> h.Rows?)
    && (h.Rows? ==> resources[ResourceId(run)] == EngineRow(h.intent, resources[ResourceId(run)].lastUsed, h.state))
  }

  /** Likewise its use row, which is the only one. */
  ghost predicate UseCoupled(uses: map<UseKey, Use>, run: string, h: Holding) {
    && (h.Rows? ==> EngineUse(h.intent) in uses)
    && (forall key :: key in uses && key.resource == ResourceId(run) ==>
          h.Rows? && key == EngineUse(h.intent) && uses[key].state == h.state)
  }

  ghost predicate RowsCoupled(s: Store) {
    && (forall run :: ResourceCoupled(s.resources, run, Holds(s.records, run)))
    && (forall run :: UseCoupled(s.uses, run, Holds(s.records, run)))
    && UniqueNames(s.resources)
  }

  ghost predicate Coupled(s: Store) {
    RecordsSound(s) && RowsCoupled(s)
  }

  ghost function Empty(owner: string): Store {
    Store(owner, map[], map[], map[])
  }
}
