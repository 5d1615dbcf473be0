/** Temporary cache containers: the lifecycle of one helper nonce, and what retention forgets. */
module CacheHelper {
  import opened Common
  import opened ActEngine

  const LATE_CREATE_WINDOW := 630.0
  const KEEP_SECONDS := 604800.0
  const HELPER_IMAGE := "docker.io/library/docker@sha256:"

  /** `sound` is the verdict of the role-specific field checks. */
  datatype HelperIntent = HelperIntent(registryId: string, nonce: string, volume: string, image: string, createdAt: Time, sound: bool)

  datatype HelperState = HelperPending | Created | Removed

  datatype Helper = Helper(schema: nat, intent: HelperIntent, state: HelperState, containerId: Option<string>, updatedAt: real)

  /** The current helper rows, and the replay floor left by forgotten ones. */
  datatype Helpers = Helpers(owner: string, rows: map<string, Helper>, floor: Option<real>)

  datatype HelperProblem =
    | BadNonce | BadHelperIntent | NonceUsed | HelperMissing | BadRegistration | BadRemoval
    | Predates | NotAdmitted | WrongOwner | BadRow | NotCollectible

  predicate HelperImage(s: string) {
    |s| >= |HELPER_IMAGE| && s[..|HELPER_IMAGE|] == HELPER_IMAGE && Hex(s[|HELPER_IMAGE|..], 64)
  }

  predicate ValidHelperIntent(i: HelperIntent) {
    && IsUuid(i.registryId) && CanonicalRun(i.nonce)
    && i.createdAt.Finite? && i.createdAt.value >= 0.0
    && HelperImage(i.image) && i.sound
  }

  /** What decoding a snapshot demands, apart from its owner. */
  predicate ValidHelper(h: Helper, nonce: string) {
    && ValidHelperIntent(h.intent)
    && h.schema == 1 && h.intent.nonce == nonce
    && h.updatedAt >= h.intent.createdAt.value
    && (h.state.HelperPending? ==> h.containerId.None?)
    && (h.state.Created? ==> h.containerId.Some?)
    && (h.containerId.Some? ==> Hex(h.containerId.value, 64))
  }

  // ---------------------------------------------------------------- transitions

  function LoadHelper(s: Helpers, nonce: string): Result<Option<Helper>, HelperProblem> {
    if !CanonicalRun(nonce) then Err(BadNonce)
    else if nonce !in s.rows then Ok(None)
    else if !ValidHelper(s.rows[nonce], nonce) then Err(BadRow)
    else if s.rows[nonce].intent.registryId != s.owner then Err(WrongOwner)
    else Ok(Some(s.rows[nonce]))
  }

  function FindHelper(s: Helpers, nonce: string): Result<Helper, HelperProblem> {
    match LoadHelper(s, nonce)
    case Err(e) => Err(e)
    case Ok(None) => Err(HelperMissing)
    case Ok(Some(h)) => Ok(h)
  }

  /** A new nonce must postdate the floor; `admitted` is the capacity verdict, asked only of new rows. */
  function SaveHelper(s: Helpers, h: Helper, admitted: bool): Result<Helpers, HelperProblem> {
    var nonce := h.intent.nonce;
    if !ValidHelper(h, nonce) then Err(BadRow)
    else if h.intent.registryId != s.owner then Err(WrongOwner)
    else if nonce !in s.rows && s.floor.Some? && h.intent.createdAt.value <= s.floor.value then Err(Predates)
    else if nonce !in s.rows && !admitted then Err(NotAdmitted)
    else Ok(s.(rows := s.rows[nonce := h]))
  }

  function BeginHelper(s: Helpers, i: HelperIntent, admitted: bool): Result<Helpers, HelperProblem> {
    if !ValidHelperIntent(i) then Err(BadHelperIntent)
    else match LoadHelper(s, i.nonce)
      case Err(e) => Err(e)
      case Ok(Some(_)) => Err(NonceUsed)
      case Ok(None) => SaveHelper(s, Helper(1, i, HelperPending, None, i.createdAt.value), admitted)
  }

  function RegisterHelper(s: Helpers, nonce: string, id: string, at: Time): Result<Helpers, HelperProblem> {
    match FindHelper(s, nonce)
    case Err(e) => Err(e)
    case Ok(h) =>
      if || !Hex(id, 64) || at.NotFinite? || at.value < h.updatedAt || h.state.Removed?
         || (h.containerId.Some? && h.containerId.value != id)
      then Err(BadRegistration)
      else if h.state.Created? then Ok(s)
      else SaveHelper(s, h.(containerId := Some(id), state := Created, updatedAt := at.value), true)
  }

  function FinishHelper(s: Helpers, nonce: string, id: string, at: Time): Result<Helpers, HelperProblem> {
    match FindHelper(s, nonce)
    case Err(e) => Err(e)
    case Ok(h) =>
      if !h.state.Created? || h.containerId != Some(id) || at.NotFinite? || at.value < h.updatedAt then Err(BadRemoval)
      else SaveHelper(s, h.(state := Removed, updatedAt := at.value), true)
  }

  function FinishAbsent(s: Helpers, nonce: string, at: Time): Result<Helpers, HelperProblem> {
    match FindHelper(s, nonce)
    case Err(e) => Err(e)
    case Ok(h) =>
      if !h.state.HelperPending? || h.containerId.Some? || at.NotFinite? || at.value < h.intent.createdAt.value + LATE_CREATE_WINDOW then Err(BadRemoval)
      else SaveHelper(s, h.(state := Removed, updatedAt := at.value), true)
  }

  function Raised(floor: Option<real>, to: real): Option<real> {
    if floor.Some? && floor.value >= to then floor else Some(to)
  }

  /** One row of a retention pass; `referenced` says a live engine still names the helper. */
  function ForgetHelper(s: Helpers, nonce: string, now: Time, referenced: bool): Result<Helpers, HelperProblem> {
    match FindHelper(s, nonce)
    case Err(e) => Err(e)
    case Ok(h) =>
      if now.NotFinite? || !h.state.Removed? || h.updatedAt >= now.value - KEEP_SECONDS || referenced then Err(NotCollectible)
      else Ok(s.(rows := s.rows - {nonce}, floor := Raised(s.floor, h.intent.createdAt.value)))
  }

  datatype HelperCall =
    | BeginCall(intent: HelperIntent, admitted: bool)
    | RegisterCall(nonce: string, id: string, at: Time)
    | FinishCall(nonce: string, id: string, at: Time)
    | AbsentCall(nonce: string, at: Time)
    | ForgetCall(nonce: string, now: Time, referenced: bool)
    | EngineForgotten(createdAt: real)

  function Nonce(c: HelperCall): Option<string> {
    match c
    case BeginCall(i, _) => Some(i.nonce)
    case EngineForgotten(_) => None
    case _ => Some(c.nonce)
  }

  /** Forgetting an engine raises the same floor. */
  function Step(s: Helpers, c: HelperCall): Result<Helpers, HelperProblem> {
    match c
    case BeginCall(i, admitted) => BeginHelper(s, i, admitted)
    case RegisterCall(nonce, id, at) => RegisterHelper(s, nonce, id, at)
    case FinishCall(nonce, id, at) => FinishHelper(s, nonce, id, at)
    case AbsentCall(nonce, at) => FinishAbsent(s, nonce, at)
    case ForgetCall(nonce, now, referenced) => ForgetHelper(s, nonce, now, referenced)
    case EngineForgotten(createdAt) => Ok(s.(floor := Raised(s.floor, createdAt)))
  }

  function Apply(s: Helpers, c: HelperCall): Helpers {
    match Step(s, c)
    case Ok(t) => t
    case Err(_) => s
  }

  function Execute(s: Helpers, calls: seq<HelperCall>): Helpers {
    if calls == [] then s else Apply(Execute(s, calls[..|calls| - 1]), calls[|calls| - 1])
  }

  // ------------------------------------------------------------------ invariants

  ghost predicate HelperSound(h: Helper, nonce: string, owner: string) {
    && ValidHelper(h, nonce) && h.intent.registryId == owner
    && (h.state.HelperPending? ==> h.updatedAt == h.intent.createdAt.value)
  }

  ghost predicate AllSound(s: Helpers) {
    forall nonce :: nonce in s.rows ==> HelperSound(s.rows[nonce], nonce, s.owner)
  }

  lemma {:induction false} FindSound(s: Helpers, nonce: string)
    requires AllSound(s)
    ensures FindHelper(s, nonce).Ok? <==> CanonicalRun(nonce) && nonce in s.rows
    ensures FindHelper(s, nonce).Ok? ==> FindHelper(s, nonce).value == s.rows[nonce] && HelperSound(s.rows[nonce], nonce, s.owner)
    ensures FindHelper(s, nonce).Err? ==> FindHelper(s, nonce).error == if CanonicalRun(nonce) then HelperMissing else BadNonce
  {
  }

  function Rank(s: HelperState): nat {
    match s
    case HelperPending => 0
    case Created => 1
    case Removed => 2
  }

  /** What may become of a helper row while it is kept. */
  ghost predicate Follows(a: Helper, b: Helper) {
    && a.schema == b.schema && a.intent == b.intent
    && (a.containerId.Some? ==> a.containerId == b.containerId)
    && Rank(a.state) <= Rank(b.state)
    && a.updatedAt <= b.updatedAt
    && (a.state.Removed? ==> a == b)
    && (a.state.Created? && b.state.Created? ==> a == b)
    && (a.state.HelperPending? && b.state.Removed? && b.containerId.None? ==> b.updatedAt >= Stamp(a.intent.createdAt) + LATE_CREATE_WINDOW)
  }

  /** What one accepted call did to the row it names. */
  ghost predicate Effect(s: Helpers, c: HelperCall) {
    Step(s, c).Ok? && Nonce(c).Some? ==>
      var n, t := Nonce(c).value, Step(s, c).value;
      && (c.BeginCall? <==> n !in s.rows)
      && (c.ForgetCall? <==> n !in t.rows)
      && (c.ForgetCall? ==> s.rows[n].state.Removed? && t.rows == s.rows - {n} && t.floor == Raised(s.floor, Stamp(s.rows[n].intent.createdAt)))
      && (!c.ForgetCall? ==> t.floor == s.floor && t.rows == s.rows[n := t.rows[n]] && HelperSound(t.rows[n], n, s.owner))
      && (c.BeginCall? ==> t.rows[n] == Helper(1, c.intent, HelperPending, None, Stamp(c.intent.createdAt)))
      && (c.BeginCall? && s.floor.Some? ==> Stamp(c.intent.createdAt) > s.floor.value)
      && (!c.BeginCall? && !c.ForgetCall? ==> Follows(s.rows[n], t.rows[n]))
      && (c.RegisterCall? ==> t.rows[n].state.Created? && t.rows[n].containerId == Some(c.id))
      && (c.FinishCall? ==> s.rows[n].state.Created? && t.rows[n].state.Removed? && t.rows[n].containerId == Some(c.id))
      && (c.AbsentCall? ==> s.rows[n].state.HelperPending? && t.rows[n].state.Removed? && t.rows[n].containerId.None?)
  }

  lemma {:induction false} StepEffect(s: Helpers, c: HelperCall)
    requires AllSound(s)
    ensures Effect(s, c)
  {
    if Nonce(c).Some? {
      FindSound(s, Nonce(c).value);
    }
  }

  /** No malformed row is ever written or met, and every row stays sound. */
  lemma {:induction false} StepSound(s: Helpers, c: HelperCall)
    requires AllSound(s)
    ensures AllSound(Apply(s, c)) && Step(s, c) != Err(BadRow)
    ensures Apply(s, c).owner == s.owner
  {
    if Nonce(c).Some? {
      FindSound(s, Nonce(c).value);
    }
    StepEffect(s, c);
  }

  lemma {:induction false} RunsSound(s: Helpers, calls: seq<HelperCall>)
    requires AllSound(s)
    ensures AllSound(Execute(s, calls))
  {
    if calls != [] {
      RunsSound(s, calls[..|calls| - 1]);
      StepSound(Execute(s, calls[..|calls| - 1]), calls[|calls| - 1]);
    }
  }

  /** Observing the same container again writes nothing. */
  lemma {:induction false} ReRegisterIdle(s: Helpers, nonce: string, id: string, at: Time)
    requires AllSound(s) && nonce in s.rows && s.rows[nonce].containerId == Some(id)
    ensures Apply(s, RegisterCall(nonce, id, at)) == s
  {
    FindSound(s, nonce);
  }

  // ------------------------------------------------------------------ whole runs

  function StateAt(s: Helpers, calls: seq<HelperCall>, k: nat): Helpers
    requires k <= |calls|
  {
    Execute(s, calls[..k])
  }

  predicate Accepted(s: Helpers, calls: seq<HelperCall>, k: nat) {
    k < |calls| && Step(StateAt(s, calls, k), calls[k]).Ok?
  }

  lemma {:induction false} Next(s: Helpers, calls: seq<HelperCall>, k: nat)
    requires AllSound(s) && k < |calls|
    ensures StateAt(s, calls, k + 1) == Apply(StateAt(s, calls, k), calls[k])
    ensures AllSound(StateAt(s, calls, k)) && AllSound(StateAt(s, calls, k + 1)) && Effect(StateAt(s, calls, k), calls[k])
  {
    assert calls[..k + 1][..k] == calls[..k] && calls[..k + 1][k] == calls[k];
    RunsSound(s, calls[..k]);
    RunsSound(s, calls[..k + 1]);
    StepEffect(StateAt(s, calls, k), calls[k]);
  }

  ghost predicate Forgotten(s: Helpers, calls: seq<HelperCall>, nonce: string, i: nat, j: nat) {
    exists m :: i <= m < j && Accepted(s, calls, m) && calls[m].ForgetCall? && calls[m].nonce == nonce
  }

  lemma {:induction false} FollowsTransitive(a: Helper, b: Helper, c: Helper, nonce: string, owner: string)
    requires HelperSound(a, nonce, owner) && HelperSound(b, nonce, owner) && HelperSound(c, nonce, owner)
    requires Follows(a, b) && Follows(b, c)
    ensures Follows(a, c)
  {
  }

  lemma {:induction false} StepFollows(s: Helpers, c: HelperCall, nonce: string)
    requires AllSound(s) && nonce in s.rows && !(c.ForgetCall? && c.nonce == nonce && Step(s, c).Ok?)
    ensures nonce in Apply(s, c).rows && Follows(s.rows[nonce], Apply(s, c).rows[nonce])
  {
    StepEffect(s, c);
  }

  /** Until it is forgotten a row only moves forward: one container, one removal, no earlier time. */
  lemma {:induction false} RunFollows(s: Helpers, calls: seq<HelperCall>, nonce: string, i: nat, j: nat)
    requires AllSound(s) && i <= j <= |calls| && nonce in StateAt(s, calls, i).rows
    requires !Forgotten(s, calls, nonce, i, j)
    ensures nonce in StateAt(s, calls, j).rows && Follows(StateAt(s, calls, i).rows[nonce], StateAt(s, calls, j).rows[nonce])
    decreases j - i
  {
    RunsSound(s, calls[..i]);
    if i < j {
      assert !Forgotten(s, calls, nonce, i, j - 1);
      RunFollows(s, calls, nonce, i, j - 1);
      Next(s, calls, j - 1);
      StepFollows(StateAt(s, calls, j - 1), calls[j - 1], nonce);
      var owner := StateAt(s, calls, i).owner;
      SameOwner(s, calls[..i]);
      SameOwner(s, calls[..j - 1]);
      SameOwner(s, calls[..j]);
      FollowsTransitive(StateAt(s, calls, i).rows[nonce], StateAt(s, calls, j - 1).rows[nonce], StateAt(s, calls, j).rows[nonce], nonce, owner);
    }
  }

  lemma {:induction false} SameOwner(s: Helpers, calls: seq<HelperCall>)
    requires AllSound(s)
    ensures Execute(s, calls).owner == s.owner
  {
    if calls != [] {
      RunsSound(s, calls[..|calls| - 1]);
      SameOwner(s, calls[..|calls| - 1]);
      StepSound(Execute(s, calls[..|calls| - 1]), calls[|calls| - 1]);
    }
  }

  /** The store remembers an intent of this age: by its row, or by the floor. */
  ghost predicate Remembers(s: Helpers, nonce: string, createdAt: real) {
    || (nonce in s.rows && Stamp(s.rows[nonce].intent.createdAt) >= createdAt)
    || (s.floor.Some? && s.floor.value >= createdAt)
  }

  lemma {:induction false} StepRemembers(s: Helpers, c: HelperCall, nonce: string, createdAt: real)
    requires AllSound(s) && Remembers(s, nonce, createdAt)
    ensures Remembers(Apply(s, c), nonce, createdAt)
  {
    StepEffect(s, c);
  }

  lemma {:induction false} RunRemembers(s: Helpers, calls: seq<HelperCall>, nonce: string, createdAt: real, i: nat, j: nat)
    requires AllSound(s) && i <= j <= |calls| && Remembers(StateAt(s, calls, i), nonce, createdAt)
    ensures Remembers(StateAt(s, calls, j), nonce, createdAt)
    decreases j - i
  {
    if i < j {
      RunRemembers(s, calls, nonce, createdAt, i, j - 1);
      Next(s, calls, j - 1);
      StepRemembers(StateAt(s, calls, j - 1), calls[j - 1], nonce, createdAt);
    }
  }

  /** A nonce begun twice was removed and forgotten in between, and the second intent is strictly younger. */
  lemma {:induction false} NonceReuse(s: Helpers, calls: seq<HelperCall>, i: nat, j: nat)
    requires AllSound(s) && i < j && Accepted(s, calls, i) && Accepted(s, calls, j)
    requires calls[i].BeginCall? && calls[j].BeginCall? && calls[i].intent.nonce == calls[j].intent.nonce
    ensures Forgotten(s, calls, calls[i].intent.nonce, i + 1, j)
    ensures Stamp(calls[j].intent.createdAt) > Stamp(calls[i].intent.createdAt)
  {
    var nonce, createdAt := calls[i].intent.nonce, Stamp(calls[i].intent.createdAt);
    Next(s, calls, i);
    Next(s, calls, j);
    if !Forgotten(s, calls, nonce, i + 1, j) {
      RunFollows(s, calls, nonce, i + 1, j);
    }
    RunRemembers(s, calls, nonce, createdAt, i + 1, j);
  }

  /** An old intent can never be begun again. */
  lemma {:induction false} ReplayRefused(s: Helpers, calls: seq<HelperCall>, i: nat, j: nat)
    requires AllSound(s) && i < j < |calls| && Accepted(s, calls, i) && calls[i].BeginCall?
    requires calls[j].BeginCall? && calls[j].intent == calls[i].intent
    ensures !Accepted(s, calls, j)
  {
    if Accepted(s, calls, j) {
      NonceReuse(s, calls, i, j);
    }
  }

  /** Exactly when an intent is begun. */
  lemma {:induction false} BeginExact(s: Helpers, i: HelperIntent, admitted: bool)
    requires AllSound(s)
    ensures BeginHelper(s, i, admitted).Ok? <==>
            && ValidHelperIntent(i) && i.registryId == s.owner && i.nonce !in s.rows
            && (s.floor.Some? ==> i.createdAt.value > s.floor.value) && admitted
  {
    FindSound(s, i.nonce);
  }

  /** How a removed row came to be removed. */
  ghost predicate RemovedBy(s: Helpers, calls: seq<HelperCall>, nonce: string, k: nat, m: nat)
    requires k <= |calls|
  {
    && m < k && Accepted(s, calls, m) && nonce in StateAt(s, calls, k).rows && nonce in StateAt(s, calls, m).rows
    && (var before, h := StateAt(s, calls, m).rows[nonce], StateAt(s, calls, k).rows[nonce];
        || (&& calls[m].FinishCall? && calls[m].nonce == nonce && before.state.Created?
            && before.containerId == Some(calls[m].id) && h.containerId == Some(calls[m].id))
        || (&& calls[m].AbsentCall? && calls[m].nonce == nonce && before.state.HelperPending?
            && h.containerId.None? && h.updatedAt >= Stamp(h.intent.createdAt) + LATE_CREATE_WINDOW))
  }

  /** Removal comes only from the exact registered container, or from a pending row after the late-create window. */
  lemma {:induction false} RemovedExplained(owner: string, calls: seq<HelperCall>, nonce: string, k: nat)
    requires k <= |calls| && nonce in StateAt(Helpers(owner, map[], None), calls, k).rows
    requires StateAt(Helpers(owner, map[], None), calls, k).rows[nonce].state.Removed?
    ensures exists m :: RemovedBy(Helpers(owner, map[], None), calls, nonce, k, m)
  {
    var s := Helpers(owner, map[], None);
    assert calls[..0] == [];
    if k > 0 {
      Next(s, calls, k - 1);
      var before, c := StateAt(s, calls, k - 1), calls[k - 1];
      if nonce in before.rows && before.rows[nonce].state.Removed? {
        RemovedExplained(owner, calls, nonce, k - 1);
        var m :| RemovedBy(s, calls, nonce, k - 1, m);
        StepRemovedSame(before, c, nonce);
        assert RemovedBy(s, calls, nonce, k, m);
      } else {
        assert Accepted(s, calls, k - 1);
        assert RemovedBy(s, calls, nonce, k, k - 1);
      }
    }
  }

  lemma {:induction false} StepRemovedSame(s: Helpers, c: HelperCall, nonce: string)
    requires AllSound(s) && nonce in s.rows && s.rows[nonce].state.Removed? && nonce in Apply(s, c).rows
    ensures Apply(s, c).rows[nonce] == s.rows[nonce]
  {
    StepEffect(s, c);
  }

  /**
   * The nonce itself can be begun again: once the first helper is removed and forgotten, any
   * younger intent with its nonce is accepted.
   */
  lemma {:induction false} NonceBegunAgain(a: HelperIntent, b: HelperIntent)
    requires ValidHelperIntent(a) && ValidHelperIntent(b) && a.nonce == b.nonce && a.registryId == b.registryId
    requires a.createdAt.value < b.createdAt.value
    ensures var at := a.createdAt.value + LATE_CREATE_WINDOW;
            var s1 := Step(Helpers(a.registryId, map[], None), BeginCall(a, true));
            s1.Ok? && (var s2 := Step(s1.value, AbsentCall(a.nonce, Finite(at)));
            s2.Ok? && (var s3 := Step(s2.value, ForgetCall(a.nonce, Finite(at + KEEP_SECONDS + 1.0), false));
            s3.Ok? && Step(s3.value, BeginCall(b, true)).Ok?))
  {
    var s := Helpers(a.registryId, map[], None);
    var at := a.createdAt.value + LATE_CREATE_WINDOW;
    BeginExact(s, a, true);
    StepSound(s, BeginCall(a, true));
    var t := Apply(s, BeginCall(a, true));
    FindSound(t, a.nonce);
    StepSound(t, AbsentCall(a.nonce, Finite(at)));
    var u := Apply(t, AbsentCall(a.nonce, Finite(at)));
    FindSound(u, a.nonce);
    StepSound(u, ForgetCall(a.nonce, Finite(at + KEEP_SECONDS + 1.0), false));
    BeginExact(Apply(u, ForgetCall(a.nonce, Finite(at + KEEP_SECONDS + 1.0), false)), b, true);
  }

  function Zeros(n: nat): (z: string)
    ensures |z| == n && forall i :: 0 <= i < n ==> z[i] == '0'
  {
    if n == 0 then "" else "0" + Zeros(n - 1)
  }

  /** A concrete pair. */
  function Sample(createdAt: real): HelperIntent {
    HelperIntent("00000000-0000-0000-0000-000000000000", "00000000-0000-0000-0000-000000000000", "cache",
                 HELPER_IMAGE + Zeros(64), Finite(createdAt), true)
  }

  lemma {:induction false} SampleBegunAgain()
    ensures ValidHelperIntent(Sample(0.0)) && ValidHelperIntent(Sample(1.0))
    ensures var s1 := Step(Helpers(Sample(0.0).registryId, map[], None), BeginCall(Sample(0.0), true));
            s1.Ok? && (var s2 := Step(s1.value, AbsentCall(Sample(0.0).nonce, Finite(630.0)));
            s2.Ok? && (var s3 := Step(s2.value, ForgetCall(Sample(0.0).nonce, Finite(605431.0), false));
            s3.Ok? && Step(s3.value, BeginCall(Sample(1.0), true)).Ok?))
  {
    SampleValid(0.0);
    SampleValid(1.0);
    NonceBegunAgain(Sample(0.0), Sample(1.0));
  }

  lemma {:induction false} SampleValid(createdAt: real)
    requires createdAt >= 0.0
    ensures ValidHelperIntent(Sample(createdAt))
  {
    SampleNonce(Sample(createdAt).nonce);
    ZerosHex(64);
    ImageHolds(Zeros(64));
  }

  lemma {:induction false} SampleNonce(nonce: string)
    requires nonce == "00000000-0000-0000-0000-000000000000"
    ensures CanonicalRun(nonce)
  {
  }

  lemma {:induction false} ZerosHex(n: nat)
    ensures Hex(Zeros(n), n)
  {
  }

  lemma {:induction false} ImageHolds(digest: string)
    requires Hex(digest, 64)
    ensures HelperImage(HELPER_IMAGE + digest)
  {
    var image := HELPER_IMAGE + digest;
    assert image[..|HELPER_IMAGE|] == HELPER_IMAGE && image[|HELPER_IMAGE|..] == digest;
  }
}
