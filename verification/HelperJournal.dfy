/** The helper transactions as they run over the current rows and the replay floor. */
module HelperJournal {
  import opened Common
  import opened ActEngine
  import opened CacheHelper

  // ------------------------------------------- what sound rows let through, exactly

  ghost function NoHelpers(owner: string): Helpers {
    Helpers(owner, map[], None)
  }

  /** Not yet created, or created as this very container. */
  predicate Registrable(h: Helper, id: string, at: Time) {
    && Hex(id, 64) && at.Finite? && at.value >= h.updatedAt
    && (h.state.HelperPending? || (h.state.Created? && h.containerId == Some(id)))
  }

  lemma {:induction false} RegisterExact(s: Helpers, nonce: string, id: string, at: Time)
    requires AllSound(s)
    ensures RegisterHelper(s, nonce, id, at).Ok? <==> nonce in s.rows && Registrable(s.rows[nonce], id, at)
    ensures RegisterHelper(s, nonce, id, at).Ok? ==>
              RegisterHelper(s, nonce, id, at).value ==
              if s.rows[nonce].state.Created? then s
              else s.(rows := s.rows[nonce := s.rows[nonce].(containerId := Some(id), state := Created, updatedAt := at.value)])
  {
    FindSound(s, nonce);
  }

  /** The registered container, seen gone. */
  predicate Finishable(h: Helper, id: string, at: Time) {
    h.state.Created? && h.containerId == Some(id) && at.Finite? && at.value >= h.updatedAt
  }

  lemma {:induction false} FinishExact(s: Helpers, nonce: string, id: string, at: Time)
    requires AllSound(s)
    ensures FinishHelper(s, nonce, id, at).Ok? <==> nonce in s.rows && Finishable(s.rows[nonce], id, at)
    ensures FinishHelper(s, nonce, id, at).Ok? ==>
              FinishHelper(s, nonce, id, at).value ==
              s.(rows := s.rows[nonce := s.rows[nonce].(state := Removed, updatedAt := at.value)])
  {
    FindSound(s, nonce);
  }

  /** Never created, and too late to be. */
  predicate NeverCreated(h: Helper, at: Time) {
    h.state.HelperPending? && at.Finite? && at.value >= Stamp(h.intent.createdAt) + 630.0
  }

  lemma {:induction false} AbsentExact(s: Helpers, nonce: string, at: Time)
    requires AllSound(s)
    ensures FinishAbsent(s, nonce, at).Ok? <==> nonce in s.rows && NeverCreated(s.rows[nonce], at)
    ensures FinishAbsent(s, nonce, at).Ok? ==>
              FinishAbsent(s, nonce, at).value ==
              s.(rows := s.rows[nonce := s.rows[nonce].(state := Removed, updatedAt := at.value)])
  {
    FindSound(s, nonce);
  }

  /** Removed, old enough, and named by no live engine. */
  predicate Expired(h: Helper, now: Time, referenced: bool) {
    h.state.Removed? && now.Finite? && h.updatedAt < now.value - 604800.0 && !referenced
  }

  lemma {:induction false} ForgetExact(s: Helpers, nonce: string, now: Time, referenced: bool)
    requires AllSound(s)
    ensures ForgetHelper(s, nonce, now, referenced).Ok? <==> nonce in s.rows && Expired(s.rows[nonce], now, referenced)
  {
    FindSound(s, nonce);
  }

  // --------------------------------------------------------------- one transaction

  /** A transaction did what `spec` says, or was rolled back with its problem. */
  ghost predicate Did(before: Helpers, after: Helpers, p: Option<HelperProblem>, spec: Result<Helpers, HelperProblem>) {
    match spec
    case Ok(t) => p.None? && after == t
    case Err(e) => p == Some(e) && after == before
  }

  /** What every transaction leaves behind, accepted or not. */
  lemma {:induction false} Committed(owner: string, log: seq<HelperCall>, s: Helpers, c: HelperCall, t: Helpers, p: Option<HelperProblem>)
    requires s == Execute(NoHelpers(owner), log) && AllSound(s) && Did(s, t, p, CacheHelper.Step(s, c))
    ensures t == Execute(NoHelpers(owner), log + [c]) && AllSound(t)
    ensures p.Some? ==> !p.value.BadRow? && t == s
  {
    var next := log + [c];
    assert next[..|next| - 1] == log && next[|next| - 1] == c;
    StepSound(s, c);
  }

  /**
   * The helper rows. `log` is every transaction so far; the rows are what that log makes of none, so
   * what is proved of every run of calls holds of every object.
   */
  class HelperRegistry {
    const owner: string
    var rows: map<string, Helper>
    var floor: Option<real>
    ghost var log: seq<HelperCall>

    ghost predicate Valid()
      reads this
    {
      AllSound(Contents()) && Contents() == Execute(NoHelpers(owner), log)
    }

    constructor (owner: string)
      ensures Valid() && log == [] && Contents() == NoHelpers(owner)
    {
      this.owner := owner;
      rows, floor, log := map[], None, [];
    }

    function Contents(): Helpers
      reads this
    {
      Helpers(owner, rows, floor)
    }

    // ------------------------------------------------- the steps of each transaction

    method ReadRow(nonce: string) returns (r: Result<Option<Helper>, HelperProblem>)
      ensures r == LoadHelper(Contents(), nonce)
    {
      if !CanonicalRun(nonce) {
        return Err(BadNonce);
      }
      if nonce !in rows {
        return Ok(None);
      }
      var record := rows[nonce];
      if !ValidHelper(record, nonce) {
        return Err(BadRow);
      }
      if record.intent.registryId != owner {
        return Err(WrongOwner);
      }
      return Ok(Some(record));
    }

    method Find(nonce: string) returns (r: Result<Helper, HelperProblem>)
      ensures r == FindHelper(Contents(), nonce)
    {
      var loaded := ReadRow(nonce);
      match loaded {
        case Err(e) => return Err(e);
        case Ok(None) => return Err(HelperMissing);
        case Ok(Some(record)) => return Ok(record);
      }
    }

    method Store(record: Helper, admitted: bool) returns (p: Option<HelperProblem>)
      modifies this`rows
      ensures Did(old(Contents()), Contents(), p, SaveHelper(old(Contents()), record, admitted))
    {
      var nonce := record.intent.nonce;
      if !ValidHelper(record, nonce) {
        return Some(BadRow);
      }
      if record.intent.registryId != owner {
        return Some(WrongOwner);
      }
      if nonce !in rows {
        if floor.Some? && record.intent.createdAt.value <= floor.value {
          return Some(Predates);
        }
        if !admitted {
          return Some(NotAdmitted);
        }
      }
      rows := rows[nonce := record];
      return None;
    }

    method TryBegin(i: HelperIntent, admitted: bool) returns (p: Option<HelperProblem>)
      modifies this`rows, this`floor
      ensures Did(old(Contents()), Contents(), p, BeginHelper(old(Contents()), i, admitted))
    {
      if !ValidHelperIntent(i) {
        return Some(BadHelperIntent);
      }
      var loaded := ReadRow(i.nonce);
      if loaded.Err? {
        return Some(loaded.error);
      }
      if loaded.value.Some? {
        return Some(NonceUsed);
      }
      p := Store(Helper(1, i, HelperPending, None, i.createdAt.value), admitted);
    }

    method TryRegister(nonce: string, id: string, at: Time) returns (p: Option<HelperProblem>)
      modifies this`rows, this`floor
      ensures Did(old(Contents()), Contents(), p, RegisterHelper(old(Contents()), nonce, id, at))
    {
      var found := Find(nonce);
      if found.Err? {
        return Some(found.error);
      }
      var record := found.value;
      if || !Hex(id, 64) || at.NotFinite? || at.value < record.updatedAt || record.state.Removed?
         || (record.containerId.Some? && record.containerId.value != id) {
        return Some(BadRegistration);
      }
      if record.state.Created? {
        return None;
      }
      record := record.(containerId := Some(id));
      record := record.(state := Created);
      record := record.(updatedAt := at.value);
      p := Store(record, true);
    }

    method TryFinish(nonce: string, id: string, at: Time) returns (p: Option<HelperProblem>)
      modifies this`rows, this`floor
      ensures Did(old(Contents()), Contents(), p, FinishHelper(old(Contents()), nonce, id, at))
    {
      var found := Find(nonce);
      if found.Err? {
        return Some(found.error);
      }
      var record := found.value;
      if !record.state.Created? || record.containerId != Some(id) || at.NotFinite? || at.value < record.updatedAt {
        return Some(BadRemoval);
      }
      record := record.(state := Removed);
      record := record.(updatedAt := at.value);
      p := Store(record, true);
    }

    method TryFinishMissing(nonce: string, at: Time) returns (p: Option<HelperProblem>)
      modifies this`rows, this`floor
      ensures Did(old(Contents()), Contents(), p, FinishAbsent(old(Contents()), nonce, at))
    {
      var found := Find(nonce);
      if found.Err? {
        return Some(found.error);
      }
      var record := found.value;
      if || !record.state.HelperPending? || record.containerId.Some? || at.NotFinite?
         || at.value < record.intent.createdAt.value + LATE_CREATE_WINDOW {
        return Some(BadRemoval);
      }
      record := record.(state := Removed);
      record := record.(updatedAt := at.value);
      p := Store(record, true);
    }

    /** Raise the floor, then drop the row. */
    method TryForget(nonce: string, now: Time, referenced: bool) returns (p: Option<HelperProblem>)
      modifies this`rows, this`floor
      ensures Did(old(Contents()), Contents(), p, ForgetHelper(old(Contents()), nonce, now, referenced))
    {
      var found := Find(nonce);
      if found.Err? {
        return Some(found.error);
      }
      var record := found.value;
      if now.NotFinite? || !record.state.Removed? || record.updatedAt >= now.value - KEEP_SECONDS || referenced {
        return Some(NotCollectible);
      }
      var createdAt := record.intent.createdAt.value;
      if floor.None? || floor.value < createdAt {
        floor := Some(createdAt);
      }
      rows := rows - {nonce};
      return None;
    }

    // ----------------------------------------- the transactions on valid helper rows

    /** Valid rows are answered as stored: none is malformed or another registry's. */
    method Load(nonce: string) returns (r: Result<Option<Helper>, HelperProblem>)
      requires Valid()
      ensures r == if !CanonicalRun(nonce) then Err(BadNonce) else Ok(if nonce in rows then Some(rows[nonce]) else None)
      ensures nonce in rows ==> CanonicalRun(nonce) && HelperSound(rows[nonce], nonce, owner)
    {
      FindSound(Contents(), nonce);
      r := ReadRow(nonce);
    }

    method Begin(i: HelperIntent, admitted: bool) returns (p: Option<HelperProblem>)
      requires Valid()
      modifies this
      ensures Valid() && log == old(log) + [BeginCall(i, admitted)]
      ensures p.None? <==> 
              && ValidHelperIntent(i) && i.registryId == owner && i.nonce !in old(rows)
              && (old(floor).Some? ==> i.createdAt.value > old(floor).value) && admitted
      ensures p.None? ==>
                rows == old(rows)[i.nonce := Helper(1, i, HelperPending, None, i.createdAt.value)] && floor == old(floor)
      ensures p.Some? ==> !p.value.BadRow? && Contents() == old(Contents())
    {
      ghost var before, c := Contents(), BeginCall(i, admitted);
      BeginExact(before, i, admitted);
      p := TryBegin(i, admitted);
      Committed(owner, log, before, c, Contents(), p);
      log := log + [c];
    }

    method Register(nonce: string, id: string, at: Time) returns (p: Option<HelperProblem>)
      requires Valid()
      modifies this
      ensures Valid() && log == old(log) + [RegisterCall(nonce, id, at)]
      ensures p.None? <==> nonce in old(rows) && Registrable(old(rows)[nonce], id, at)
      ensures p.None? ==> floor == old(floor) && nonce in rows && rows[nonce].state.Created? && rows[nonce].containerId == Some(id)
      ensures p.None? && old(rows)[nonce].state.Created? ==> rows == old(rows)
      ensures p.None? && old(rows)[nonce].state.HelperPending? ==>
                rows == old(rows)[nonce := old(rows)[nonce].(containerId := Some(id), state := Created, updatedAt := at.value)]
      ensures p.Some? ==> !p.value.BadRow? && Contents() == old(Contents())
    {
      ghost var before, c := Contents(), RegisterCall(nonce, id, at);
      RegisterExact(before, nonce, id, at);
      p := TryRegister(nonce, id, at);
      Committed(owner, log, before, c, Contents(), p);
      log := log + [c];
    }

    method Finish(nonce: string, id: string, at: Time) returns (p: Option<HelperProblem>)
      requires Valid()
      modifies this
      ensures Valid() && log == old(log) + [FinishCall(nonce, id, at)]
      ensures p.None? <==> nonce in old(rows) && Finishable(old(rows)[nonce], id, at)
      ensures p.None? ==>
                rows == old(rows)[nonce := old(rows)[nonce].(state := Removed, updatedAt := at.value)] && floor == old(floor)
      ensures p.Some? ==> !p.value.BadRow? && Contents() == old(Contents())
    {
      ghost var before, c := Contents(), FinishCall(nonce, id, at);
      FinishExact(before, nonce, id, at);
      p := TryFinish(nonce, id, at);
      Committed(owner, log, before, c, Contents(), p);
      log := log + [c];
    }

    method FinishMissing(nonce: string, at: Time) returns (p: Option<HelperProblem>)
      requires Valid()
      modifies this
      ensures Valid() && log == old(log) + [AbsentCall(nonce, at)]
      ensures p.None? <==> nonce in old(rows) && NeverCreated(old(rows)[nonce], at)
      ensures p.None? ==>
                rows == old(rows)[nonce := old(rows)[nonce].(state := Removed, updatedAt := at.value)] && floor == old(floor)
      ensures p.Some? ==> !p.value.BadRow? && Contents() == old(Contents())
    {
      ghost var before, c := Contents(), AbsentCall(nonce, at);
      AbsentExact(before, nonce, at);
      p := TryFinishMissing(nonce, at);
      Committed(owner, log, before, c, Contents(), p);
      log := log + [c];
    }

    /** The floor comes to cover what is dropped, and rises no further. */
    method Forget(nonce: string, now: Time, referenced: bool) returns (p: Option<HelperProblem>)
      requires Valid()
      modifies this
      ensures Valid() && log == old(log) + [ForgetCall(nonce, now, referenced)]
      ensures p.None? <==> nonce in old(rows) && Expired(old(rows)[nonce], now, referenced)
      ensures p.None? ==>
                && rows == old(rows) - {nonce} && floor.Some?
                && floor.value >= Stamp(old(rows)[nonce].intent.createdAt) && (old(floor).Some? ==> floor.value >= old(floor).value)
                && (floor == old(floor) || floor.value == Stamp(old(rows)[nonce].intent.createdAt))
      ensures p.Some? ==> !p.value.BadRow? && Contents() == old(Contents())
    {
      ghost var before, c := Contents(), ForgetCall(nonce, now, referenced);
      ForgetExact(before, nonce, now, referenced);
      FindSound(before, nonce);
      p := TryForget(nonce, now, referenced);
      Committed(owner, log, before, c, Contents(), p);
      log := log + [c];
    }

    /** Forgetting an engine raises the same floor. */
    method ForgetEngine(createdAt: real)
      requires Valid()
      modifies this
      ensures Valid() && log == old(log) + [EngineForgotten(createdAt)]
      ensures rows == old(rows) && floor.Some? && floor.value >= createdAt && (old(floor).Some? ==> floor.value >= old(floor).value)
    {
      ghost var before, c := Contents(), EngineForgotten(createdAt);
      if floor.None? || floor.value < createdAt {
        floor := Some(createdAt);
      }
      Committed(owner, log, before, c, Contents(), None);
      log := log + [c];
    }

    /** An intent this object once began is never begun by it again, whatever was forgotten since. */
    lemma Spent(k: nat, admitted: bool)
      requires Valid() && k < |log| && log[k].BeginCall? && Accepted(NoHelpers(owner), log, k)
      ensures BeginHelper(Contents(), log[k].intent, admitted).Err?
    {
      var next := log + [BeginCall(log[k].intent, admitted)];
      assert next[..|log|] == log && next[..k] == log[..k] && next[k] == log[k];
      assert Accepted(NoHelpers(owner), next, k);
      ReplayRefused(NoHelpers(owner), next, k, |log|);
    }
  }
}
