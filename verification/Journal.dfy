/** The event journal: the current row of every key, and the bounded audit tail behind it. */
module Journal {
  import opened Common

  const AUDIT_TAIL := 3
  const MAX_ROWID := 0x7fff_ffff_ffff_ffff

  datatype Family = Engine | Helper
  datatype Key = Key(family: Family, id: string)

  /** The typed row a snapshot's text decodes to. */
  datatype Snapshot = Snapshot(
    detail: string, pending: bool, toolsPending: bool, source: Option<string>, releaseOwner: Option<string>,
    engineRun: Option<string>, createdAt: real, updatedAt: real, collectAfter: real, collectible: bool)

  /** What an event's kind and detail parse to. */
  datatype Entry = Malformed | Plain(detail: string) | Snap(key: Key, snapshot: Snapshot)

  /** A live write carries the retention policy's verdict; an import names its event ID. */
  datatype Mode = Live(admitted: bool) | Import(id: int)

  datatype Tables = Tables(events: map<int, Entry>, sequence: int, current: map<Key, Snapshot>, tail: map<int, Key>)

  datatype Problem = BadEntry | Refused | IdTaken | Full | TailOverrun

  // ------------------------------------------------------------------ the tables

  ghost function IdsOf(tail: map<int, Key>, key: Key): set<int> {
    set id | id in tail && tail[id] == key
  }

  ghost function Above(ids: set<int>, x: int): set<int> {
    set y | y in ids && y > x
  }

  /** The row at offset `AUDIT_TAIL` when the IDs are read from the largest down. */
  ghost predicate AtOffset(ids: set<int>, x: int) {
    x in ids && |Above(ids, x)| == AUDIT_TAIL
  }

  ghost function OffsetRow(ids: set<int>): (row: Option<int>)
    ensures row.Some? ==> AtOffset(ids, row.value)
    ensures row.None? ==> forall x :: !AtOffset(ids, x)
  {
    if exists x :: AtOffset(ids, x) then
      var x :| AtOffset(ids, x);
      Some(x)
    else None
  }

  function NewId(t: Tables, mode: Mode): Result<int, Problem> {
    match mode
    case Live(_) => if t.sequence >= MAX_ROWID then Err(Full) else Ok(t.sequence + 1)
    case Import(id) => if id in t.events then Err(IdTaken) else Ok(id)
  }

  function Max(a: int, b: int): int {
    if a < b then b else a
  }

  function Inserted(t: Tables, id: int, e: Entry): Tables {
    t.(events := t.events[id := e], sequence := Max(t.sequence, id))
  }

  /** `INSERT OR IGNORE` into the tail, then drop the row at the offset with its event. */
  ghost function Retained(t: Tables, key: Key, id: int): Tables {
    var tail := if id in t.tail then t.tail else t.tail[id := key];
    match OffsetRow(IdsOf(tail, key))
    case Some(x) => t.(events := t.events - {x}, tail := tail - {x})
    case None => t.(tail := tail)
  }

  ghost function Installed(t: Tables, key: Key, snapshot: Snapshot, id: int): Tables {
    if forall x :: x in IdsOf(t.tail, key) ==> x < id then t.(current := t.current[key := snapshot]) else t
  }

  ghost function Append(t: Tables, mode: Mode, e: Entry): Result<Tables, Problem> {
    if e.Malformed? then Err(BadEntry)
    else if mode.Live? && e.Snap? && !mode.admitted then Err(Refused)
    else match NewId(t, mode)
      case Err(p) => Err(p)
      case Ok(id) =>
        var inserted := Inserted(t, id, e);
        if e.Plain? then Ok(inserted)
        else Ok(Retained(Installed(inserted, e.key, e.snapshot, id), e.key, id))
  }

  ghost function Removed(t: Tables, key: Key): Tables {
    var ids := IdsOf(t.tail, key);
    t.(events := t.events - ids, tail := t.tail - ids, current := t.current - {key})
  }

  /** `remove`: the key's events, its tail and its current row; the tail is read with room for its bound only. */
  ghost function Forget(t: Tables, key: Key): Result<Tables, Problem> {
    if |IdsOf(t.tail, key)| > AUDIT_TAIL then Err(TailOverrun) else Ok(Removed(t, key))
  }

  // ----------------------------------------------------------------- the agreement

  /** One accepted snapshot, under the event ID it was given. */
  datatype Logged = Logged(id: int, key: Key, snapshot: Snapshot)

  ghost function Ids(log: seq<Logged>, key: Key): set<int> {
    set i | 0 <= i < |log| && log[i].key == key :: log[i].id
  }

  /** `top` holds the three largest of `all`, or all of them when there are fewer. */
  ghost predicate Largest(top: set<int>, all: set<int>) {
    && top <= all
    && |top| == (if |all| < 3 then |all| else 3)
    && forall x, y :: x in top && y in all && y !in top ==> y < x
  }

  /** Position `i` holds the snapshot with the largest ID ever appended for the key. */
  ghost predicate Newest(log: seq<Logged>, key: Key, i: nat) {
    && i < |log| && log[i].key == key
    && forall j :: 0 <= j < |log| && log[j].key == key && j != i ==> log[j].id < log[i].id
  }

  ghost predicate CurrentAgrees(t: Tables, log: seq<Logged>, key: Key) {
    && (key in t.current <==> Ids(log, key) != {})
    && (key in t.current ==> exists i: nat :: Newest(log, key, i) && t.current[key] == log[i].snapshot)
  }

  ghost predicate TailAgrees(t: Tables, log: seq<Logged>, key: Key) {
    Largest(IdsOf(t.tail, key), Ids(log, key))
  }

  /** The snapshot rows left in `events` are exactly the tails. */
  ghost predicate EventsAgree(t: Tables) {
    && (forall id :: id in t.tail ==> id in t.events && t.events[id].Snap? && t.events[id].key == t.tail[id])
    && (forall id :: id in t.events && t.events[id].Snap? ==> id in t.tail)
    && (forall id :: id in t.events ==> !t.events[id].Malformed? && id <= t.sequence)
  }

  ghost predicate LogBelow(t: Tables, log: seq<Logged>) {
    forall i :: 0 <= i < |log| ==> log[i].id <= t.sequence
  }

  ghost predicate Agrees(t: Tables, log: seq<Logged>) {
    && (forall key :: CurrentAgrees(t, log, key))
    && (forall key :: TailAgrees(t, log, key))
    && EventsAgree(t) && LogBelow(t, log)
  }

  // -------------------------------------------------------------- sets of event IDs

  lemma {:induction false} SomeMember(ids: set<int>)
    requires ids != {}
    ensures exists x :: x in ids
  {
    if forall x :: x !in ids {
      assert false;
    }
  }

  lemma {:induction false} Least(ids: set<int>) returns (m: int)
    requires |ids| > 0
    ensures m in ids && forall x :: x in ids ==> m <= x
  {
    SomeMember(ids);
    m :| m in ids;
    var rest := ids - {m};
    assert ids == rest + {m};
    if |rest| > 0 {
      var other := Least(rest);
      if other < m {
        m := other;
      }
    }
  }

  lemma {:induction false} OffsetIsLeast(ids: set<int>, x: int)
    requires |ids| <= AUDIT_TAIL + 1
    ensures AtOffset(ids, x) ==> |ids| == AUDIT_TAIL + 1 && forall y :: y in ids && y != x ==> y > x
  {
    if AtOffset(ids, x) {
      var others := ids - {x};
      assert Above(ids, x) <= others;
      assert |others| == |ids| - 1;
      SubsetFull(Above(ids, x), others);
      forall y | y in ids && y != x ensures y > x {
        assert y in others;
      }
    }
  }

  lemma {:induction false} SubsetFull(a: set<int>, b: set<int>)
    requires a <= b
    ensures |a| <= |b|
    ensures |a| == |b| ==> a == b
  {
    assert b == a + (b - a);
    assert |b| == |a| + |b - a|;
  }

  lemma {:induction false} LeastAtOffset(ids: set<int>) returns (x: int)
    requires |ids| == AUDIT_TAIL + 1
    ensures AtOffset(ids, x)
  {
    x := Least(ids);
    assert Above(ids, x) == ids - {x};
  }

  /** Adding one ID to the largest and dropping the fourth leaves the largest. */
  lemma {:induction false} LargestGrows(top: set<int>, all: set<int>, id: int)
    requires Largest(top, all) && id !in top && |top| < AUDIT_TAIL
    ensures Largest(top + {id}, all + {id}) && |top + {id}| <= AUDIT_TAIL
  {
    SubsetFull(top, all);
    assert top == all;
    assert all + {id} == top + {id};
    assert |top + {id}| == |top| + 1;
  }

  lemma {:induction false} LargestShifts(top: set<int>, all: set<int>, id: int, x: int)
    requires Largest(top, all) && id !in top && |top| == AUDIT_TAIL
    requires x in top + {id} && forall y :: y in top + {id} && y != x ==> y > x
    ensures Largest(top + {id} - {x}, all + {id})
  {
    var grown, kept := top + {id}, top + {id} - {x};
    assert |grown| == AUDIT_TAIL + 1 && |kept| == AUDIT_TAIL;
    SubsetFull(top, all + {id});
    forall a, b | a in kept && b in all + {id} && b !in kept ensures b < a {
      if b != x {
        assert b in all && b !in top;
        assert a in top ==> b < a;
        if a == id && x in top {
          assert b < x;
        }
      }
    }
  }

  // ------------------------------------------------------------------- one append

  /** What the log gains from an accepted append. */
  ghost function Note(log: seq<Logged>, t: Tables, mode: Mode, e: Entry): seq<Logged> {
    if e.Snap? && Append(t, mode, e).Ok? then log + [Logged(NewId(t, mode).value, e.key, e.snapshot)] else log
  }

  lemma {:induction false} NewIdFresh(t: Tables, log: seq<Logged>, mode: Mode)
    requires Agrees(t, log) && NewId(t, mode).Ok?
    ensures NewId(t, mode).value !in t.events && NewId(t, mode).value !in t.tail
    ensures mode.Live? ==> NewId(t, mode).value > t.sequence
    ensures mode.Live? ==> forall i :: 0 <= i < |log| ==> log[i].id < NewId(t, mode).value
  {
  }

  lemma {:induction false} IdsGrow(log: seq<Logged>, l: Logged, key: Key)
    ensures Ids(log + [l], key) == if l.key == key then Ids(log, key) + {l.id} else Ids(log, key)
  {
    var longer := log + [l];
    assert forall i :: 0 <= i < |log| ==> longer[i] == log[i];
    assert longer[|log|] == l;
    forall x | x in Ids(log, key) ensures x in Ids(longer, key) {
      var i :| 0 <= i < |log| && log[i].key == key && log[i].id == x;
      assert longer[i].key == key;
    }
  }

  /** The tail after the insert, before anything is dropped. */
  lemma {:induction false} TailGrown(tail: map<int, Key>, id: int, key: Key, other: Key)
    requires id !in tail
    ensures IdsOf(tail[id := key], other) == if other == key then IdsOf(tail, other) + {id} else IdsOf(tail, other)
  {
  }

  lemma {:induction false} TailShrunk(tail: map<int, Key>, x: int, other: Key)
    requires x in tail
    ensures IdsOf(tail - {x}, other) == if other == tail[x] then IdsOf(tail, other) - {x} else IdsOf(tail, other)
  {
  }

  /** What retention leaves: the new ID in, and the least of four out. */
  lemma {:induction false} RetainedRows(t: Tables, key: Key, id: int) returns (dropped: Option<int>)
    requires id !in t.tail && |IdsOf(t.tail, key)| <= AUDIT_TAIL
    ensures Retained(t, key, id).current == t.current && Retained(t, key, id).sequence == t.sequence
    ensures dropped.None? <==> |IdsOf(t.tail, key)| < AUDIT_TAIL
    ensures dropped.None? ==> Retained(t, key, id) == t.(tail := t.tail[id := key])
    ensures dropped.Some? ==>
              && dropped.value in IdsOf(t.tail, key) + {id}
              && (forall y :: y in IdsOf(t.tail, key) + {id} && y != dropped.value ==> y > dropped.value)
              && Retained(t, key, id) == t.(events := t.events - {dropped.value}, tail := t.tail[id := key] - {dropped.value})
  {
    var tail := t.tail[id := key];
    var ids := IdsOf(tail, key);
    TailGrown(t.tail, id, key, key);
    assert |ids| == |IdsOf(t.tail, key)| + 1;
    dropped := None;
    if |ids| == AUDIT_TAIL + 1 {
      var least := LeastAtOffset(ids);
      dropped := OffsetRow(ids);
      OffsetIsLeast(ids, dropped.value);
    } else {
      forall x ensures !AtOffset(ids, x) {
        OffsetIsLeast(ids, x);
      }
    }
  }

  lemma {:induction false} TailsStay(t: Tables, log: seq<Logged>, e: Entry, id: int, after: Tables)
    requires (forall key :: TailAgrees(t, log, key)) && e.Snap? && id !in t.tail
    requires after.tail == Retained(t, e.key, id).tail
    ensures forall key :: TailAgrees(after, log + [Logged(id, e.key, e.snapshot)], key)
  {
    var l := Logged(id, e.key, e.snapshot);
    assert TailAgrees(t, log, e.key);
    var dropped := RetainedRows(t, e.key, id);
    forall key ensures TailAgrees(after, log + [l], key) {
      assert TailAgrees(t, log, key);
      IdsGrow(log, l, key);
      TailGrown(t.tail, id, e.key, key);
      if dropped.None? {
        if key == e.key {
          LargestGrows(IdsOf(t.tail, key), Ids(log, key), id);
        }
      } else {
        TailGrown(t.tail, id, e.key, e.key);
        TailShrunk(t.tail[id := e.key], dropped.value, key);
        if key == e.key {
          LargestShifts(IdsOf(t.tail, key), Ids(log, key), id, dropped.value);
        }
      }
    }
  }

  lemma {:induction false} NewestMoves(log: seq<Logged>, l: Logged, key: Key, i: nat)
    requires Newest(log, key, i) && (l.key == key ==> l.id < log[i].id)
    ensures Newest(log + [l], key, i)
  {
    var longer := log + [l];
    forall j | 0 <= j < |longer| && longer[j].key == key && j != i ensures longer[j].id < longer[i].id {
      assert j < |log| ==> longer[j] == log[j];
    }
  }

  /** The largest ID of a key is always in its tail, so the tail decides which snapshot is newest. */
  lemma {:induction false} TailDecides(t: Tables, log: seq<Logged>, key: Key, id: int)
    requires TailAgrees(t, log, key) && id !in IdsOf(t.tail, key)
    ensures (forall x :: x in IdsOf(t.tail, key) ==> x < id) <==> (forall x :: x in Ids(log, key) ==> x < id)
    ensures forall i: nat :: Newest(log, key, i) ==> log[i].id in IdsOf(t.tail, key)
    ensures (exists x :: x in IdsOf(t.tail, key) && x > id) <==> !(forall x :: x in IdsOf(t.tail, key) ==> x < id)
  {
    var top, all := IdsOf(t.tail, key), Ids(log, key);
    forall i: nat | Newest(log, key, i) ensures log[i].id in top {
      assert log[i].id in all;
      if log[i].id !in top {
        NonEmptyTop(top, all, log[i].id);
        var x :| x in top;
      }
    }
    if forall x :: x in top ==> x < id {
      forall x | x in all ensures x < id {
        if x !in top {
          NonEmptyTop(top, all, x);
          var y :| y in top;
        }
      }
    }
  }

  lemma {:induction false} NonEmptyTop(top: set<int>, all: set<int>, x: int)
    requires Largest(top, all) && x in all
    ensures exists y :: y in top
  {
    SubsetFull({x}, all);
    var least := Least(top);
  }

  lemma {:induction false} OthersCurrent(t: Tables, log: seq<Logged>, l: Logged, key: Key, after: Tables)
    requires CurrentAgrees(t, log, key) && l.key != key
    requires key in after.current <==> key in t.current
    requires key in t.current ==> after.current[key] == t.current[key]
    ensures CurrentAgrees(after, log + [l], key)
  {
    IdsGrow(log, l, key);
    if key in t.current {
      var i: nat :| Newest(log, key, i) && t.current[key] == log[i].snapshot;
      NewestMoves(log, l, key, i);
      assert (log + [l])[i] == log[i];
    }
  }

  lemma {:induction false} OwnCurrent(t: Tables, log: seq<Logged>, l: Logged, after: Tables)
    requires CurrentAgrees(t, log, l.key) && TailAgrees(t, log, l.key) && l.id !in t.tail
    requires after.current == Installed(t, l.key, l.snapshot, l.id).current
    ensures CurrentAgrees(after, log + [l], l.key)
  {
    var longer := log + [l];
    IdsGrow(log, l, l.key);
    TailDecides(t, log, l.key, l.id);
    assert l.id in Ids(longer, l.key);
    if forall x :: x in IdsOf(t.tail, l.key) ==> x < l.id {
      forall j | 0 <= j < |longer| && longer[j].key == l.key && j != |log| ensures longer[j].id < l.id {
        assert longer[j] == log[j];
        assert log[j].id in Ids(log, l.key);
      }
      assert Newest(longer, l.key, |log|) && after.current[l.key] == longer[|log|].snapshot;
    } else {
      var x :| x in IdsOf(t.tail, l.key) && x > l.id;
      assert x in Ids(log, l.key);
      var i: nat :| Newest(log, l.key, i) && t.current[l.key] == log[i].snapshot;
      var j :| 0 <= j < |log| && log[j].key == l.key && log[j].id == x;
      assert log[j].id <= log[i].id;
      NewestMoves(log, l, l.key, i);
      assert longer[i] == log[i];
    }
  }

  lemma {:induction false} CurrentsStay(t: Tables, log: seq<Logged>, l: Logged, after: Tables)
    requires (forall key :: CurrentAgrees(t, log, key)) && TailAgrees(t, log, l.key) && l.id !in t.tail
    requires after.current == Installed(t, l.key, l.snapshot, l.id).current
    ensures forall key :: CurrentAgrees(after, log + [l], key)
  {
    forall key ensures CurrentAgrees(after, log + [l], key) {
      assert CurrentAgrees(t, log, key);
      if key == l.key {
        OwnCurrent(t, log, l, after);
      } else {
        OthersCurrent(t, log, l, key, after);
      }
    }
  }

  lemma {:induction false} EventsStay(t: Tables, e: Entry, id: int)
    requires EventsAgree(t) && e.Snap? && id !in t.events && |IdsOf(t.tail, e.key)| <= AUDIT_TAIL
    ensures EventsAgree(Retained(Installed(Inserted(t, id, e), e.key, e.snapshot, id), e.key, id))
  {
    var before := Installed(Inserted(t, id, e), e.key, e.snapshot, id);
    assert before.tail == t.tail && id !in t.tail;
    var dropped := RetainedRows(before, e.key, id);
  }

  /** Any append, live or imported under any free ID, keeps the tables in agreement with the history. */
  lemma {:induction false} AppendAgrees(t: Tables, log: seq<Logged>, mode: Mode, e: Entry)
    requires Agrees(t, log) && Append(t, mode, e).Ok?
    ensures Agrees(Append(t, mode, e).value, Note(log, t, mode, e))
  {
    var id, after := NewId(t, mode).value, Append(t, mode, e).value;
    NewIdFresh(t, log, mode);
    if e.Plain? {
      forall key ensures CurrentAgrees(after, log, key) && TailAgrees(after, log, key) {
        assert CurrentAgrees(t, log, key) && TailAgrees(t, log, key);
      }
    } else {
      var l := Logged(id, e.key, e.snapshot);
      var inserted := Inserted(t, id, e);
      var installed := Installed(inserted, e.key, e.snapshot, id);
      forall key ensures CurrentAgrees(inserted, log, key) && TailAgrees(installed, log, key) && TailAgrees(inserted, log, key) {
        assert CurrentAgrees(t, log, key) && TailAgrees(t, log, key);
      }
      assert TailAgrees(t, log, e.key);
      var dropped := RetainedRows(installed, e.key, id);
      TailsStay(installed, log, e, id, after);
      CurrentsStay(inserted, log, l, after);
      EventsStay(t, e, id);
      assert after.sequence == Max(t.sequence, id);
    }
  }

  // ------------------------------------------------------------------ one removal

  /** The log without what was appended for a key. */
  ghost function Without(log: seq<Logged>, key: Key): seq<Logged> {
    if log == [] then []
    else
      var last := log[|log| - 1];
      Without(log[..|log| - 1], key) + (if last.key == key then [] else [last])
  }

  lemma {:induction false} WithoutMembers(log: seq<Logged>, key: Key)
    ensures forall l :: l in Without(log, key) <==> l in log && l.key != key
  {
    if log != [] {
      var front, last := log[..|log| - 1], log[|log| - 1];
      assert log == front + [last];
      WithoutMembers(front, key);
    }
  }

  lemma {:induction false} WithoutIds(log: seq<Logged>, key: Key, other: Key)
    ensures Ids(Without(log, key), other) == if other == key then {} else Ids(log, other)
  {
    var rest := Without(log, key);
    WithoutMembers(log, key);
    forall x | x in Ids(rest, other) ensures other != key && x in Ids(log, other) {
      var i :| 0 <= i < |rest| && rest[i].key == other && rest[i].id == x;
      assert rest[i] in rest;
      var j :| 0 <= j < |log| && log[j] == rest[i];
    }
    if other != key {
      forall x | x in Ids(log, other) ensures x in Ids(rest, other) {
        var i :| 0 <= i < |log| && log[i].key == other && log[i].id == x;
        assert log[i] in rest;
        var j :| 0 <= j < |rest| && rest[j] == log[i];
      }
    }
  }

  /** What was newest for another key still is. */
  lemma {:induction false} WithoutNewest(log: seq<Logged>, key: Key, other: Key, i: nat) returns (k: nat)
    requires other != key && Newest(log, other, i)
    ensures Newest(Without(log, key), other, k) && Without(log, key)[k] == log[i]
  {
    var front, last := log[..|log| - 1], log[|log| - 1];
    var kept := Without(front, key);
    if i == |log| - 1 {
      k := |kept|;
      WithoutMembers(front, key);
      forall j | 0 <= j < |kept| && kept[j].key == other ensures kept[j].id < last.id {
        assert kept[j] in front;
        var m :| 0 <= m < |front| && front[m] == kept[j];
        assert log[m] == front[m];
      }
    } else {
      forall j | 0 <= j < |front| && front[j].key == other && j != i ensures front[j].id < front[i].id {
        assert log[j] == front[j];
      }
      k := WithoutNewest(front, key, other, i);
      if last.key != key {
        NewestMoves(kept, last, other, k);
      } else {
        assert kept + [] == kept;
      }
    }
  }

  lemma {:induction false} TailWithout(tail: map<int, Key>, key: Key, other: Key)
    ensures IdsOf(tail - IdsOf(tail, key), other) == if other == key then {} else IdsOf(tail, other)
  {
  }

  /** Removing a key leaves the tables in agreement with what was appended for the others. */
  lemma {:induction false} RemovedAgrees(t: Tables, log: seq<Logged>, key: Key)
    requires Agrees(t, log)
    ensures Forget(t, key) == Ok(Removed(t, key)) && Agrees(Removed(t, key), Without(log, key))
  {
    var after, rest := Removed(t, key), Without(log, key);
    assert TailAgrees(t, log, key);
    forall other ensures CurrentAgrees(after, rest, other) && TailAgrees(after, rest, other) {
      assert CurrentAgrees(t, log, other) && TailAgrees(t, log, other);
      WithoutIds(log, key, other);
      TailWithout(t.tail, key, other);
      if other != key && other in t.current {
        var i: nat :| Newest(log, other, i) && t.current[other] == log[i].snapshot;
        var k := WithoutNewest(log, key, other, i);
      }
    }
    WithoutMembers(log, key);
    forall i | 0 <= i < |rest| ensures rest[i].id <= after.sequence {
      assert rest[i] in rest;
    }
  }

  // ------------------------------------------------------------------ whole runs

  datatype Write = Write(mode: Mode, entry: Entry) | Forgotten(key: Key)

  ghost function Start(): Tables {
    Tables(map[], 0, map[], map[])
  }

  ghost function Step(t: Tables, w: Write): Result<Tables, Problem> {
    match w
    case Write(mode, entry) => Append(t, mode, entry)
    case Forgotten(key) => Forget(t, key)
  }

  ghost function Apply(t: Tables, w: Write): Tables {
    match Step(t, w)
    case Ok(after) => after
    case Err(_) => t
  }

  ghost function Execute(writes: seq<Write>): Tables {
    if writes == [] then Start() else Apply(Execute(writes[..|writes| - 1]), writes[|writes| - 1])
  }

  /** What was accepted, key by key since the key was last forgotten. */
  ghost function History(writes: seq<Write>): seq<Logged> {
    if writes == [] then []
    else
      var before, w := writes[..|writes| - 1], writes[|writes| - 1];
      match w
      case Write(mode, entry) => Note(History(before), Execute(before), mode, entry)
      case Forgotten(key) => Without(History(before), key)
  }

  /** Everything ever accepted, forgotten or not. */
  ghost function Ever(writes: seq<Write>): seq<Logged> {
    if writes == [] then []
    else
      var before, w := writes[..|writes| - 1], writes[|writes| - 1];
      match w
      case Write(mode, entry) => Note(Ever(before), Execute(before), mode, entry)
      case Forgotten(_) => Ever(before)
  }

  /** After any mix of live writes, imports and removals in any order, the tables agree with what was accepted since. */
  lemma {:induction false} JournalAgrees(writes: seq<Write>)
    ensures Agrees(Execute(writes), History(writes))
  {
    if writes == [] {
      forall key ensures CurrentAgrees(Start(), [], key) && TailAgrees(Start(), [], key) {
      }
    } else {
      var before, w := writes[..|writes| - 1], writes[|writes| - 1];
      JournalAgrees(before);
      match w {
        case Write(mode, entry) =>
          if Append(Execute(before), mode, entry).Ok? {
            AppendAgrees(Execute(before), History(before), mode, entry);
          }
        case Forgotten(key) => RemovedAgrees(Execute(before), History(before), key);
      }
    }
  }

  /** A removal never meets a tail it has no room for, and leaves nothing of the key. */
  lemma {:induction false} ForgetComplete(writes: seq<Write>, key: Key)
    ensures Forget(Execute(writes), key).Ok?
    ensures var after := Forget(Execute(writes), key).value;
            && key !in after.current && IdsOf(after.tail, key) == {}
            && (forall id :: id in after.events && after.events[id].Snap? ==> after.events[id].key != key)
            && (forall other :: other != key ==> IdsOf(after.tail, other) == IdsOf(Execute(writes).tail, other))
            && after.current == Execute(writes).current - {key} && after.sequence == Execute(writes).sequence
  {
    var t := Execute(writes);
    JournalAgrees(writes);
    RemovedAgrees(t, History(writes), key);
    forall other ensures IdsOf(Removed(t, key).tail, other) == if other == key then {} else IdsOf(t.tail, other) {
      TailWithout(t.tail, key, other);
    }
  }

  lemma {:induction false} EverBelow(writes: seq<Write>)
    ensures LogBelow(Execute(writes), Ever(writes))
  {
    if writes != [] {
      var before, w := writes[..|writes| - 1], writes[|writes| - 1];
      EverBelow(before);
      if w.Write? && Append(Execute(before), w.mode, w.entry).Ok? {
        SequenceGrows(Execute(before), w.mode, w.entry);
      }
    }
  }

  lemma {:induction false} SequenceGrows(t: Tables, mode: Mode, e: Entry)
    requires Append(t, mode, e).Ok?
    ensures Append(t, mode, e).value.sequence == Max(t.sequence, NewId(t, mode).value)
  {
  }

  /**
   * A live write gets an ID above every ID ever given, forgotten ones included, so it is what the
   * key's current row shows.
   */
  lemma {:induction false} LiveInstalls(writes: seq<Write>, mode: Mode, e: Entry)
    requires mode.Live? && e.Snap? && Append(Execute(writes), mode, e).Ok?
    ensures var id := NewId(Execute(writes), mode).value;
            && id == Execute(writes).sequence + 1
            && (forall i :: 0 <= i < |Ever(writes)| ==> Ever(writes)[i].id < id)
            && id !in Execute(writes).events
            && Append(Execute(writes), mode, e).value.current == Execute(writes).current[e.key := e.snapshot]
  {
    var t := Execute(writes);
    JournalAgrees(writes);
    EverBelow(writes);
    NewIdFresh(t, History(writes), mode);
    var id := NewId(t, mode).value;
    var inserted := Inserted(t, id, e);
    assert TailAgrees(t, History(writes), e.key);
    var dropped := RetainedRows(Installed(inserted, e.key, e.snapshot, id), e.key, id);
    assert forall x :: x in IdsOf(t.tail, e.key) ==> x in t.events && x <= t.sequence;
  }
}
