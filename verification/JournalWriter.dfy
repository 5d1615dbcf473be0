/** The journal's write path over its three tables. */
module JournalWriter {
  import opened Common
  import opened Journal

  lemma {:induction false} OffsetUnique(ids: set<int>, x: int, y: int)
    requires AtOffset(ids, x) && AtOffset(ids, y)
    ensures x == y
  {
    if x < y {
      OffsetHigher(ids, x, y);
    } else if y < x {
      OffsetHigher(ids, y, x);
    }
  }

  lemma {:induction false} OffsetHigher(ids: set<int>, x: int, y: int)
    requires x in ids && y in ids && x < y
    ensures |Above(ids, y)| < |Above(ids, x)|
  {
    SubsetFull(Above(ids, y) + {y}, Above(ids, x));
  }

  /** One more write on a run of writes. */
  lemma {:induction false} Record(writes: seq<Write>, w: Write, before: Tables, after: Tables)
    requires before == Execute(writes) && after == Apply(before, w)
    ensures after == Execute(writes + [w]) && Agrees(after, History(writes + [w]))
    ensures w.Forgotten? ==> History(writes + [w]) == Without(History(writes), w.key)
  {
    var next := writes + [w];
    assert next[..|next| - 1] == writes && next[|next| - 1] == w;
    JournalAgrees(next);
  }

  class Writer {
    var events: map<int, Entry>
    var sequence: int
    var current: map<Key, Snapshot>
    var tail: map<int, Key>
    ghost var writes: seq<Write>

    /** The tables are what the writes so far make of empty ones. */
    ghost predicate Valid()
      reads this
    {
      Contents() == Execute(writes)
    }

    constructor ()
      ensures Valid() && writes == []
    {
      events, sequence, current, tail, writes := map[], 0, map[], map[], [];
    }

    function Contents(): Tables
      reads this
    {
      Tables(events, sequence, current, tail)
    }

    /** `ORDER BY event_id DESC LIMIT 1`. */
    method LargestId(key: Key) returns (largest: Option<int>)
      ensures largest.None? <==> IdsOf(tail, key) == {}
      ensures largest.Some? ==> largest.value in IdsOf(tail, key) && forall x :: x in IdsOf(tail, key) ==> x <= largest.value
    {
      var left := set id | id in tail && tail[id] == key;
      ghost var ids := left;
      assert ids == IdsOf(tail, key);
      largest := None;
      while left != {}
        invariant left <= ids
        invariant largest.None? ==> left == ids
        invariant largest.Some? ==> largest.value in ids && forall x :: x in ids && x !in left ==> x <= largest.value
        decreases |left|
      {
        SomeMember(left);
        var x :| x in left;
        if largest.None? || largest.value < x {
          largest := Some(x);
        }
        left := left - {x};
      }
    }

    /** `ORDER BY event_id DESC LIMIT 1 OFFSET AUDIT_TAIL`. */
    method RowAtOffset(key: Key) returns (row: Option<int>)
      ensures row == OffsetRow(IdsOf(tail, key))
    {
      var ids := set id | id in tail && tail[id] == key;
      assert ids == IdsOf(tail, key);
      var left := ids;
      row := None;
      while left != {} && row.None?
        invariant left <= ids
        invariant row.Some? ==> AtOffset(ids, row.value)
        invariant row.None? ==> forall x :: x in ids && x !in left ==> !AtOffset(ids, x)
        decreases |left|
      {
        SomeMember(left);
        var x :| x in left;
        var above := set y | y in ids && y > x;
        assert above == Above(ids, x);
        if |above| == AUDIT_TAIL {
          row := Some(x);
        }
        left := left - {x};
      }
      if row.Some? {
        OffsetUnique(ids, row.value, OffsetRow(ids).value);
      }
    }

    /** Upsert the key's current row. */
    method Install(key: Key, snapshot: Snapshot)
      modifies this`current
      ensures current == old(current)[key := snapshot]
    {
      current := current[key := snapshot];
    }

    method RetainEvent(key: Key, id: int)
      modifies this`tail, this`events
      ensures Contents() == Retained(old(Contents()), key, id)
    {
      if id !in tail {
        tail := tail[id := key];
      }
      var excess := RowAtOffset(key);
      if excess.Some? {
        events := events - {excess.value};
        tail := tail - {excess.value};
      }
    }

    method AppendEvent(mode: Mode, e: Entry) returns (p: Option<Problem>)
      requires Valid()
      modifies this
      ensures Valid() && writes == old(writes) + [Write(mode, e)]
      ensures Agrees(Contents(), History(writes))
      ensures match Append(old(Contents()), mode, e)
              case Ok(t) => p.None? && Contents() == t
              case Err(problem) => p == Some(problem) && Contents() == old(Contents())
    {
      p := InsertEvent(mode, e);
      Record(old(writes), Write(mode, e), old(Contents()), Contents());
      writes := writes + [Write(mode, e)];
    }

    method InsertEvent(mode: Mode, e: Entry) returns (p: Option<Problem>)
      modifies this`events, this`sequence, this`current, this`tail
      ensures match Append(old(Contents()), mode, e)
              case Ok(t) => p.None? && Contents() == t
              case Err(problem) => p == Some(problem) && Contents() == old(Contents())
    {
      if e.Malformed? {
        return Some(BadEntry);
      }
      if mode.Live? && e.Snap? && !mode.admitted {
        return Some(Refused);
      }
      var id;
      match mode {
        case Live(_) =>
          if sequence >= MAX_ROWID {
            return Some(Full);
          }
          id := sequence + 1;
        case Import(given) =>
          if given in events {
            return Some(IdTaken);
          }
          id := given;
      }
      events := events[id := e];
      sequence := Max(sequence, id);
      p := None;
      if e.Snap? {
        var prior := LargestId(e.key);
        if prior.None? || prior.value < id {
          Install(e.key, e.snapshot);
        }
        assert Contents() == Installed(Inserted(old(Contents()), id, e), e.key, e.snapshot, id);
        RetainEvent(e.key, id);
      }
    }

    /** Delete the events of the key's tail one by one, then the tail and the current row. */
    method DeleteRows(key: Key)
      modifies this`events, this`current, this`tail
      ensures Contents() == Removed(old(Contents()), key)
    {
      var ids := set id | id in tail && tail[id] == key;
      assert ids == IdsOf(tail, key);
      var left := ids;
      while left != {}
        invariant left <= ids && events == old(events) - (ids - left)
        invariant tail == old(tail) && current == old(current)
        decreases |left|
      {
        SomeMember(left);
        var x :| x in left;
        events := events - {x};
        left := left - {x};
      }
      assert ids - left == ids;
      tail := tail - ids;
      current := current - {key};
    }

    /** A removal always has room for the key's tail, and nothing of the key is left. */
    method ForgetKey(key: Key)
      requires Valid()
      modifies this
      ensures Valid() && writes == old(writes) + [Forgotten(key)]
      ensures Agrees(Contents(), Without(History(old(writes)), key))
      ensures key !in current && IdsOf(tail, key) == {} && sequence == old(sequence)
      ensures forall id :: id in events && events[id].Snap? ==> events[id].key != key
      ensures forall other :: other != key ==> IdsOf(tail, other) == IdsOf(old(tail), other)
      ensures current == old(current) - {key}
    {
      ForgetComplete(writes, key);
      DeleteRows(key);
      Record(old(writes), Forgotten(key), old(Contents()), Contents());
      writes := writes + [Forgotten(key)];
    }
  }
}
