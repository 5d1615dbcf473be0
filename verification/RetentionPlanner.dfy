/** The planner's passes over its two lists: eager rules, idle budget, caps. */
module RetentionPlanner {
  import opened Common
  import opened Lists
  import opened Order
  import opened Ownership
  import opened Retention

  // ------------------------------------------------------- positions in the held list

  /** A position in the held list, with the verdict found there. */
  datatype Item = Item(at: nat, verdict: Verdict)

  function ItemVerdict(i: Item): Verdict {
    i.verdict
  }

  predicate ItemOlder(a: Item, b: Item) {
    OlderFirst(a.verdict, b.verdict)
  }

  predicate Later(a: Item, b: Item) {
    a.at >= b.at
  }

  function FreeOne(v: Verdict): Verdict {
    v.(hold := None)
  }

  ghost predicate Tracks(items: seq<Item>, held: seq<Verdict>) {
    forall i :: 0 <= i < |items| ==> items[i].at < |held| && held[items[i].at] == items[i].verdict
  }

  ghost function Ats(items: seq<Item>): set<int> {
    set i | 0 <= i < |items| :: items[i].at as int
  }

  lemma {:induction false} FreedIsMap(vs: seq<Verdict>)
    ensures Freed(vs) == Map(vs, FreeOne)
  {
    if vs != [] {
      FreedIsMap(vs[1..]);
    }
  }

  lemma {:induction false} InsertVerdict(x: Item, s: seq<Item>)
    ensures Map(Insert(x, s, ItemOlder), ItemVerdict) == Insert(x.verdict, Map(s, ItemVerdict), OlderFirst)
  {
    if s != [] && !ItemOlder(x, s[0]) {
      InsertVerdict(x, s[1..]);
      assert Map(s, ItemVerdict)[1..] == Map(s[1..], ItemVerdict);
    } else {
      assert Map([x] + s, ItemVerdict) == [x.verdict] + Map(s, ItemVerdict);
    }
  }

  /** Sorting positions by the verdicts they name sorts the verdicts. */
  lemma {:induction false} SortVerdicts(s: seq<Item>)
    ensures Map(Sort(s, ItemOlder), ItemVerdict) == Sort(Map(s, ItemVerdict), OlderFirst)
  {
    if s != [] {
      SortVerdicts(s[1..]);
      assert Map(s, ItemVerdict)[1..] == Map(s[1..], ItemVerdict);
      InsertVerdict(s[0], Sort(s[1..], ItemOlder));
    }
  }

  // ----------------------------------------------------------------- taking items out

  lemma {:induction false} WithoutNone<T>(s: seq<T>, d: set<int>)
    requires forall x :: x in d ==> x >= |s|
    ensures Without(s, d) == s
  {
    if s != [] {
      WithoutNone(s[..|s| - 1], d);
    }
  }

  lemma {:induction false} WithoutBeyond<T>(s: seq<T>, d: set<int>, x: int)
    requires x >= |s|
    ensures Without(s, d + {x}) == Without(s, d)
  {
    if s != [] {
      WithoutBeyond(s[..|s| - 1], d, x);
    }
  }

  /** With only later positions gone, position `i` is still where it was, and removing it is removing it. */
  lemma {:induction false} RemoveLow<T>(s: seq<T>, d: set<int>, i: nat)
    requires i < |s| && forall x :: x in d ==> x > i
    ensures i < |Without(s, d)| && Without(s, d)[i] == s[i]
    ensures Without(s, d)[..i] + Without(s, d)[i + 1..] == Without(s, d + {i})
  {
    var front, n := s[..|s| - 1], |s| - 1;
    WithoutLast(s, d);
    WithoutLast(s, d + {i});
    if i == n {
      WithoutNone(front, d);
      WithoutBeyond(front, d, i);
    } else {
      RemoveLow(front, d, i);
      DropMiddle(Without(front, d), s[n], i);
    }
  }

  lemma {:induction false} WithoutLast<T>(s: seq<T>, d: set<int>)
    requires s != []
    ensures |s| - 1 in d ==> Without(s, d) == Without(s[..|s| - 1], d)
    ensures |s| - 1 !in d ==> Without(s, d) == Without(s[..|s| - 1], d) + [s[|s| - 1]]
  {
  }

  lemma {:induction false} DropMiddle<T>(w: seq<T>, x: T, i: nat)
    requires i < |w|
    ensures (w + [x])[i] == w[i]
    ensures (w + [x])[..i] + (w + [x])[i + 1..] == w[..i] + w[i + 1..] + [x]
  {
  }

  lemma {:induction false} PickMore<T>(s: seq<T>, d: set<int>, i: nat)
    requires i < |s| && i !in d
    ensures multiset(Picked(s, d + {i})) == multiset(Picked(s, d)) + multiset{s[i]}
  {
    var front, n := s[..|s| - 1], |s| - 1;
    if i == n {
      PickBeyond(front, d, i);
      assert Picked(s, d + {i}) == Picked(front, d) + [s[n]] && Picked(s, d) == Picked(front, d);
    } else {
      PickMore(front, d, i);
      assert front[i] == s[i];
      if n in d {
        assert Picked(s, d + {i}) == Picked(front, d + {i}) + [s[n]] && Picked(s, d) == Picked(front, d) + [s[n]];
      } else {
        assert Picked(s, d + {i}) == Picked(front, d + {i}) && Picked(s, d) == Picked(front, d);
      }
    }
  }

  lemma {:induction false} PickBeyond<T>(s: seq<T>, d: set<int>, x: int)
    requires x >= |s|
    ensures Picked(s, d + {x}) == Picked(s, d)
  {
    if s != [] {
      PickBeyond(s[..|s| - 1], d, x);
    }
  }

  lemma {:induction false} PickNone<T>(s: seq<T>)
    ensures Picked(s, {}) == []
  {
    if s != [] {
      PickNone(s[..|s| - 1]);
    }
  }

  lemma {:induction false} PickedItems(items: seq<Item>, held: seq<Verdict>)
    requires Tracks(items, held) && NoDup(items)
    ensures multiset(Picked(held, Ats(items))) == multiset(Map(items, ItemVerdict))
  {
    if items == [] {
      PickNone(held);
      assert Ats(items) == {};
    } else {
      var front, x := items[..|items| - 1], items[|items| - 1];
      assert items == front + [x];
      PickedItems(front, held);
      assert Ats(items) == Ats(front) + {x.at};
      assert x.at !in Ats(front) by {
        forall i | 0 <= i < |front| ensures front[i].at != x.at {
          assert items[i] == front[i] && items[|items| - 1] == x;
        }
      }
      PickMore(held, Ats(front), x.at);
      MapConcat(front, [x], ItemVerdict);
      assert Map([x], ItemVerdict) == [x.verdict];
    }
  }

  lemma {:induction false} SumAppend(vs: seq<Verdict>, v: Verdict)
    ensures Sum(vs + [v]) == Sum(vs) + Size(v)
  {
    assert (vs + [v])[..|vs|] == vs;
  }

  lemma {:induction false} FilterAppend<T>(s: seq<T>, i: nat, p: T -> bool)
    requires i < |s|
    ensures p(s[i]) ==> Filter(s[..i + 1], p) == Filter(s[..i], p) + [s[i]]
    ensures !p(s[i]) ==> Filter(s[..i + 1], p) == Filter(s[..i], p)
  {
    assert s[..i + 1] == s[..i] + [s[i]];
    FilterConcat(s[..i], [s[i]], p);
    FilterSingle(s[i], p);
  }

  lemma {:induction false} TaggedAppend(vs: seq<Verdict>, v: Verdict, obsolete: string -> Option<EagerReason>)
    ensures Tagged(vs + [v], obsolete) == Tagged(vs, obsolete) + [v.(hold := None, eager := obsolete(v.id))]
  {
    if vs == [] {
      assert vs + [v] == [v] && [v][1..] == [];
    } else {
      assert (vs + [v])[1..] == vs[1..] + [v];
      TaggedAppend(vs[1..], v, obsolete);
    }
  }

  lemma {:induction false} VerdictsAppend(artifacts: seq<Artifact>, i: nat, ours: Option<string>, p: Policy)
    requires i < |artifacts|
    ensures Verdicts(artifacts[..i + 1], ours, p) == Verdicts(artifacts[..i], ours, p) + [Classify(artifacts[i], ours, p)]
  {
    if i == 0 {
      assert artifacts[..1][1..] == [] && artifacts[..0] == [];
    } else {
      VerdictsAppend(artifacts[1..], i - 1, ours, p);
      assert artifacts[1..][..i] == artifacts[..i + 1][1..] && artifacts[1..][..i - 1] == artifacts[..i][1..];
    }
  }

  /** Dropping fewer than `m` of the oldest leaves too much. */
  ghost predicate OverUntil(order: seq<Verdict>, total: int, budget: int, m: nat) {
    m <= |order| && forall k :: 0 <= k < m ==> total - Sum(order[..k]) > budget
  }

  lemma {:induction false} OverNext(order: seq<Verdict>, total: int, budget: int, i: nat)
    requires i < |order| && OverUntil(order, total, budget, i) && total - Sum(order[..i]) > budget
    ensures OverUntil(order, total, budget, i + 1) && Sum(order[..i + 1]) == Sum(order[..i]) + Size(order[i])
  {
    SumAppend(order[..i], order[i]);
    assert order[..i + 1] == order[..i] + [order[i]];
  }

  /** `Needed` is the only number with its three properties. */
  lemma {:induction false} NeededUnique(order: seq<Verdict>, total: int, budget: int, m: nat)
    requires OverUntil(order, total, budget, m)
    requires m < |order| ==> total - Sum(order[..m]) <= budget
    ensures Needed(order, total, budget) == m
  {
  }

  lemma {:induction false} TracksMoves(a: seq<Item>, b: seq<Item>, held: seq<Verdict>)
    requires Tracks(a, held) && forall x :: x in b ==> x in a
    ensures Tracks(b, held)
  {
    forall i | 0 <= i < |b| ensures b[i].at < |held| && held[b[i].at] == b[i].verdict {
      assert b[i] in a;
    }
  }

  /** The chosen positions name exactly the volumes the budget reclaims. */
  lemma {:induction false} Chosen(eligible: seq<Item>, promoted: seq<Item>, held: seq<Verdict>, p: Policy)
    requires Tracks(eligible, held) && NoDup(eligible) && p.idleBudget.Some?
    requires Map(eligible, ItemVerdict) == Filter(held, IsEligible(p.idleFloor))
    requires promoted <= Sort(eligible, ItemOlder)
    requires |promoted| == Needed(Map(Sort(eligible, ItemOlder), ItemVerdict), IdleBytes(held), p.idleBudget.value)
    ensures Map(promoted, ItemVerdict) == OverBudget(held, p)
    ensures Tracks(promoted, held) && NoDup(promoted)
  {
    var sorted := Sort(eligible, ItemOlder);
    SortVerdicts(eligible);
    SortMembers(eligible, ItemOlder);
    SortNoDup(eligible, ItemOlder);
    assert promoted == sorted[..|promoted|];
    assert Map(promoted, ItemVerdict) == Map(sorted, ItemVerdict)[..|promoted|];
    forall x | x in promoted ensures x in eligible {
      assert x in sorted;
    }
    TracksMoves(eligible, promoted, held);
  }

  lemma {:induction false} LaterTotal()
    ensures Total(Later)
  {
  }

  lemma {:induction false} Descending(promoted: seq<Item>, held: seq<Verdict>)
    requires Tracks(promoted, held) && NoDup(promoted)
    ensures var down := Sort(promoted, Later);
            Tracks(down, held) && NoDup(down) && Sorted(down, Later) && multiset(Map(down, ItemVerdict)) == multiset(Map(promoted, ItemVerdict))
  {
    LaterTotal();
    SortSorted(promoted, Later);
    SortNoDup(promoted, Later);
    SortMembers(promoted, Later);
    TracksMoves(promoted, Sort(promoted, Later), held);
    SortMultiset(promoted, Later);
    MapBag(Sort(promoted, Later), promoted, ItemVerdict);
  }

  function Reverse<T>(s: seq<T>): seq<T> {
    if s == [] then [] else Reverse(s[1..]) + [s[0]]
  }

  lemma {:induction false} ReverseBag<T>(s: seq<T>)
    ensures multiset(Reverse(s)) == multiset(s)
  {
    if s != [] {
      ReverseBag(s[1..]);
      assert s == [s[0]] + s[1..];
    }
  }

  lemma {:induction false} MovedBag(down: seq<Item>, chosen: seq<Verdict>)
    requires multiset(Map(down, ItemVerdict)) == multiset(chosen)
    ensures multiset(Reverse(Map(Map(down, ItemVerdict), FreeOne))) == multiset(Freed(chosen))
  {
    ReverseBag(Map(Map(down, ItemVerdict), FreeOne));
    FreedIsMap(chosen);
    MapBag(Map(down, ItemVerdict), chosen, FreeOne);
  }

  lemma {:induction false} WithinBudget(held: seq<Verdict>, p: Policy)
    requires p.idleBudget.None? || IdleBytes(held) <= p.idleBudget.value
    ensures OverBudget(held, p) == [] && Without(held, {}) == held && Picked(held, {}) == []
  {
    WithoutNone(held, {});
    PickNone(held);
    if p.idleBudget.Some? {
      var order := Sort(Filter(held, IsEligible(p.idleFloor)), OlderFirst);
      assert order[..0] == [] && Sum([]) == 0;
      NeededUnique(order, IdleBytes(held), p.idleBudget.value, 0);
    }
  }

  lemma {:induction false} TrackMore(items: seq<Item>, held: seq<Verdict>, i: nat)
    requires Tracks(items, held) && NoDup(items) && i < |held| && forall k :: 0 <= k < |items| ==> items[k].at < i
    ensures Tracks(items + [Item(i, held[i])], held) && NoDup(items + [Item(i, held[i])])
    ensures Map(items + [Item(i, held[i])], ItemVerdict) == Map(items, ItemVerdict) + [held[i]]
  {
    MapConcat(items, [Item(i, held[i])], ItemVerdict);
  }

  /** The eligible ones among the first `i`, each with its position. */
  ghost predicate PickedOut(items: seq<Item>, held: seq<Verdict>, i: nat, floor: Seconds) {
    && i <= |held| && Tracks(items, held) && NoDup(items)
    && (forall k :: 0 <= k < |items| ==> items[k].at < i)
    && Map(items, ItemVerdict) == Filter(held[..i], IsEligible(floor))
  }

  lemma {:induction false} PickedNext(items: seq<Item>, held: seq<Verdict>, i: nat, floor: Seconds)
    requires i < |held| && PickedOut(items, held, i, floor)
    ensures PickedOut(if Eligible(held[i], floor) then items + [Item(i, held[i])] else items, held, i + 1, floor)
  {
    FilterAppend(held, i, IsEligible(floor));
    TrackMore(items, held, i);
  }

  /** The first `j` of a list, divided into what the eager rules leave and what they take. */
  ghost predicate Parted(s: seq<Verdict>, j: nat, kept: seq<Verdict>, taken: seq<Verdict>, obsolete: string -> Option<EagerReason>, floor: Seconds) {
    j <= |s| && kept == Filter(s[..j], NotEager(obsolete, floor)) && taken == Filter(s[..j], IsEager(obsolete, floor))
  }

  lemma {:induction false} MiddleOf<T>(kept: seq<T>, start: seq<T>, j: nat)
    requires j < |start|
    ensures var all := kept + start[j..];
            && |kept| < |all| && all[|kept|] == start[j]
            && all[..|kept|] + all[|kept| + 1..] == kept + start[j + 1..]
            && all == kept + [start[j]] + start[j + 1..]
  {
  }

  lemma {:induction false} PartedNext(s: seq<Verdict>, j: nat, kept: seq<Verdict>, taken: seq<Verdict>, obsolete: string -> Option<EagerReason>, floor: Seconds)
    requires j < |s| && Parted(s, j, kept, taken, obsolete, floor)
    ensures Eager(s[j], obsolete, floor) ==> Parted(s, j + 1, kept, taken + [s[j]], obsolete, floor)
    ensures !Eager(s[j], obsolete, floor) ==> Parted(s, j + 1, kept + [s[j]], taken, obsolete, floor)
  {
    FilterAppend(s, j, NotEager(obsolete, floor));
    FilterAppend(s, j, IsEager(obsolete, floor));
  }

  /** Removing one more position from the top. */
  lemma {:induction false} TakeNext(start: seq<Verdict>, positions: seq<Item>, k: nat)
    requires k < |positions| && Tracks(positions, start) && NoDup(positions) && Sorted(positions, Later)
    ensures var held, at := Without(start, Ats(positions[..k])), positions[k].at;
            && at < |held| && held[at] == positions[k].verdict
            && held[..at] + held[at + 1..] == Without(start, Ats(positions[..k + 1]))
    ensures Map(Map(positions[..k + 1], ItemVerdict), FreeOne) == Map(Map(positions[..k], ItemVerdict), FreeOne) + [FreeOne(positions[k].verdict)]
  {
    var at, gone := positions[k].at, Ats(positions[..k]);
    forall i | 0 <= i < k ensures positions[i].at > at {
      assert Later(positions[i], positions[k]) && positions[i] != positions[k];
    }
    RemoveLow(start, gone, at);
    AtsNext(positions, k);
    assert positions[..k + 1] == positions[..k] + [positions[k]];
  }

  lemma {:induction false} AtsNext(positions: seq<Item>, k: nat)
    requires k < |positions|
    ensures Ats(positions[..k + 1]) == Ats(positions[..k]) + {positions[k].at as int}
  {
    assert positions[..k + 1] == positions[..k] + [positions[k]];
  }

  class Planner {
    var candidates: seq<Verdict>
    var held: seq<Verdict>
    var bytes: int
    var deferred: nat

    constructor ()
      ensures candidates == [] && held == [] && bytes == 0 && deferred == 0
    {
      candidates, held, bytes, deferred := [], [], 0, 0;
    }

    /** Classify every object into one of the two lists. */
    method Divide(artifacts: seq<Artifact>, ours: Option<string>, p: Policy)
      requires candidates == [] && held == []
      modifies this`candidates, this`held
      ensures candidates == Filter(Verdicts(artifacts, ours, p), Free)
      ensures held == HeldFirst(artifacts, ours, p)
    {
      for i := 0 to |artifacts|
        invariant candidates == Filter(Verdicts(artifacts[..i], ours, p), Free)
        invariant held == Filter(Verdicts(artifacts[..i], ours, p), Held)
      {
        var v := Classify(artifacts[i], ours, p);
        VerdictsAppend(artifacts, i, ours, p);
        FilterConcat(Verdicts(artifacts[..i], ours, p), [v], Free);
        FilterConcat(Verdicts(artifacts[..i], ours, p), [v], Held);
        FilterSingle(v, Free);
        FilterSingle(v, Held);
        if v.hold.None? {
          candidates := candidates + [v];
        } else {
          held := held + [v];
        }
      }
      assert artifacts[..|artifacts|] == artifacts;
    }

    /** Move the volumes the workspace facts prove obsolete, removing each in place. */
    method PromoteObsolete(obsolete: string -> Option<EagerReason>, floor: Seconds)
      modifies this`candidates, this`held
      ensures held == Filter(old(held), NotEager(obsolete, floor))
      ensures candidates == old(candidates) + Tagged(Filter(old(held), IsEager(obsolete, floor)), obsolete)
    {
      ghost var start, j := held, 0;
      ghost var kept, taken: seq<Verdict> := [], [];
      var index: nat := 0;
      assert start[..0] == [];
      while index < |held|
        invariant 0 <= j <= |start| && index == |kept| && held == kept + start[j..]
        invariant Parted(start, j, kept, taken, obsolete, floor)
        invariant candidates == old(candidates) + Tagged(taken, obsolete)
        decreases |held| - index
      {
        var v := held[index];
        MiddleOf(kept, start, j);
        PartedNext(start, j, kept, taken, obsolete, floor);
        if Eager(v, obsolete, floor) {
          TaggedAppend(taken, v, obsolete);
          taken := taken + [v];
          held := held[..index] + held[index + 1..];
          candidates := candidates + [v.(hold := None, eager := obsolete(v.id))];
        } else {
          kept := kept + [v];
          index := index + 1;
        }
        j := j + 1;
      }
      assert start[..|start|] == start;
    }

    method IdleTotal() returns (total: int)
      ensures total == IdleBytes(held)
    {
      total := 0;
      for i := 0 to |held|
        invariant total == Sum(Filter(held[..i], Idle))
      {
        FilterAppend(held, i, Idle);
        if Idle(held[i]) {
          SumAppend(Filter(held[..i], Idle), held[i]);
          if held[i].bytes.Some? {
            total := total + held[i].bytes.value;
          }
        }
      }
      assert held[..|held|] == held;
    }

    method EligiblePositions(floor: Seconds) returns (eligible: seq<Item>)
      ensures Tracks(eligible, held) && NoDup(eligible)
      ensures Map(eligible, ItemVerdict) == Filter(held, IsEligible(floor))
    {
      eligible := [];
      for i := 0 to |held|
        invariant PickedOut(eligible, held, i, floor)
      {
        PickedNext(eligible, held, i, floor);
        if Eligible(held[i], floor) {
          eligible := eligible + [Item(i, held[i])];
        }
      }
      assert held[..|held|] == held;
    }

    /** Take the oldest while what is left is over budget. */
    method ChooseOldest(order: seq<Item>, idle: int, budget: int) returns (promoted: seq<Item>)
      ensures promoted <= order
      ensures |promoted| == Needed(Map(order, ItemVerdict), idle, budget)
    {
      promoted := [];
      ghost var vs := Map(order, ItemVerdict);
      var total := idle;
      for i := 0 to |order|
        invariant promoted == order[..i] && total == idle - Sum(vs[..i])
        invariant OverUntil(vs, idle, budget, i)
      {
        if total <= budget {
          NeededUnique(vs, idle, budget, i);
          return;
        }
        OverNext(vs, idle, budget, i);
        total := total - Size(order[i].verdict);
        promoted := promoted + [order[i]];
      }
      NeededUnique(vs, idle, budget, |order|);
    }

    /** Remove the positions from the highest down, so that each is still where it was observed. */
    method TakeOutDescending(positions: seq<Item>) returns (moved: seq<Verdict>)
      requires Tracks(positions, held) && NoDup(positions) && Sorted(positions, Later)
      modifies this`held
      ensures held == Without(old(held), Ats(positions))
      ensures moved == Map(Map(positions, ItemVerdict), FreeOne)
    {
      ghost var start := held;
      WithoutNone(start, {});
      assert Ats(positions[..0]) == {};
      moved := [];
      for k := 0 to |positions|
        invariant held == Without(start, Ats(positions[..k]))
        invariant moved == Map(Map(positions[..k], ItemVerdict), FreeOne)
      {
        var at := positions[k].at;
        TakeNext(start, positions, k);
        moved := moved + [FreeOne(held[at])];
        held := held[..at] + held[at + 1..];
      }
      assert positions[..|positions|] == positions;
    }

    /**
     * Free the shortest oldest-first run of idle volumes that brings the rest within budget, or all
     * eligible ones; nothing is lost and the rest keep their order.
     */
    method PromoteOverIdleBudget(p: Policy) returns (ghost drop: set<int>)
      modifies this`candidates, this`held
      ensures held == Without(old(held), drop)
      ensures multiset(Picked(old(held), drop)) == multiset(OverBudget(old(held), p))
      ensures multiset(candidates) == multiset(old(candidates)) + multiset(Freed(OverBudget(old(held), p)))
    {
      drop := {};
      if p.idleBudget.None? {
        WithinBudget(held, p);
        return;
      }
      var budget := p.idleBudget.value;
      var total := IdleTotal();
      if total <= budget {
        WithinBudget(held, p);
        return;
      }
      var eligible := EligiblePositions(p.idleFloor);
      var promoted := ChooseOldest(Sort(eligible, ItemOlder), total, budget);
      Chosen(eligible, promoted, held, p);
      PickedItems(promoted, held);
      Descending(promoted, held);
      var down := Sort(promoted, Later);
      PickedItems(down, held);
      drop := Ats(down);
      MovedBag(down, OverBudget(held, p));
      var moved := TakeOutDescending(down);
      candidates := candidates + Reverse(moved);
    }

    /** Keep what fits, in order; defer the rest. */
    method ApplyBudget(ceiling: Option<int>)
      modifies this`candidates, this`bytes, this`deferred
      ensures Tally(candidates, bytes, deferred) == Capped(old(candidates), ceiling)
    {
      var total, kept, left: nat := 0, [], 0;
      for i := 0 to |candidates|
        invariant Tally(kept, total, left) == Capped(candidates[..i], ceiling)
      {
        var v := candidates[i];
        assert candidates[..i + 1][..i] == candidates[..i] && candidates[..i + 1][i] == v;
        if |kept| >= MAX_MANAGED_REMOVALS {
          left := left + 1;
        } else if ceiling.Some? {
          if v.bytes.None? {
            left := left + 1;
          } else if Saturate(total + v.bytes.value) > ceiling.value {
            left := left + 1;
          } else {
            total := Saturate(total + v.bytes.value);
            kept := kept + [v];
          }
        } else {
          total := Saturate(total + Size(v));
          kept := kept + [v];
        }
      }
      assert candidates[..|candidates|] == candidates;
      candidates, bytes, deferred := kept, total, left;
    }
  }

  method InRemovalOrder(candidates: seq<Verdict>) returns (ordered: seq<Verdict>)
    ensures Sorted(ordered, RemovalOrder) && multiset(ordered) == multiset(candidates)
  {
    RemovalOrderTotal();
    SortSorted(candidates, RemovalOrder);
    SortMultiset(candidates, RemovalOrder);
    ordered := Sort(candidates, RemovalOrder);
  }

  lemma {:induction false} Assembled(free: seq<Verdict>, tagged: seq<Verdict>, freed: seq<Verdict>, before: seq<Verdict>, all: multiset<Verdict>)
    requires before == free + tagged && all == multiset(before) + multiset(freed)
    ensures all == multiset(free) + multiset(tagged) + multiset(freed)
  {
  }

  method SelectAll(planner: Planner, artifacts: seq<Artifact>, ours: Option<string>, p: Policy, obsolete: string -> Option<EagerReason>) returns (ghost drop: set<int>)
    requires planner.candidates == [] && planner.held == []
    modifies planner
    ensures multiset(planner.candidates) == Selected(artifacts, ours, p, obsolete)
    ensures planner.held == Without(HeldAfterEager(artifacts, ours, p, obsolete), drop)
    ensures multiset(Picked(HeldAfterEager(artifacts, ours, p, obsolete), drop)) == multiset(OverBudget(HeldAfterEager(artifacts, ours, p, obsolete), p))
  {
    planner.Divide(artifacts, ours, p);
    ghost var free := planner.candidates;
    planner.PromoteObsolete(obsolete, p.idleFloor);
    ghost var before := planner.candidates;
    ghost var left := planner.held;
    drop := planner.PromoteOverIdleBudget(p);
    Assembled(free, Tagged(EagerOnes(artifacts, ours, p, obsolete), obsolete), Freed(OverBudget(left, p)), before, multiset(planner.candidates));
  }

  /** One pass: classify, promote, order, cap. */
  method PlanManaged(artifacts: seq<Artifact>, ours: Option<string>, p: Policy, obsolete: string -> Option<EagerReason>) returns (plan: Plan)
    ensures IsPlan(plan, artifacts, ours, p, obsolete)
  {
    var planner := new Planner();
    ghost var drop := SelectAll(planner, artifacts, ours, p, obsolete);
    var uncapped := InRemovalOrder(planner.candidates);
    planner.candidates := uncapped;
    planner.ApplyBudget(p.maxBytes);
    plan := Plan(planner.candidates, planner.held, planner.bytes, planner.deferred);
    assert PlanOf(plan, uncapped, drop, artifacts, ours, p, obsolete);
  }
}
