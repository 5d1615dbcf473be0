/** Which Bosn-owned objects one reclamation pass may remove, and in what order. */
module Retention {
  import opened Common
  import opened Lists
  import opened Order
  import opened Ownership

  const MAX_MANAGED_REMOVALS := 1024
  const PRESSURE_CONTAINER_TTL: Seconds := 3600.0
  const I128_MAX := 0x7fff_ffff_ffff_ffff_ffff_ffff_ffff_ffff
  const I128_MIN := -0x8000_0000_0000_0000_0000_0000_0000_0000

  type Seconds = s: real | s >= 0.0 witness 0.0

  datatype Policy = Policy(
    containerTtl: Seconds, volumeTtl: Seconds, imageTtl: Seconds,
    maxBytes: Option<int>, idleBudget: Option<int>, idleFloor: Seconds)

  datatype HoldReason = InUse | Pinned | WithinTtl | AgeUnknown | ForeignRegistry | IncompleteLabels | NotBosnOwned | UnsupportedKind

  datatype EagerReason = WorkspaceGone | FamilyCap

  datatype Verdict = Verdict(
    id: string, kind: Kind, hold: Option<HoldReason>, age: Option<real>, bytes: Option<int>, eager: Option<EagerReason>)

  // ------------------------------------------------------------------ the gates

  function TtlFor(p: Policy, kind: Kind): Option<Seconds> {
    match kind
    case Container => Some(p.containerTtl)
    case Volume => Some(p.volumeTtl)
    case Image => Some(p.imageTtl)
    case Builder => None
    case Network => None
  }

  function MinTime(a: Seconds, b: Seconds): Seconds {
    if b < a then b else a
  }

  function UnderDiskPressure(p: Policy): Policy {
    p.(containerTtl := MinTime(p.containerTtl, PRESSURE_CONTAINER_TTL), idleBudget := Some(0))
  }

  function RecheckGates(p: Policy): Policy {
    p.(volumeTtl := MinTime(p.volumeTtl, p.idleFloor))
  }

  function HoldFor(a: Artifact, ours: Option<string>, p: Policy): Option<HoldReason> {
    if !AnyBosnLabel(a.labels) then Some(NotBosnOwned)
    else match ClassifyOwnership(a.labels, ours)
      case Incomplete => Some(IncompleteLabels)
      case Foreign => Some(ForeignRegistry)
      case _ =>
        match TtlFor(p, a.kind)
        case None => Some(UnsupportedKind)
        case Some(ttl) =>
          if a.signals.inUse then Some(InUse)
          else if IsPinned(a.labels) then Some(Pinned)
          else if a.age.None? then Some(AgeUnknown)
          else if a.age.value < ttl then Some(WithinTtl)
          else None
  }

  function Classify(a: Artifact, ours: Option<string>, p: Policy): Verdict {
    Verdict(a.id, a.kind, HoldFor(a, ours, p), a.age, a.bytes, None)
  }

  /** Proven ours, in scope, idle, unpinned and of known age: only its age can hold it. */
  ghost predicate Reclaimable(a: Artifact, ours: Option<string>) {
    ProvenOurs(a.labels, ours) && (a.kind.Container? || a.kind.Volume? || a.kind.Image?) && !a.signals.inUse && !IsPinned(a.labels) && a.age.Some?
  }

  /** Old enough for the gate of its own kind. */
  ghost predicate PastGate(a: Artifact, p: Policy)
    requires a.age.Some?
  {
    || (a.kind.Container? && a.age.value >= p.containerTtl)
    || (a.kind.Volume? && a.age.value >= p.volumeTtl)
    || (a.kind.Image? && a.age.value >= p.imageTtl)
  }

  ghost predicate InScope(a: Artifact, ours: Option<string>) {
    ProvenOurs(a.labels, ours) && !a.kind.Builder? && !a.kind.Network?
  }

  /** Which objects are free, and which are held for which reason. */
  lemma {:induction false} ClassifyExact(a: Artifact, ours: Option<string>, p: Policy)
    ensures var hold := Classify(a, ours, p).hold;
            && (hold.None? <==> Reclaimable(a, ours) && PastGate(a, p))
            && (hold == Some(WithinTtl) <==> Reclaimable(a, ours) && !PastGate(a, p))
            && (hold == Some(AgeUnknown) <==> InScope(a, ours) && !a.signals.inUse && !IsPinned(a.labels) && a.age.None?)
            && (hold == Some(Pinned) <==> InScope(a, ours) && !a.signals.inUse && IsPinned(a.labels))
            && (hold == Some(InUse) <==> InScope(a, ours) && a.signals.inUse)
            && (hold == Some(UnsupportedKind) <==> ProvenOurs(a.labels, ours) && (a.kind.Builder? || a.kind.Network?))
            && (hold == Some(ForeignRegistry) <==> AnyBosnLabel(a.labels) && AllRequired(a.labels) && !ProvenOurs(a.labels, ours))
            && (hold == Some(IncompleteLabels) <==> AnyBosnLabel(a.labels) && !AllRequired(a.labels))
            && (hold == Some(NotBosnOwned) <==> forall key :: key in a.labels ==> !IsBosnLabel(key))
    ensures Classify(a, ours, p).(hold := None) == Verdict(a.id, a.kind, None, a.age, a.bytes, None)
  {
    OwnershipExact(a.labels, ours);
    assert ProvenOurs(a.labels, ours) ==> AnyBosnLabel(a.labels) by {
      RegistryLabelIsBosn();
      assert LABEL_REGISTRY in REQUIRED_LABELS;
    }
  }

  // ------------------------------------------------------------------- the lists

  predicate Free(v: Verdict) {
    v.hold.None?
  }

  predicate Held(v: Verdict) {
    v.hold.Some?
  }

  /** A volume held by nothing but its age gate. */
  predicate Idle(v: Verdict) {
    v.kind.Volume? && v.hold == Some(WithinTtl)
  }

  function Verdicts(artifacts: seq<Artifact>, ours: Option<string>, p: Policy): seq<Verdict> {
    if artifacts == [] then [] else [Classify(artifacts[0], ours, p)] + Verdicts(artifacts[1..], ours, p)
  }

  /** `obsolete` is what the workspace facts prove about a volume, by its ID. */
  predicate Eager(v: Verdict, obsolete: string -> Option<EagerReason>, floor: Seconds) {
    Idle(v) && v.age.Some? && v.age.value >= floor && obsolete(v.id).Some?
  }

  function IsEager(obsolete: string -> Option<EagerReason>, floor: Seconds): Verdict -> bool {
    (v: Verdict) => Eager(v, obsolete, floor)
  }

  function NotEager(obsolete: string -> Option<EagerReason>, floor: Seconds): Verdict -> bool {
    (v: Verdict) => !Eager(v, obsolete, floor)
  }

  function Tagged(vs: seq<Verdict>, obsolete: string -> Option<EagerReason>): seq<Verdict> {
    if vs == [] then [] else [vs[0].(hold := None, eager := obsolete(vs[0].id))] + Tagged(vs[1..], obsolete)
  }

  // ------------------------------------------------------------ the idle budget

  predicate Eligible(v: Verdict, floor: Seconds) {
    Idle(v) && v.bytes.Some? && v.age.Some? && v.age.value >= floor
  }

  function IsEligible(floor: Seconds): Verdict -> bool {
    (v: Verdict) => Eligible(v, floor)
  }

  /** No younger; an unknown age counts as the youngest. */
  predicate AgeAtLeast(a: Option<real>, b: Option<real>) {
    b.None? || (a.Some? && a.value >= b.value)
  }

  /** Oldest first, then by ID. */
  predicate OlderFirst(a: Verdict, b: Verdict) {
    AgeAtLeast(a.age, b.age) && (AgeAtLeast(b.age, a.age) ==> StrLe(a.id, b.id))
  }

  function Size(v: Verdict): int {
    if v.bytes.Some? then v.bytes.value else 0
  }

  function Sum(vs: seq<Verdict>): int {
    if vs == [] then 0 else Sum(vs[..|vs| - 1]) + Size(vs[|vs| - 1])
  }

  function IdleBytes(held: seq<Verdict>): int {
    Sum(Filter(held, Idle))
  }

  /** How many of the oldest must go before what is left fits: the least such number, or all. */
  function Needed(order: seq<Verdict>, total: int, budget: int): (m: nat)
    ensures m <= |order|
    ensures forall k :: 0 <= k < m ==> total - Sum(order[..k]) > budget
    ensures m < |order| ==> total - Sum(order[..m]) <= budget
  {
    NeededFrom(order, total, budget, 0)
  }

  function NeededFrom(order: seq<Verdict>, total: int, budget: int, from: nat): (m: nat)
    requires from <= |order|
    ensures from <= m <= |order|
    ensures forall k :: from <= k < m ==> total - Sum(order[..k]) > budget
    ensures m < |order| ==> total - Sum(order[..m]) <= budget
    decreases |order| - from
  {
    if from == |order| || total - Sum(order[..from]) <= budget then from else NeededFrom(order, total, budget, from + 1)
  }

  /** The volumes the byte budget reclaims early, oldest first. */
  function OverBudget(held: seq<Verdict>, p: Policy): seq<Verdict> {
    if p.idleBudget.None? then []
    else
      var order := Sort(Filter(held, IsEligible(p.idleFloor)), OlderFirst);
      order[..Needed(order, IdleBytes(held), p.idleBudget.value)]
  }

  function Freed(vs: seq<Verdict>): seq<Verdict> {
    if vs == [] then [] else [vs[0].(hold := None)] + Freed(vs[1..])
  }

  // ------------------------------------------------------------ before the caps

  function HeldFirst(artifacts: seq<Artifact>, ours: Option<string>, p: Policy): seq<Verdict> {
    Filter(Verdicts(artifacts, ours, p), Held)
  }

  function HeldAfterEager(artifacts: seq<Artifact>, ours: Option<string>, p: Policy, obsolete: string -> Option<EagerReason>): seq<Verdict> {
    Filter(HeldFirst(artifacts, ours, p), NotEager(obsolete, p.idleFloor))
  }

  function EagerOnes(artifacts: seq<Artifact>, ours: Option<string>, p: Policy, obsolete: string -> Option<EagerReason>): seq<Verdict> {
    Filter(HeldFirst(artifacts, ours, p), IsEager(obsolete, p.idleFloor))
  }

  /** Everything the rules select, before any cap, as a bag. */
  ghost function Selected(artifacts: seq<Artifact>, ours: Option<string>, p: Policy, obsolete: string -> Option<EagerReason>): multiset<Verdict> {
    multiset(Filter(Verdicts(artifacts, ours, p), Free))
    + multiset(Tagged(EagerOnes(artifacts, ours, p, obsolete), obsolete))
    + multiset(Freed(OverBudget(HeldAfterEager(artifacts, ours, p, obsolete), p)))
  }

  lemma {:induction false} VerdictOrigin(artifacts: seq<Artifact>, ours: Option<string>, p: Policy, v: Verdict)
    requires v in Verdicts(artifacts, ours, p)
    ensures exists a :: a in artifacts && v == Classify(a, ours, p)
  {
    if v == Classify(artifacts[0], ours, p) {
      assert artifacts[0] in artifacts;
    } else {
      VerdictOrigin(artifacts[1..], ours, p, v);
      var a :| a in artifacts[1..] && v == Classify(a, ours, p);
      assert a in artifacts;
    }
  }

  lemma {:induction false} FreedOrigin(vs: seq<Verdict>, v: Verdict)
    requires v in Freed(vs)
    ensures exists w :: w in vs && v == w.(hold := None)
  {
    if v == vs[0].(hold := None) {
      assert vs[0] in vs;
    } else {
      FreedOrigin(vs[1..], v);
      var w :| w in vs[1..] && v == w.(hold := None);
      assert w in vs;
    }
  }

  lemma {:induction false} TaggedOrigin(vs: seq<Verdict>, obsolete: string -> Option<EagerReason>, v: Verdict)
    requires v in Tagged(vs, obsolete)
    ensures exists w :: w in vs && v == w.(hold := None, eager := obsolete(w.id))
  {
    if v == vs[0].(hold := None, eager := obsolete(vs[0].id)) {
      assert vs[0] in vs;
    } else {
      TaggedOrigin(vs[1..], obsolete, v);
      var w :| w in vs[1..] && v == w.(hold := None, eager := obsolete(w.id));
      assert w in vs;
    }
  }

  lemma {:induction false} OverBudgetOrigin(held: seq<Verdict>, p: Policy, v: Verdict)
    requires v in OverBudget(held, p)
    ensures v in held && Eligible(v, p.idleFloor)
  {
    var eligible := Filter(held, IsEligible(p.idleFloor));
    SortMembers(eligible, OlderFirst);
    FilterMembers(held, IsEligible(p.idleFloor));
    assert v in Sort(eligible, OlderFirst);
  }

  /** What a selected verdict proves about the object it names. */
  ghost predicate Justified(a: Artifact, v: Verdict, ours: Option<string>, p: Policy) {
    && v.id == a.id && v.kind == a.kind && v.age == a.age && v.bytes == a.bytes && v.hold.None?
    && Reclaimable(a, ours)
    && (PastGate(a, p) || (a.kind.Volume? && a.age.value >= p.idleFloor))
  }

  lemma {:induction false} HeldOrigin(artifacts: seq<Artifact>, ours: Option<string>, p: Policy, w: Verdict, v: Verdict)
    requires w in Verdicts(artifacts, ours, p) && Idle(w) && w.age.Some? && w.age.value >= p.idleFloor
    requires v.id == w.id && v.kind == w.kind && v.age == w.age && v.bytes == w.bytes && v.hold.None?
    ensures exists a :: a in artifacts && Justified(a, v, ours, p)
  {
    VerdictOrigin(artifacts, ours, p, w);
    var a :| a in artifacts && w == Classify(a, ours, p);
    ClassifyExact(a, ours, p);
    assert Justified(a, v, ours, p);
  }

  /** Everything selected is proven ours, idle, unpinned, of known age, and past its gate or the idle floor. */
  lemma {:induction false} SelectedJustified(artifacts: seq<Artifact>, ours: Option<string>, p: Policy, obsolete: string -> Option<EagerReason>, v: Verdict)
    requires v in Selected(artifacts, ours, p, obsolete)
    ensures exists a :: a in artifacts && Justified(a, v, ours, p)
  {
    var verdicts, held := Verdicts(artifacts, ours, p), HeldFirst(artifacts, ours, p);
    var left := HeldAfterEager(artifacts, ours, p, obsolete);
    FilterMembers(verdicts, Free);
    FilterMembers(verdicts, Held);
    FilterMembers(held, IsEager(obsolete, p.idleFloor));
    FilterMembers(held, NotEager(obsolete, p.idleFloor));
    if v in Filter(verdicts, Free) {
      VerdictOrigin(artifacts, ours, p, v);
      var a :| a in artifacts && v == Classify(a, ours, p);
      ClassifyExact(a, ours, p);
      assert Justified(a, v, ours, p);
    } else if v in Tagged(EagerOnes(artifacts, ours, p, obsolete), obsolete) {
      TaggedOrigin(EagerOnes(artifacts, ours, p, obsolete), obsolete, v);
      var w :| w in EagerOnes(artifacts, ours, p, obsolete) && v == w.(hold := None, eager := obsolete(w.id));
      HeldOrigin(artifacts, ours, p, w, v);
    } else {
      assert v in Freed(OverBudget(left, p));
      FreedOrigin(OverBudget(left, p), v);
      var w :| w in OverBudget(left, p) && v == w.(hold := None);
      OverBudgetOrigin(left, p, w);
      HeldOrigin(artifacts, ours, p, w, v);
    }
  }

  /** The re-check before a removal passes exactly what some rule of the plan could have selected. */
  lemma {:induction false} RecheckPasses(a: Artifact, ours: Option<string>, p: Policy)
    ensures Classify(a, ours, RecheckGates(p)).hold.None? <==> Justified(a, Classify(a, ours, p).(hold := None), ours, p)
    ensures Classify(a, ours, RecheckGates(p)).hold == Some(WithinTtl) <==>
            && Reclaimable(a, ours)
            && (a.kind.Container? ==> a.age.value < p.containerTtl)
            && (a.kind.Image? ==> a.age.value < p.imageTtl)
            && (a.kind.Volume? ==> a.age.value < p.volumeTtl && a.age.value < p.idleFloor)
  {
    ClassifyExact(a, ours, p);
    ClassifyExact(a, ours, RecheckGates(p));
  }

  // -------------------------------------------------------------------- pressure

  lemma {:induction false} FilterTwice<T>(s: seq<T>, p: T -> bool, q: T -> bool)
    requires forall x :: x in s && q(x) ==> p(x)
    ensures Filter(Filter(s, p), q) == Filter(s, q)
  {
    if s != [] {
      FilterTwice(s[1..], p, q);
      FilterConcat(if p(s[0]) then [s[0]] else [], Filter(s[1..], p), q);
      assert Filter([s[0]], q) == (if q(s[0]) then [s[0]] else []);
    }
  }

  lemma {:induction false} FilterSwap<T>(s: seq<T>, p: T -> bool, q: T -> bool)
    ensures Filter(Filter(s, p), q) == Filter(Filter(s, q), p)
  {
    if s != [] {
      FilterSwap(s[1..], p, q);
      FilterConcat(if p(s[0]) then [s[0]] else [], Filter(s[1..], p), q);
      FilterConcat(if q(s[0]) then [s[0]] else [], Filter(s[1..], q), p);
      assert Filter([s[0]], q) == (if q(s[0]) then [s[0]] else []);
      assert Filter([s[0]], p) == (if p(s[0]) then [s[0]] else []);
    }
  }

  /** Only the idle volumes matter to either early rule. */
  lemma {:induction false} EarlyRulesReadIdle(verdicts: seq<Verdict>, obsolete: string -> Option<EagerReason>, floor: Seconds)
    ensures var held, idle := Filter(verdicts, Held), Filter(verdicts, Idle);
            var left := Filter(held, NotEager(obsolete, floor));
            && Filter(held, IsEager(obsolete, floor)) == Filter(idle, IsEager(obsolete, floor))
            && Filter(left, Idle) == Filter(idle, NotEager(obsolete, floor))
            && Filter(left, IsEligible(floor)) == Filter(Filter(idle, NotEager(obsolete, floor)), IsEligible(floor))
  {
    var held, idle := Filter(verdicts, Held), Filter(verdicts, Idle);
    var left := Filter(held, NotEager(obsolete, floor));
    FilterTwice(verdicts, Held, IsEager(obsolete, floor));
    FilterTwice(verdicts, Idle, IsEager(obsolete, floor));
    FilterTwice(verdicts, Held, Idle);
    FilterSwap(held, NotEager(obsolete, floor), Idle);
    FilterTwice(left, Idle, IsEligible(floor));
  }

  lemma {:induction false} SameIdle(artifacts: seq<Artifact>, ours: Option<string>, p: Policy)
    ensures Filter(Verdicts(artifacts, ours, p), Idle) == Filter(Verdicts(artifacts, ours, UnderDiskPressure(p)), Idle)
    ensures multiset(Filter(Verdicts(artifacts, ours, p), Free)) <= multiset(Filter(Verdicts(artifacts, ours, UnderDiskPressure(p)), Free))
  {
    if artifacts != [] {
      SameIdle(artifacts[1..], ours, p);
      OneUnderPressure(artifacts[0], ours, p);
    }
  }

  lemma {:induction false} OneUnderPressure(a: Artifact, ours: Option<string>, p: Policy)
    ensures Idle(Classify(a, ours, p)) || Idle(Classify(a, ours, UnderDiskPressure(p))) ==> Classify(a, ours, p) == Classify(a, ours, UnderDiskPressure(p))
    ensures Free(Classify(a, ours, p)) ==> Classify(a, ours, p) == Classify(a, ours, UnderDiskPressure(p))
  {
  }

  lemma {:induction false} NeedsMore(order: seq<Verdict>, total: int, budget: int)
    requires budget >= 0
    ensures Needed(order, total, budget) <= Needed(order, total, 0)
  {
  }

  lemma {:induction false} FreedPrefix(order: seq<Verdict>, m: nat, n: nat)
    requires m <= n <= |order|
    ensures multiset(Freed(order[..m])) <= multiset(Freed(order[..n]))
  {
    FreedConcat(order[..m], order[m..n]);
    assert order[..n] == order[..m] + order[m..n];
  }

  lemma {:induction false} FreedConcat(a: seq<Verdict>, b: seq<Verdict>)
    ensures Freed(a + b) == Freed(a) + Freed(b)
  {
    if a == [] {
      assert a + b == b;
    } else {
      assert (a + b)[1..] == a[1..] + b;
      FreedConcat(a[1..], b);
    }
  }

  /** Disk pressure only ever adds: whatever the normal policy selects, the pressured one selects too. */
  lemma {:induction false} PressureMonotone(artifacts: seq<Artifact>, ours: Option<string>, p: Policy, obsolete: string -> Option<EagerReason>)
    requires p.idleBudget.Some? ==> p.idleBudget.value >= 0
    ensures Selected(artifacts, ours, p, obsolete) <= Selected(artifacts, ours, UnderDiskPressure(p), obsolete)
  {
    var q := UnderDiskPressure(p);
    var floor := p.idleFloor;
    SameIdle(artifacts, ours, p);
    EarlyRulesReadIdle(Verdicts(artifacts, ours, p), obsolete, floor);
    EarlyRulesReadIdle(Verdicts(artifacts, ours, q), obsolete, floor);
    var left, under := HeldAfterEager(artifacts, ours, p, obsolete), HeldAfterEager(artifacts, ours, q, obsolete);
    assert EagerOnes(artifacts, ours, p, obsolete) == EagerOnes(artifacts, ours, q, obsolete);
    assert Filter(left, Idle) == Filter(under, Idle) && Filter(left, IsEligible(floor)) == Filter(under, IsEligible(floor));
    OverBudgetGrows(left, under, p);
    var a, b := multiset(Filter(Verdicts(artifacts, ours, p), Free)), multiset(Filter(Verdicts(artifacts, ours, q), Free));
    var c := multiset(Tagged(EagerOnes(artifacts, ours, p, obsolete), obsolete));
    var d, e := multiset(Freed(OverBudget(left, p))), multiset(Freed(OverBudget(under, q)));
    BagsAdd(a, b, c, d, e);
  }

  lemma {:induction false} BagsAdd(a: multiset<Verdict>, b: multiset<Verdict>, c: multiset<Verdict>, d: multiset<Verdict>, e: multiset<Verdict>)
    requires a <= b && d <= e
    ensures a + c + d <= b + c + e
  {
  }

  lemma {:induction false} OverBudgetGrows(left: seq<Verdict>, under: seq<Verdict>, p: Policy)
    requires p.idleBudget.Some? ==> p.idleBudget.value >= 0
    requires Filter(left, Idle) == Filter(under, Idle) && Filter(left, IsEligible(p.idleFloor)) == Filter(under, IsEligible(p.idleFloor))
    ensures multiset(Freed(OverBudget(left, p))) <= multiset(Freed(OverBudget(under, UnderDiskPressure(p))))
  {
    if p.idleBudget.Some? {
      var order := Sort(Filter(left, IsEligible(p.idleFloor)), OlderFirst);
      var total := IdleBytes(left);
      NeedsMore(order, total, p.idleBudget.value);
      FreedPrefix(order, Needed(order, total, p.idleBudget.value), Needed(order, total, 0));
    }
  }

  /** Under pressure a container is held by its age exactly below an hour or its own shorter gate; no other gate moves. */
  lemma {:induction false} PressureGates(a: Artifact, ours: Option<string>, p: Policy)
    ensures Classify(a, ours, UnderDiskPressure(p)).hold == Some(WithinTtl) <==>
            && Reclaimable(a, ours)
            && (a.kind.Container? ==> a.age.value < p.containerTtl && a.age.value < 3600.0)
            && (a.kind.Volume? ==> a.age.value < p.volumeTtl)
            && (a.kind.Image? ==> a.age.value < p.imageTtl)
  {
    ClassifyExact(a, ours, UnderDiskPressure(p));
  }

  lemma {:induction false} SumConcat(a: seq<Verdict>, b: seq<Verdict>)
    ensures Sum(a + b) == Sum(a) + Sum(b)
    decreases |b|
  {
    if b == [] {
      assert a + b == a;
    } else {
      var last := |b| - 1;
      assert (a + b)[..|a + b| - 1] == a + b[..last];
      SumConcat(a, b[..last]);
    }
  }

  ghost predicate NonNegative(vs: seq<Verdict>) {
    forall v :: v in vs ==> Size(v) >= 0
  }

  lemma {:induction false} SumBag(a: seq<Verdict>, b: seq<Verdict>)
    requires multiset(a) == multiset(b)
    ensures Sum(a) == Sum(b)
    decreases |a|
  {
    SameBag(a, b);
    if a != [] {
      var k := TakeOut(a, b);
      SumBag(a[1..], b[..k] + b[k + 1..]);
      assert a == [a[0]] + a[1..] && b == b[..k] + ([b[k]] + b[k + 1..]);
      SumConcat([a[0]], a[1..]);
      SumConcat(b[..k], [b[k]] + b[k + 1..]);
      SumConcat([b[k]], b[k + 1..]);
      SumConcat(b[..k], b[k + 1..]);
    }
  }

  lemma {:induction false} SumAtLeast(vs: seq<Verdict>, v: Verdict)
    requires NonNegative(vs)
    ensures Sum(vs) >= 0 && (v in vs ==> Sum(vs) >= Size(v))
  {
    if vs != [] {
      var front, last := vs[..|vs| - 1], vs[|vs| - 1];
      assert vs == front + [last];
      SumAtLeast(front, v);
    }
  }

  lemma {:induction false} SumFilter(vs: seq<Verdict>, p: Verdict -> bool)
    requires NonNegative(vs)
    ensures Sum(Filter(vs, p)) <= Sum(vs)
    decreases |vs|
  {
    if vs != [] {
      var rest := vs[1..];
      assert vs == [vs[0]] + rest;
      SumFilter(rest, p);
      SumConcat([vs[0]], rest);
      SumConcat(if p(vs[0]) then [vs[0]] else [], Filter(rest, p));
      assert Sum([vs[0]]) == Sum([vs[0]][..0]) + Size(vs[0]);
    }
  }

  /** A zero budget frees every measured, non-empty volume past the floor, when no size is negative. */
  lemma {:induction false} ZeroBudgetFrees(held: seq<Verdict>, p: Policy, v: Verdict)
    requires p.idleBudget == Some(0) && NonNegative(held)
    requires v in held && Eligible(v, p.idleFloor) && Size(v) > 0
    ensures v in OverBudget(held, p)
  {
    var eligible := Filter(held, IsEligible(p.idleFloor));
    var order := Sort(eligible, OlderFirst);
    FilterMembers(held, IsEligible(p.idleFloor));
    SortMembers(eligible, OlderFirst);
    EligibleWeigh(held, p.idleFloor);
    NeededTakes(order, IdleBytes(held), v);
  }

  lemma {:induction false} EligibleWeigh(held: seq<Verdict>, floor: Seconds)
    requires NonNegative(held)
    ensures Sum(Sort(Filter(held, IsEligible(floor)), OlderFirst)) <= IdleBytes(held)
  {
    var eligible := Filter(held, IsEligible(floor));
    FilterMembers(held, Idle);
    SortMultiset(eligible, OlderFirst);
    SumBag(Sort(eligible, OlderFirst), eligible);
    FilterTwice(held, Idle, IsEligible(floor));
    SumFilter(Filter(held, Idle), IsEligible(floor));
  }

  /** What is left behind once nothing more is needed weighs nothing. */
  lemma {:induction false} NeededTakes(order: seq<Verdict>, total: int, v: Verdict)
    requires NonNegative(order) && Sum(order) <= total && v in order && Size(v) > 0
    ensures v in order[..Needed(order, total, 0)]
  {
    var m := Needed(order, total, 0);
    var taken, rest := order[..m], order[m..];
    assert order == taken + rest;
    SumConcat(taken, rest);
    SumAtLeast(rest, v);
  }

  lemma {:induction false} FreedMember(vs: seq<Verdict>, v: Verdict)
    requires v in vs
    ensures v.(hold := None) in Freed(vs)
  {
    if v != vs[0] {
      FreedMember(vs[1..], v);
    }
  }

  lemma {:induction false} TaggedMember(vs: seq<Verdict>, obsolete: string -> Option<EagerReason>, v: Verdict)
    requires v in vs
    ensures v.(hold := None, eager := obsolete(v.id)) in Tagged(vs, obsolete)
  {
    if v != vs[0] {
      TaggedMember(vs[1..], obsolete, v);
    }
  }

  lemma {:induction false} VerdictMember(artifacts: seq<Artifact>, ours: Option<string>, p: Policy, a: Artifact)
    requires a in artifacts
    ensures Classify(a, ours, p) in Verdicts(artifacts, ours, p)
  {
    if a != artifacts[0] {
      VerdictMember(artifacts[1..], ours, p, a);
    }
  }

  lemma {:induction false} VerdictSizes(artifacts: seq<Artifact>, ours: Option<string>, p: Policy)
    requires forall a :: a in artifacts && a.bytes.Some? ==> a.bytes.value >= 0
    ensures NonNegative(Verdicts(artifacts, ours, p))
  {
    if artifacts != [] {
      VerdictSizes(artifacts[1..], ours, p);
    }
  }

  /**
   * What pressure is for: every volume of this registry that is unmounted, unpinned, past the idle
   * floor and of positive measured size is selected.
   */
  lemma {:induction false} PressureFrees(artifacts: seq<Artifact>, ours: Option<string>, p: Policy, obsolete: string -> Option<EagerReason>, a: Artifact)
    requires forall b :: b in artifacts && b.bytes.Some? ==> b.bytes.value >= 0
    requires a in artifacts && a.kind.Volume? && Reclaimable(a, ours) && a.age.value >= p.idleFloor
    requires a.bytes.Some? && a.bytes.value > 0
    ensures exists v :: v in Selected(artifacts, ours, UnderDiskPressure(p), obsolete) && Justified(a, v, ours, p)
  {
    var q := UnderDiskPressure(p);
    var v := Classify(a, ours, q);
    var verdicts, held, left := Verdicts(artifacts, ours, q), HeldFirst(artifacts, ours, q), HeldAfterEager(artifacts, ours, q, obsolete);
    ClassifyExact(a, ours, q);
    VerdictMember(artifacts, ours, q, a);
    FilterMembers(verdicts, Free);
    FilterMembers(verdicts, Held);
    FilterMembers(held, IsEager(obsolete, q.idleFloor));
    FilterMembers(held, NotEager(obsolete, q.idleFloor));
    if v.hold.None? {
      assert v in Filter(verdicts, Free);
      SelectedHolds(artifacts, ours, q, obsolete, v);
      assert Justified(a, v, ours, p);
    } else if Eager(v, obsolete, q.idleFloor) {
      TaggedMember(EagerOnes(artifacts, ours, q, obsolete), obsolete, v);
      var w := v.(hold := None, eager := obsolete(v.id));
      SelectedHolds(artifacts, ours, q, obsolete, w);
      assert Justified(a, w, ours, p);
    } else {
      VerdictSizes(artifacts, ours, q);
      assert NonNegative(left);
      ZeroBudgetFrees(left, q, v);
      FreedMember(OverBudget(left, q), v);
      var w := v.(hold := None);
      SelectedHolds(artifacts, ours, q, obsolete, w);
      assert Justified(a, w, ours, p);
    }
  }

  lemma {:induction false} SelectedHolds(artifacts: seq<Artifact>, ours: Option<string>, p: Policy, obsolete: string -> Option<EagerReason>, v: Verdict)
    requires || v in Filter(Verdicts(artifacts, ours, p), Free)
             || v in Tagged(EagerOnes(artifacts, ours, p, obsolete), obsolete)
             || v in Freed(OverBudget(HeldAfterEager(artifacts, ours, p, obsolete), p))
    ensures v in Selected(artifacts, ours, p, obsolete)
  {
    var a, b := multiset(Filter(Verdicts(artifacts, ours, p), Free)), multiset(Tagged(EagerOnes(artifacts, ours, p, obsolete), obsolete));
    var c := multiset(Freed(OverBudget(HeldAfterEager(artifacts, ours, p, obsolete), p)));
    assert v in a || v in b || v in c;
    assert (a + b + c)[v] == a[v] + b[v] + c[v];
  }

  /** What the plan is for: everything past its gate is selected, and so is every obsolete volume past the floor. */
  lemma {:induction false} SelectedComplete(artifacts: seq<Artifact>, ours: Option<string>, p: Policy, obsolete: string -> Option<EagerReason>, a: Artifact)
    requires a in artifacts && Reclaimable(a, ours)
    requires PastGate(a, p) || (a.kind.Volume? && a.age.value >= p.idleFloor && obsolete(a.id).Some?)
    ensures var eager := if PastGate(a, p) then None else obsolete(a.id);
            Verdict(a.id, a.kind, None, a.age, a.bytes, eager) in Selected(artifacts, ours, p, obsolete)
  {
    var v := Classify(a, ours, p);
    ClassifyExact(a, ours, p);
    VerdictMember(artifacts, ours, p, a);
    FilterMembers(Verdicts(artifacts, ours, p), Free);
    FilterMembers(Verdicts(artifacts, ours, p), Held);
    FilterMembers(HeldFirst(artifacts, ours, p), IsEager(obsolete, p.idleFloor));
    if PastGate(a, p) {
      SelectedHolds(artifacts, ours, p, obsolete, v);
    } else {
      TaggedMember(EagerOnes(artifacts, ours, p, obsolete), obsolete, v);
      SelectedHolds(artifacts, ours, p, obsolete, v.(hold := None, eager := obsolete(v.id)));
    }
  }

  /** An unmeasured volume short of its own gate is left, pressure or not, unless its workspace is gone. */
  lemma {:induction false} UnmeasuredLeft(a: Artifact, ours: Option<string>, p: Policy)
    requires Reclaimable(a, ours) && a.kind.Volume? && a.bytes.None? && a.age.value < p.volumeTtl
    ensures |Selected([a], ours, UnderDiskPressure(p), (id: string) => None)| == 0
  {
    var q, v := UnderDiskPressure(p), Classify(a, ours, UnderDiskPressure(p));
    ClassifyExact(a, ours, q);
    OneIdle(a, ours, q, (id: string) => None);
    FilterSingle(v, IsEligible(q.idleFloor));
    assert Sort([], OlderFirst) == [];
    assert OverBudget([v], q) == [];
  }

  /** A negative budget is the one exception: it would take an empty idle volume that pressure leaves. */
  lemma {:induction false} NegativeBudget(a: Artifact, ours: Option<string>, p: Policy)
    requires Reclaimable(a, ours) && a.kind.Volume? && a.bytes == Some(0) && p.idleFloor <= a.age.value < p.volumeTtl
    requires p.idleBudget.Some? && p.idleBudget.value < 0
    ensures |Selected([a], ours, p, (id: string) => None)| == 1
    ensures |Selected([a], ours, UnderDiskPressure(p), (id: string) => None)| == 0
  {
    var none := (id: string) => None;
    ClassifyExact(a, ours, p);
    ClassifyExact(a, ours, UnderDiskPressure(p));
    var v := Classify(a, ours, p);
    assert v == Classify(a, ours, UnderDiskPressure(p));
    OneIdle(a, ours, p, none);
    OneIdle(a, ours, UnderDiskPressure(p), none);
    OneOverBudget(v, p);
    OneOverBudget(v, UnderDiskPressure(p));
    assert Freed([v]) == [v.(hold := None)] + Freed([v][1..]);
  }

  lemma {:induction false} FilterSingle<T>(x: T, p: T -> bool)
    ensures Filter([x], p) == if p(x) then [x] else []
  {
    assert [x][1..] == [];
  }

  lemma {:induction false} OneIdle(a: Artifact, ours: Option<string>, p: Policy, none: string -> Option<EagerReason>)
    requires Idle(Classify(a, ours, p)) && forall id :: none(id).None?
    ensures HeldAfterEager([a], ours, p, none) == [Classify(a, ours, p)]
    ensures Selected([a], ours, p, none) == multiset(Freed(OverBudget([Classify(a, ours, p)], p)))
  {
    var v := Classify(a, ours, p);
    assert [a][1..] == [];
    assert Verdicts([a], ours, p) == [v];
    FilterSingle(v, Free);
    FilterSingle(v, Held);
    FilterSingle(v, IsEager(none, p.idleFloor));
    FilterSingle(v, NotEager(none, p.idleFloor));
  }

  lemma {:induction false} OneOverBudget(v: Verdict, p: Policy)
    requires Eligible(v, p.idleFloor) && v.bytes == Some(0) && p.idleBudget.Some?
    ensures OverBudget([v], p) == if p.idleBudget.value < 0 then [v] else []
  {
    FilterSingle(v, Idle);
    FilterSingle(v, IsEligible(p.idleFloor));
    assert [v][1..] == [];
    assert Sort([v], OlderFirst) == [v];
    assert [v][..0] == [] && [v][..1] == [v];
    assert Sum([v]) == Sum([v][..0]) + 0;
    assert Sum([]) == 0;
    var m := Needed([v], 0, p.idleBudget.value);
    assert m == 0 || m == 1;
    assert m > 0 ==> 0 - Sum([v][..0]) > p.idleBudget.value;
  }

  // --------------------------------------------------------------------- the caps

  function KindRank(kind: Kind): nat {
    match kind
    case Container => 0
    case Volume => 1
    case Image => 2
    case Builder => 3
    case Network => 4
  }

  /** Removal order: containers, volumes, images; oldest first within a kind, then by ID. */
  predicate RemovalOrder(a: Verdict, b: Verdict) {
    KindRank(a.kind) < KindRank(b.kind) || (KindRank(a.kind) == KindRank(b.kind) && OlderFirst(a, b))
  }

  lemma {:induction false} OlderFirstTotal()
    ensures Total(OlderFirst)
  {
    forall a: Verdict, b: Verdict ensures OlderFirst(a, b) || OlderFirst(b, a) {
      StrLeConnected(a.id, b.id);
    }
    forall a: Verdict, b: Verdict, c: Verdict | OlderFirst(a, b) && OlderFirst(b, c) ensures OlderFirst(a, c) {
      if AgeAtLeast(c.age, a.age) {
        StrLeTransitive(a.id, b.id, c.id);
      }
    }
  }

  lemma {:induction false} RemovalOrderTotal()
    ensures Total(RemovalOrder)
  {
    OlderFirstTotal();
    forall a: Verdict, b: Verdict, c: Verdict | RemovalOrder(a, b) && RemovalOrder(b, c) ensures RemovalOrder(a, c) {
      assert OlderFirst(a, b) && OlderFirst(b, c) ==> OlderFirst(a, c);
    }
    forall a: Verdict, b: Verdict ensures RemovalOrder(a, b) || RemovalOrder(b, a) {
      assert OlderFirst(a, b) || OlderFirst(b, a);
    }
  }

  function Saturate(n: int): int {
    if n > I128_MAX then I128_MAX else if n < I128_MIN then I128_MIN else n
  }

  datatype Tally = Tally(kept: seq<Verdict>, bytes: int, deferred: nat)

  predicate Fits(t: Tally, v: Verdict, ceiling: Option<int>) {
    |t.kept| < MAX_MANAGED_REMOVALS && (ceiling.Some? ==> v.bytes.Some? && Saturate(t.bytes + v.bytes.value) <= ceiling.value)
  }

  function Tallied(t: Tally, v: Verdict, ceiling: Option<int>): Tally {
    if Fits(t, v, ceiling) then Tally(t.kept + [v], Saturate(t.bytes + Size(v)), t.deferred)
    else t.(deferred := t.deferred + 1)
  }

  /** `apply_budget` as a fold over the ordered candidates. */
  function Capped(candidates: seq<Verdict>, ceiling: Option<int>): Tally {
    if candidates == [] then Tally([], 0, 0)
    else Tallied(Capped(candidates[..|candidates| - 1], ceiling), candidates[|candidates| - 1], ceiling)
  }

  function SaturatedSum(vs: seq<Verdict>): int {
    if vs == [] then 0 else Saturate(SaturatedSum(vs[..|vs| - 1]) + Size(vs[|vs| - 1]))
  }

  lemma {:induction false} CapsCount(candidates: seq<Verdict>, ceiling: Option<int>)
    ensures var t := Capped(candidates, ceiling);
            && |t.kept| + t.deferred == |candidates| && |t.kept| <= MAX_MANAGED_REMOVALS
            && multiset(t.kept) <= multiset(candidates)
  {
    if candidates != [] {
      var before, v := candidates[..|candidates| - 1], candidates[|candidates| - 1];
      CapsCount(before, ceiling);
      assert candidates == before + [v];
    }
  }

  lemma {:induction false} SaturatedNext(vs: seq<Verdict>, v: Verdict)
    ensures SaturatedSum(vs + [v]) == Saturate(SaturatedSum(vs) + Size(v))
  {
    assert (vs + [v])[..|vs + [v]| - 1] == vs;
  }

  /** A tally whose bytes are those of what it keeps, within the ceiling. */
  ghost predicate Weighed(t: Tally, ceiling: Option<int>) {
    t.bytes == SaturatedSum(t.kept) && (ceiling.Some? ==> t.bytes <= (if ceiling.value < 0 then 0 else ceiling.value))
  }

  lemma {:induction false} TalliedBytes(t: Tally, v: Verdict, ceiling: Option<int>)
    requires Weighed(t, ceiling)
    ensures Weighed(Tallied(t, v, ceiling), ceiling)
  {
    SaturatedNext(t.kept, v);
  }

  lemma {:induction false} CapsBytes(candidates: seq<Verdict>, ceiling: Option<int>)
    ensures Weighed(Capped(candidates, ceiling), ceiling)
  {
    if candidates != [] {
      var before, v := candidates[..|candidates| - 1], candidates[|candidates| - 1];
      CapsBytes(before, ceiling);
      TalliedBytes(Capped(before, ceiling), v, ceiling);
    }
  }

  /** Nothing is lost and the caps hold. */
  lemma {:induction false} CapsHold(candidates: seq<Verdict>, ceiling: Option<int>)
    ensures var t := Capped(candidates, ceiling);
            && |t.kept| + t.deferred == |candidates| && |t.kept| <= 1024
            && multiset(t.kept) <= multiset(candidates)
            && t.bytes == SaturatedSum(t.kept)
            && (ceiling.Some? ==> t.bytes <= (if ceiling.value < 0 then 0 else ceiling.value))
  {
    CapsCount(candidates, ceiling);
    CapsBytes(candidates, ceiling);
  }

  /** What the caps have kept of the candidates before the `i`th. */
  ghost function KeptBefore(candidates: seq<Verdict>, ceiling: Option<int>, i: nat): seq<Verdict>
    requires i <= |candidates|
  {
    Capped(candidates[..i], ceiling).kept
  }

  /**
   * The caps defer nothing they could keep: a candidate is kept exactly when fewer than 1024 were kept
   * before it and, under a ceiling, its size is known and fits on top of theirs.
   */
  lemma {:induction false} CapsExact(candidates: seq<Verdict>, ceiling: Option<int>, i: nat)
    requires i < |candidates|
    ensures var before, v := KeptBefore(candidates, ceiling, i), candidates[i];
            KeptBefore(candidates, ceiling, i + 1) ==
            if |before| < 1024 && (ceiling.Some? ==> v.bytes.Some? && Saturate(SaturatedSum(before) + v.bytes.value) <= ceiling.value)
            then before + [v] else before
    ensures KeptBefore(candidates, ceiling, 0) == [] && KeptBefore(candidates, ceiling, |candidates|) == Capped(candidates, ceiling).kept
  {
    var front := candidates[..i + 1];
    assert front[..|front| - 1] == candidates[..i] && front[|front| - 1] == candidates[i];
    CapsBytes(candidates[..i], ceiling);
    assert candidates[..|candidates|] == candidates && candidates[..0] == [];
  }

  /** Sums stay what they are within 128 bits and stop at its bounds. */
  lemma {:induction false} SaturateExact(n: int)
    ensures -0x8000_0000_0000_0000_0000_0000_0000_0000 <= Saturate(n) <= 0x7fff_ffff_ffff_ffff_ffff_ffff_ffff_ffff
    ensures Saturate(n) <= n || Saturate(n) == -0x8000_0000_0000_0000_0000_0000_0000_0000
    ensures Saturate(n) >= n || Saturate(n) == 0x7fff_ffff_ffff_ffff_ffff_ffff_ffff_ffff
  {
  }

  lemma {:induction false} CapsKeepOrder(candidates: seq<Verdict>, ceiling: Option<int>, le: (Verdict, Verdict) -> bool)
    requires Sorted(candidates, le)
    ensures Sorted(Capped(candidates, ceiling).kept, le)
    ensures forall v :: v in Capped(candidates, ceiling).kept ==> v in candidates
  {
    if candidates != [] {
      var before, v := candidates[..|candidates| - 1], candidates[|candidates| - 1];
      CapsKeepOrder(before, ceiling, le);
      var t := Capped(before, ceiling);
      assert candidates == before + [v];
      forall w | w in t.kept ensures le(w, v) {
        var i :| 0 <= i < |before| && before[i] == w;
        assert candidates[i] == w;
      }
    }
  }

  // ---------------------------------------------------------------------- the plan

  datatype Plan = Plan(candidates: seq<Verdict>, held: seq<Verdict>, bytes: int, deferred: nat)

  /** Elements at the positions outside `drop`, in order. */
  ghost function Without<T>(s: seq<T>, drop: set<int>): seq<T> {
    if s == [] then [] else Without(s[..|s| - 1], drop) + (if |s| - 1 in drop then [] else [s[|s| - 1]])
  }

  /** Elements at the positions in `pick`, in order. */
  ghost function Picked<T>(s: seq<T>, pick: set<int>): seq<T> {
    if s == [] then [] else Picked(s[..|s| - 1], pick) + (if |s| - 1 in pick then [s[|s| - 1]] else [])
  }

  /** A plan of this policy: what it selected before the caps, what stays held, and the caps applied. */
  ghost predicate PlanOf(plan: Plan, uncapped: seq<Verdict>, drop: set<int>, artifacts: seq<Artifact>, ours: Option<string>, p: Policy, obsolete: string -> Option<EagerReason>) {
    var left := HeldAfterEager(artifacts, ours, p, obsolete);
    && Sorted(uncapped, RemovalOrder) && multiset(uncapped) == Selected(artifacts, ours, p, obsolete)
    && plan.held == Without(left, drop) && multiset(Picked(left, drop)) == multiset(OverBudget(left, p))
    && Tally(plan.candidates, plan.bytes, plan.deferred) == Capped(uncapped, p.maxBytes)
  }

  ghost predicate IsPlan(plan: Plan, artifacts: seq<Artifact>, ours: Option<string>, p: Policy, obsolete: string -> Option<EagerReason>) {
    exists uncapped: seq<Verdict>, drop: set<int> :: PlanOf(plan, uncapped, drop, artifacts, ours, p, obsolete)
  }

  lemma {:induction false} WithoutPicked<T>(s: seq<T>, drop: set<int>)
    ensures multiset(Without(s, drop)) + multiset(Picked(s, drop)) == multiset(s)
    ensures |Without(s, drop)| + |Picked(s, drop)| == |s|
  {
    if s != [] {
      var before, x := s[..|s| - 1], s[|s| - 1];
      WithoutPicked(before, drop);
      assert s == before + [x];
      assert multiset(s) == multiset(before) + multiset{x};
      if |s| - 1 in drop {
        assert Without(s, drop) == Without(before, drop) && Picked(s, drop) == Picked(before, drop) + [x];
      } else {
        assert Without(s, drop) == Without(before, drop) + [x] && Picked(s, drop) == Picked(before, drop);
      }
    }
  }

  lemma {:induction false} FreedLength(vs: seq<Verdict>)
    ensures |Freed(vs)| == |vs|
  {
    if vs != [] {
      FreedLength(vs[1..]);
    }
  }

  lemma {:induction false} TaggedLength(vs: seq<Verdict>, obsolete: string -> Option<EagerReason>)
    ensures |Tagged(vs, obsolete)| == |vs|
  {
    if vs != [] {
      TaggedLength(vs[1..], obsolete);
    }
  }

  lemma {:induction false} FilterCounts<T>(s: seq<T>, p: T -> bool, q: T -> bool)
    requires forall x :: x in s ==> (p(x) <==> !q(x))
    ensures |Filter(s, p)| + |Filter(s, q)| == |s|
  {
    if s != [] {
      FilterCounts(s[1..], p, q);
      assert s[0] in s;
    }
  }

  lemma {:induction false} VerdictCount(artifacts: seq<Artifact>, ours: Option<string>, p: Policy)
    ensures |Verdicts(artifacts, ours, p)| == |artifacts|
  {
    if artifacts != [] {
      VerdictCount(artifacts[1..], ours, p);
    }
  }

  lemma {:induction false} SelectedCount(artifacts: seq<Artifact>, ours: Option<string>, p: Policy, obsolete: string -> Option<EagerReason>)
    ensures var left := HeldAfterEager(artifacts, ours, p, obsolete);
            |Selected(artifacts, ours, p, obsolete)| + |left| == |artifacts| + |OverBudget(left, p)|
  {
    var verdicts, held := Verdicts(artifacts, ours, p), HeldFirst(artifacts, ours, p);
    var left := HeldAfterEager(artifacts, ours, p, obsolete);
    VerdictCount(artifacts, ours, p);
    FilterCounts(verdicts, Free, Held);
    FilterCounts(held, IsEager(obsolete, p.idleFloor), NotEager(obsolete, p.idleFloor));
    TaggedLength(EagerOnes(artifacts, ours, p, obsolete), obsolete);
    FreedLength(OverBudget(left, p));
  }

  /** Every observed object is a candidate, held or deferred, exactly once. */
  lemma {:induction false} PlanConserves(plan: Plan, artifacts: seq<Artifact>, ours: Option<string>, p: Policy, obsolete: string -> Option<EagerReason>)
    requires IsPlan(plan, artifacts, ours, p, obsolete)
    ensures |plan.candidates| + |plan.held| + plan.deferred == |artifacts|
  {
    var uncapped: seq<Verdict>, drop: set<int> :| PlanOf(plan, uncapped, drop, artifacts, ours, p, obsolete);
    var left := HeldAfterEager(artifacts, ours, p, obsolete);
    SelectedCount(artifacts, ours, p, obsolete);
    WithoutPicked(left, drop);
    SameBag(Picked(left, drop), OverBudget(left, p));
    CapsHold(uncapped, p.maxBytes);
    assert |multiset(uncapped)| == |uncapped|;
  }

  /** Every candidate may be removed now, still may be at the re-check, and the caps and order hold. */
  lemma {:induction false} PlanSafe(plan: Plan, artifacts: seq<Artifact>, ours: Option<string>, p: Policy, obsolete: string -> Option<EagerReason>)
    requires IsPlan(plan, artifacts, ours, p, obsolete)
    ensures forall v :: v in plan.candidates ==>
              exists a :: a in artifacts && Justified(a, v, ours, p) && Classify(a, ours, RecheckGates(p)).hold.None?
    ensures |plan.candidates| <= MAX_MANAGED_REMOVALS
    ensures p.maxBytes.Some? ==> plan.bytes <= (if p.maxBytes.value < 0 then 0 else p.maxBytes.value)
    ensures plan.bytes == SaturatedSum(plan.candidates)
    ensures Sorted(plan.candidates, RemovalOrder)
    ensures multiset(plan.candidates) <= Selected(artifacts, ours, p, obsolete)
  {
    var uncapped: seq<Verdict>, drop: set<int> :| PlanOf(plan, uncapped, drop, artifacts, ours, p, obsolete);
    CapsHold(uncapped, p.maxBytes);
    CapsKeepOrder(uncapped, p.maxBytes, RemovalOrder);
    forall v | v in plan.candidates ensures exists a :: a in artifacts && Justified(a, v, ours, p) && Classify(a, ours, RecheckGates(p)).hold.None? {
      assert v in multiset(uncapped);
      SelectedJustified(artifacts, ours, p, obsolete, v);
      var a :| a in artifacts && Justified(a, v, ours, p);
      RecheckPasses(a, ours, p);
    }
  }

  lemma {:induction false} KindsInOrder(a: Verdict, b: Verdict)
    requires RemovalOrder(a, b)
    ensures b.kind.Container? ==> a.kind.Container?
    ensures b.kind.Volume? ==> a.kind.Container? || a.kind.Volume?
    ensures a.kind == b.kind && a.age.Some? && b.age.Some? ==> a.age.value >= b.age.value
    ensures a.kind == b.kind && a.age == b.age ==> StrLe(a.id, b.id)
  {
  }

  /** Containers go before volumes and volumes before images; within a kind the oldest goes first. */
  lemma {:induction false} PlanOrder(plan: Plan, artifacts: seq<Artifact>, ours: Option<string>, p: Policy, obsolete: string -> Option<EagerReason>, i: nat, j: nat)
    requires IsPlan(plan, artifacts, ours, p, obsolete) && i < j < |plan.candidates|
    ensures var a, b := plan.candidates[i], plan.candidates[j];
            && (b.kind.Container? ==> a.kind.Container?)
            && (b.kind.Volume? ==> a.kind.Container? || a.kind.Volume?)
            && a.age.Some? && b.age.Some?
            && (a.kind == b.kind ==> a.age.value >= b.age.value)
            && (a.kind == b.kind && a.age == b.age ==> StrLe(a.id, b.id))
  {
    PlanSafe(plan, artifacts, ours, p, obsolete);
    var a, b := plan.candidates[i], plan.candidates[j];
    assert a in plan.candidates && b in plan.candidates;
    assert RemovalOrder(a, b);
    KindsInOrder(a, b);
  }

  /**
   * What the idle budget frees: a run of eligible volumes, none younger than any eligible one left
   * behind; with one fewer the rest would not fit, and now it fits unless nothing eligible is left.
   */
  lemma {:induction false} PromotionExact(held: seq<Verdict>, p: Policy) returns (left: seq<Verdict>)
    requires p.idleBudget.Some?
    ensures multiset(OverBudget(held, p)) + multiset(left) == multiset(Filter(held, IsEligible(p.idleFloor)))
    ensures forall v, w :: v in OverBudget(held, p) && w in left ==> AgeAtLeast(v.age, w.age)
    ensures left != [] ==> IdleBytes(held) - Sum(OverBudget(held, p)) <= p.idleBudget.value
    ensures forall k :: 0 <= k < |OverBudget(held, p)| ==> IdleBytes(held) - Sum(OverBudget(held, p)[..k]) > p.idleBudget.value
  {
    var eligible := Filter(held, IsEligible(p.idleFloor));
    var order := Sort(eligible, OlderFirst);
    var m := Needed(order, IdleBytes(held), p.idleBudget.value);
    left := order[m..];
    SortCut(eligible, m);
    ShorterPrefixes(order, m, IdleBytes(held), p.idleBudget.value);
  }

  lemma {:induction false} SortCut(eligible: seq<Verdict>, m: nat)
    requires m <= |Sort(eligible, OlderFirst)|
    ensures var order := Sort(eligible, OlderFirst);
            && multiset(order[..m]) + multiset(order[m..]) == multiset(eligible)
            && forall v, w :: v in order[..m] && w in order[m..] ==> AgeAtLeast(v.age, w.age)
  {
    var order := Sort(eligible, OlderFirst);
    OlderFirstTotal();
    SortSorted(eligible, OlderFirst);
    OlderThanRest(order, m);
    SortMultiset(eligible, OlderFirst);
    assert order == order[..m] + order[m..];
  }

  lemma {:induction false} OlderThanRest(order: seq<Verdict>, m: nat)
    requires m <= |order| && Sorted(order, OlderFirst)
    ensures forall v, w :: v in order[..m] && w in order[m..] ==> AgeAtLeast(v.age, w.age)
  {
    var left := order[m..];
    forall v, w | v in order[..m] && w in left ensures AgeAtLeast(v.age, w.age) {
      var i :| 0 <= i < m && order[i] == v;
      var j :| 0 <= j < |left| && left[j] == w;
      assert OlderFirst(order[i], order[m + j]);
    }
  }

  lemma {:induction false} ShorterPrefixes(order: seq<Verdict>, m: nat, total: int, budget: int)
    requires m <= |order| && forall k :: 0 <= k < m ==> total - Sum(order[..k]) > budget
    ensures forall k :: 0 <= k < m ==> total - Sum(order[..m][..k]) > budget
  {
    forall k | 0 <= k < m ensures total - Sum(order[..m][..k]) > budget {
      assert order[..m][..k] == order[..k];
    }
  }
}
