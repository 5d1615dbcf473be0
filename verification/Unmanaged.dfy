/** The census of objects Bosn does not own, and the sweep plan built from the same observation. */
module Unmanaged {
  import opened Common
  import opened Order
  import opened Ownership

  datatype Class = DanglingImage | StoppedContainer | AnonymousVolume | BuildCache | UnreferencedImage | NamedVolume

  datatype Tier = Reclaimable | Review

  datatype Reason = OwnedByThisRegistry | ForeignRegistry | IncompleteLabels | InUse | Unmeasured | Unclassified

  function TierOf(c: Class): Tier {
    match c
    case UnreferencedImage => Review
    case NamedVolume => Review
    case _ => Reclaimable
  }

  predicate RemovableById(c: Class) {
    !c.BuildCache?
  }

  datatype Classification = Classification(owner: Owner, category: Option<Class>, protection: Option<Reason>, ageEligible: bool)

  function Protect(owner: Owner, r: Reason): Classification {
    Classification(owner, None, Some(r), false)
  }

  function Classify(a: Artifact, ours: Option<string>, ttl: real): Classification {
    var owner := ClassifyOwnership(a.labels, ours);
    match owner
    case Ours =>
      if a.kind.Image? && a.signals.dangling && !a.signals.inUse then
        if a.age.None? then Protect(owner, Unmeasured)
        else Classification(owner, Some(DanglingImage), None, a.age.value >= ttl)
      else Protect(owner, OwnedByThisRegistry)
    case Foreign => Protect(owner, ForeignRegistry)
    case Incomplete => Protect(owner, IncompleteLabels)
    case Unlabelled =>
      if a.signals.inUse then Protect(owner, InUse)
      else if a.age.None? then Protect(owner, Unmeasured)
      else
        match a.kind
        case Image => Classification(owner, Some(if a.signals.dangling then DanglingImage else UnreferencedImage), None, a.age.value >= ttl)
        case Container => Classification(owner, Some(StoppedContainer), None, a.age.value >= ttl)
        case Volume => Classification(owner, Some(if a.signals.anonymous then AnonymousVolume else NamedVolume), None, a.age.value >= ttl)
        case Builder => Classification(owner, Some(BuildCache), None, a.age.value >= ttl)
        case Network => Protect(owner, Unclassified)
  }

  /** Every object is in exactly one class or held for exactly one reason. */
  lemma {:induction false} OneVerdict(a: Artifact, ours: Option<string>, ttl: real)
    ensures Classify(a, ours, ttl).category.Some? <==> Classify(a, ours, ttl).protection.None?
    ensures Classify(a, ours, ttl).category.Some? ==> a.age.Some? && !a.signals.inUse
    ensures Classify(a, ours, ttl).ageEligible ==> Classify(a, ours, ttl).category.Some? && a.age.value >= ttl
  {
  }

  /** Nobody's object, idle and of known age. */
  ghost predicate Loose(a: Artifact) {
    (forall key :: key in a.labels ==> !IsBosnLabel(key)) && !a.signals.inUse && a.age.Some?
  }

  /** What each class means, and that the gate is the age alone. */
  lemma {:induction false} ClassMeaning(a: Artifact, ours: Option<string>, ttl: real)
    ensures var c := Classify(a, ours, ttl).category;
            && (c == Some(DanglingImage) <==> a.kind.Image? && a.signals.dangling && (Loose(a) || (ProvenOurs(a.labels, ours) && !a.signals.inUse && a.age.Some?)))
            && (c == Some(UnreferencedImage) <==> a.kind.Image? && !a.signals.dangling && Loose(a))
            && (c == Some(StoppedContainer) <==> a.kind.Container? && Loose(a))
            && (c == Some(AnonymousVolume) <==> a.kind.Volume? && a.signals.anonymous && Loose(a))
            && (c == Some(NamedVolume) <==> a.kind.Volume? && !a.signals.anonymous && Loose(a))
            && (c == Some(BuildCache) <==> a.kind.Builder? && Loose(a))
            && (c.Some? ==> (Classify(a, ours, ttl).ageEligible <==> a.age.value >= ttl))
  {
    OwnershipExact(a.labels, ours);
  }

  /** What each reason to protect means. */
  lemma {:induction false} ReasonMeaning(a: Artifact, ours: Option<string>, ttl: real)
    ensures var r := Classify(a, ours, ttl).protection;
            var nobodys := forall key :: key in a.labels ==> !IsBosnLabel(key);
            && (r == Some(IncompleteLabels) <==> AnyBosnLabel(a.labels) && !AllRequired(a.labels))
            && (r == Some(ForeignRegistry) <==> AnyBosnLabel(a.labels) && AllRequired(a.labels) && !ProvenOurs(a.labels, ours))
            && (r == Some(OwnedByThisRegistry) <==>
                  ProvenOurs(a.labels, ours) && !(a.kind.Image? && a.signals.dangling && !a.signals.inUse))
            && (r == Some(InUse) <==> nobodys && a.signals.inUse)
            && (r == Some(Unmeasured) <==>
                  !a.signals.inUse && a.age.None? &&
                  (nobodys || (ProvenOurs(a.labels, ours) && a.kind.Image? && a.signals.dangling)))
            && (r == Some(Unclassified) <==> nobodys && !a.signals.inUse && a.age.Some? && a.kind.Network?)
  {
    OwnershipExact(a.labels, ours);
    assert ProvenOurs(a.labels, ours) ==> AnyBosnLabel(a.labels) by {
      RegistryLabelIsBosn();
      assert LABEL_REGISTRY in REQUIRED_LABELS;
    }
  }

  /** A pinned object is protected, with one exception: an idle dangling image of this registry, at a known age. */
  lemma {:induction false} PinnedExact(a: Artifact, ours: Option<string>, ttl: real)
    requires IsPinned(a.labels)
    ensures Classify(a, ours, ttl).protection.None? <==>
            ProvenOurs(a.labels, ours) && a.kind.Image? && a.signals.dangling && !a.signals.inUse && a.age.Some?
  {
    PinIsBosnLabel();
    OwnershipExact(a.labels, ours);
  }

  /** An image built here, pinned, and since dangling: every label this registry puts on it, and the pin. */
  function PinnedImage(registry: string, age: real): Artifact {
    var labels := map[
      "com.zackees.bosn.kind" := "image", "com.zackees.bosn.stack" := "web", "com.zackees.bosn.generation" := "1",
      "com.zackees.bosn.scope" := "spec", "com.zackees.bosn.workspace" := "/w", "com.zackees.bosn.created" := "0",
      LABEL_REGISTRY := registry, LABEL_RETENTION := "pinned"];
    Artifact("image", Image, labels, Signals(false, true, false), None, Some(age))
  }

  /** The exception is real: such an image is classed as reclaimable, and once old enough it is eligible. */
  lemma {:induction false} PinnedUnprotected(registry: string, age: real, ttl: real)
    ensures var a := PinnedImage(registry, age);
            && IsPinned(a.labels)
            && Classify(a, Some(registry), ttl) == Classification(Ours, Some(DanglingImage), None, age >= ttl)
  {
    var a := PinnedImage(registry, age);
    assert |LABEL_REGISTRY| != |LABEL_RETENTION|;
    assert ProvenOurs(a.labels, Some(registry));
    OwnershipExact(a.labels, Some(registry));
  }

  // ------------------------------------------------------------------ counting

  function Count(s: seq<Artifact>, p: Artifact -> bool): nat {
    if s == [] then 0 else Count(s[..|s| - 1], p) + (if p(s[|s| - 1]) then 1 else 0)
  }

  function Measured(a: Artifact): int {
    if a.bytes.Some? then a.bytes.value else 0
  }

  function Bytes(s: seq<Artifact>, p: Artifact -> bool): int {
    if s == [] then 0 else Bytes(s[..|s| - 1], p) + (if p(s[|s| - 1]) then Measured(s[|s| - 1]) else 0)
  }

  /** The greatest age among the objects that pass. */
  function Oldest(s: seq<Artifact>, p: Artifact -> bool): Option<real> {
    if s == [] then None
    else
      var rest, a := Oldest(s[..|s| - 1], p), s[|s| - 1];
      if !p(a) || a.age.None? then rest
      else if rest.Some? && rest.value >= a.age.value then rest
      else a.age
  }

  /** The oldest age is one of them and none is greater; there is none exactly when no age is known. */
  lemma {:induction false} OldestExact(s: seq<Artifact>, p: Artifact -> bool)
    ensures Oldest(s, p).Some? ==> exists a :: a in s && p(a) && a.age == Oldest(s, p)
    ensures forall a :: a in s && p(a) && a.age.Some? ==> Oldest(s, p).Some? && a.age.value <= Oldest(s, p).value
  {
    if s != [] {
      var rest, last := s[..|s| - 1], s[|s| - 1];
      assert s == rest + [last];
      OldestExact(rest, p);
      if Oldest(s, p).Some? {
        if Oldest(s, p) == Oldest(rest, p) {
          var a :| a in rest && p(a) && a.age == Oldest(rest, p);
          assert a in s;
        } else {
          assert last in s && p(last);
        }
      }
    }
  }

  lemma {:induction false} Prefixes<T>(s: seq<T>, i: nat)
    requires i < |s|
    ensures s[..i + 1][..|s[..i + 1]| - 1] == s[..i] && s[..i + 1][|s[..i + 1]| - 1] == s[i] && s[..i + 1] != []
  {
  }

  lemma {:induction false} CountSplit(s: seq<Artifact>, p: Artifact -> bool, q: Artifact -> bool, both: Artifact -> bool)
    requires forall a :: a in s ==> !(p(a) && q(a)) && (both(a) <==> p(a) || q(a))
    ensures Count(s, both) == Count(s, p) + Count(s, q)
    ensures Bytes(s, both) == Bytes(s, p) + Bytes(s, q)
  {
    if s != [] {
      CountSplit(s[..|s| - 1], p, q, both);
      assert s[|s| - 1] in s;
    }
  }

  // -------------------------------------------------------------------- verdicts

  function InClass(ours: Option<string>, ttl: real, c: Class): Artifact -> bool {
    (a: Artifact) => Classify(a, ours, ttl).category == Some(c)
  }

  function HeldFor(ours: Option<string>, ttl: real, r: Reason): Artifact -> bool {
    (a: Artifact) => Classify(a, ours, ttl).protection == Some(r)
  }

  predicate Ripe(a: Artifact, ours: Option<string>, ttl: real, c: Class) {
    Classify(a, ours, ttl).category == Some(c) && Classify(a, ours, ttl).ageEligible
  }

  /** Past the gate, in this class, and the class may be swept. */
  function Sweepable(ours: Option<string>, ttl: real, c: Class): Artifact -> bool {
    (a: Artifact) => Sweeps(a, ours, ttl, c)
  }

  predicate Anything(a: Artifact) {
    true
  }

  predicate NoSize(a: Artifact) {
    a.bytes.None?
  }

  // --------------------------------------------------------------------- the census

  datatype Summary = Summary(objects: nat, bytes: int, eligibleObjects: nat, eligibleBytes: int, oldest: Option<real>)

  datatype Held = Held(objects: nat, bytes: int)

  datatype Census = Census(
    classes: map<Class, Summary>, protection: map<Reason, Held>, reclaimableObjects: nat, reclaimableBytes: int,
    partial: bool, unmeasured: nat)

  function SummaryOf(s: seq<Artifact>, ours: Option<string>, ttl: real, c: Class): Summary {
    Summary(Count(s, InClass(ours, ttl, c)), Bytes(s, InClass(ours, ttl, c)),
            Count(s, Sweepable(ours, ttl, c)), Bytes(s, Sweepable(ours, ttl, c)), Oldest(s, InClass(ours, ttl, c)))
  }

  function HeldOf(s: seq<Artifact>, ours: Option<string>, ttl: real, r: Reason): Held {
    Held(Count(s, HeldFor(ours, ttl, r)), Bytes(s, HeldFor(ours, ttl, r)))
  }

  /** The entry a class has, or the empty entry it would start from. */
  function EntryOf(classes: map<Class, Summary>, c: Class): Summary {
    if c in classes then classes[c] else Summary(0, 0, 0, 0, None)
  }

  function HeldEntry(protection: map<Reason, Held>, r: Reason): Held {
    if r in protection then protection[r] else Held(0, 0)
  }

  /** A class has an entry exactly when some object is in it, and the entry sums those objects. */
  ghost predicate ClassExact(classes: map<Class, Summary>, c: Class, sum: Summary) {
    (c in classes <==> sum.objects > 0) && EntryOf(classes, c) == sum
  }

  ghost predicate ReasonExact(protection: map<Reason, Held>, r: Reason, sum: Held) {
    (r in protection <==> sum.objects > 0) && HeldEntry(protection, r) == sum
  }

  ghost predicate ClassesExact(classes: map<Class, Summary>, s: seq<Artifact>, ours: Option<string>, ttl: real) {
    forall c :: ClassExact(classes, c, SummaryOf(s, ours, ttl, c))
  }

  ghost predicate ReasonsExact(protection: map<Reason, Held>, s: seq<Artifact>, ours: Option<string>, ttl: real) {
    forall r :: ReasonExact(protection, r, HeldOf(s, ours, ttl, r))
  }

  const ALL_CLASSES := [DanglingImage, StoppedContainer, AnonymousVolume, BuildCache, UnreferencedImage, NamedVolume]

  predicate Countable(c: Class) {
    TierOf(c).Reclaimable? && RemovableById(c)
  }

  function EligibleObjects(classes: map<Class, Summary>, cs: seq<Class>): nat {
    if cs == [] then 0
    else EligibleObjects(classes, cs[..|cs| - 1]) + (var c := cs[|cs| - 1]; if c in classes && Countable(c) then classes[c].eligibleObjects else 0)
  }

  function EligibleBytes(classes: map<Class, Summary>, cs: seq<Class>): int {
    if cs == [] then 0
    else EligibleBytes(classes, cs[..|cs| - 1]) + (var c := cs[|cs| - 1]; if c in classes && Countable(c) then classes[c].eligibleBytes else 0)
  }

  ghost predicate IsCensus(census: Census, s: seq<Artifact>, ours: Option<string>, ttl: real) {
    && ClassesExact(census.classes, s, ours, ttl) && ReasonsExact(census.protection, s, ours, ttl)
    && census.reclaimableObjects == EligibleObjects(census.classes, ALL_CLASSES)
    && census.reclaimableBytes == EligibleBytes(census.classes, ALL_CLASSES)
    && census.unmeasured == Count(s, NoSize) && (census.partial <==> census.unmeasured > 0)
  }

  lemma {:induction false} CountNext(s: seq<Artifact>, i: nat, p: Artifact -> bool)
    requires i < |s|
    ensures Count(s[..i + 1], p) == Count(s[..i], p) + (if p(s[i]) then 1 else 0)
    ensures Bytes(s[..i + 1], p) == Bytes(s[..i], p) + (if p(s[i]) then Measured(s[i]) else 0)
    ensures Oldest(s[..i + 1], p) == (var rest := Oldest(s[..i], p); if !p(s[i]) || s[i].age.None? then rest else if rest.Some? && rest.value >= s[i].age.value then rest else s[i].age)
  {
    Prefixes(s, i);
  }

  function Raised(e: Summary, a: Artifact, sweep: bool): Summary {
    Summary(e.objects + 1, e.bytes + Measured(a),
            e.eligibleObjects + (if sweep then 1 else 0), e.eligibleBytes + (if sweep then Measured(a) else 0),
            if a.age.None? then e.oldest else if e.oldest.Some? && e.oldest.value >= a.age.value then e.oldest else a.age)
  }

  predicate Sweeps(a: Artifact, ours: Option<string>, ttl: real, c: Class) {
    Ripe(a, ours, ttl, c) && TierOf(c).Reclaimable?
  }

  lemma {:induction false} SummaryNext(s: seq<Artifact>, i: nat, ours: Option<string>, ttl: real, c: Class)
    requires i < |s|
    ensures SummaryOf(s[..i + 1], ours, ttl, c) ==
            if Classify(s[i], ours, ttl).category == Some(c) then Raised(SummaryOf(s[..i], ours, ttl, c), s[i], Sweeps(s[i], ours, ttl, c))
            else SummaryOf(s[..i], ours, ttl, c)
  {
    CountNext(s, i, InClass(ours, ttl, c));
    CountNext(s, i, Sweepable(ours, ttl, c));
  }

  lemma {:induction false} HeldNext(s: seq<Artifact>, i: nat, ours: Option<string>, ttl: real, r: Reason)
    requires i < |s|
    ensures HeldOf(s[..i + 1], ours, ttl, r) ==
            if Classify(s[i], ours, ttl).protection == Some(r) then Held(HeldOf(s[..i], ours, ttl, r).objects + 1, HeldOf(s[..i], ours, ttl, r).bytes + Measured(s[i]))
            else HeldOf(s[..i], ours, ttl, r)
  {
    CountNext(s, i, HeldFor(ours, ttl, r));
  }

  lemma {:induction false} ClassCounted(classes: map<Class, Summary>, s: seq<Artifact>, i: nat, ours: Option<string>, ttl: real, c: Class)
    requires i < |s| && ClassesExact(classes, s[..i], ours, ttl) && Classify(s[i], ours, ttl).category == Some(c)
    ensures ClassesExact(classes[c := Raised(EntryOf(classes, c), s[i], Sweeps(s[i], ours, ttl, c))], s[..i + 1], ours, ttl)
  {
    var after := classes[c := Raised(EntryOf(classes, c), s[i], Sweeps(s[i], ours, ttl, c))];
    var next := s[..i + 1];
    forall d ensures ClassExact(after, d, SummaryOf(next, ours, ttl, d)) {
      SummaryNext(s, i, ours, ttl, d);
      assert ClassExact(classes, d, SummaryOf(s[..i], ours, ttl, d));
    }
  }

  lemma {:induction false} ClassSkipped(classes: map<Class, Summary>, s: seq<Artifact>, i: nat, ours: Option<string>, ttl: real)
    requires i < |s| && ClassesExact(classes, s[..i], ours, ttl) && Classify(s[i], ours, ttl).category.None?
    ensures ClassesExact(classes, s[..i + 1], ours, ttl)
  {
    var next := s[..i + 1];
    forall d ensures ClassExact(classes, d, SummaryOf(next, ours, ttl, d)) {
      SummaryNext(s, i, ours, ttl, d);
      assert ClassExact(classes, d, SummaryOf(s[..i], ours, ttl, d));
    }
  }

  lemma {:induction false} ReasonCounted(protection: map<Reason, Held>, s: seq<Artifact>, i: nat, ours: Option<string>, ttl: real, r: Reason)
    requires i < |s| && ReasonsExact(protection, s[..i], ours, ttl) && Classify(s[i], ours, ttl).protection == Some(r)
    ensures ReasonsExact(protection[r := Held(HeldEntry(protection, r).objects + 1, HeldEntry(protection, r).bytes + Measured(s[i]))], s[..i + 1], ours, ttl)
  {
    var after := protection[r := Held(HeldEntry(protection, r).objects + 1, HeldEntry(protection, r).bytes + Measured(s[i]))];
    var next := s[..i + 1];
    forall d ensures ReasonExact(after, d, HeldOf(next, ours, ttl, d)) {
      HeldNext(s, i, ours, ttl, d);
      assert ReasonExact(protection, d, HeldOf(s[..i], ours, ttl, d));
    }
  }

  lemma {:induction false} ReasonSkipped(protection: map<Reason, Held>, s: seq<Artifact>, i: nat, ours: Option<string>, ttl: real)
    requires i < |s| && ReasonsExact(protection, s[..i], ours, ttl) && Classify(s[i], ours, ttl).protection.None?
    ensures ReasonsExact(protection, s[..i + 1], ours, ttl)
  {
    var next := s[..i + 1];
    forall d ensures ReasonExact(protection, d, HeldOf(next, ours, ttl, d)) {
      HeldNext(s, i, ours, ttl, d);
      assert ReasonExact(protection, d, HeldOf(s[..i], ours, ttl, d));
    }
  }

  method TakeCensus(artifacts: seq<Artifact>, ours: Option<string>, ttl: real) returns (census: Census)
    ensures IsCensus(census, artifacts, ours, ttl)
  {
    var classes: map<Class, Summary>, protection: map<Reason, Held> := map[], map[];
    var partial, unmeasured: nat := false, 0;
    assert artifacts[..0] == [];
    for i := 0 to |artifacts|
      invariant ClassesExact(classes, artifacts[..i], ours, ttl) && ReasonsExact(protection, artifacts[..i], ours, ttl)
      invariant unmeasured == Count(artifacts[..i], NoSize) && (partial <==> unmeasured > 0)
    {
      var a := artifacts[i];
      var verdict := Classify(a, ours, ttl);
      OneVerdict(a, ours, ttl);
      CountNext(artifacts, i, NoSize);
      if a.bytes.None? {
        partial := true;
        unmeasured := unmeasured + 1;
      }
      if verdict.protection.Some? {
        var reason := verdict.protection.value;
        ReasonCounted(protection, artifacts, i, ours, ttl, reason);
        ClassSkipped(classes, artifacts, i, ours, ttl);
        var entry := HeldEntry(protection, reason);
        protection := protection[reason := Held(entry.objects + 1, entry.bytes + Measured(a))];
      } else {
        var c := verdict.category.value;
        ClassCounted(classes, artifacts, i, ours, ttl, c);
        ReasonSkipped(protection, artifacts, i, ours, ttl);
        classes := classes[c := Raised(EntryOf(classes, c), a, Sweeps(a, ours, ttl, c))];
      }
    }
    assert artifacts[..|artifacts|] == artifacts;
    census := Census(classes, protection, EligibleObjects(classes, ALL_CLASSES), EligibleBytes(classes, ALL_CLASSES), partial, unmeasured);
  }

  // ------------------------------------------------------------------- conservation

  function ClassObjects(census: Census): nat {
    EntryOf(census.classes, DanglingImage).objects + EntryOf(census.classes, StoppedContainer).objects
    + EntryOf(census.classes, AnonymousVolume).objects + EntryOf(census.classes, BuildCache).objects
    + EntryOf(census.classes, UnreferencedImage).objects + EntryOf(census.classes, NamedVolume).objects
  }

  function ClassBytes(census: Census): int {
    EntryOf(census.classes, DanglingImage).bytes + EntryOf(census.classes, StoppedContainer).bytes
    + EntryOf(census.classes, AnonymousVolume).bytes + EntryOf(census.classes, BuildCache).bytes
    + EntryOf(census.classes, UnreferencedImage).bytes + EntryOf(census.classes, NamedVolume).bytes
  }

  function HeldObjects(census: Census): nat {
    HeldEntry(census.protection, OwnedByThisRegistry).objects + HeldEntry(census.protection, ForeignRegistry).objects
    + HeldEntry(census.protection, IncompleteLabels).objects + HeldEntry(census.protection, InUse).objects
    + HeldEntry(census.protection, Unmeasured).objects + HeldEntry(census.protection, Unclassified).objects
  }

  function HeldBytes(census: Census): int {
    HeldEntry(census.protection, OwnedByThisRegistry).bytes + HeldEntry(census.protection, ForeignRegistry).bytes
    + HeldEntry(census.protection, IncompleteLabels).bytes + HeldEntry(census.protection, InUse).bytes
    + HeldEntry(census.protection, Unmeasured).bytes + HeldEntry(census.protection, Unclassified).bytes
  }

  function SixCounts(s: seq<Artifact>, a: Artifact -> bool, b: Artifact -> bool, c: Artifact -> bool, d: Artifact -> bool, e: Artifact -> bool, f: Artifact -> bool): (nat, int) {
    (Count(s, a) + Count(s, b) + Count(s, c) + Count(s, d) + Count(s, e) + Count(s, f),
     Bytes(s, a) + Bytes(s, b) + Bytes(s, c) + Bytes(s, d) + Bytes(s, e) + Bytes(s, f))
  }

  ghost predicate ExactlyOne(x: Artifact, a: Artifact -> bool, b: Artifact -> bool, c: Artifact -> bool, d: Artifact -> bool, e: Artifact -> bool, f: Artifact -> bool, any: Artifact -> bool) {
    (if a(x) then 1 else 0) + (if b(x) then 1 else 0) + (if c(x) then 1 else 0)
    + (if d(x) then 1 else 0) + (if e(x) then 1 else 0) + (if f(x) then 1 else 0) == if any(x) then 1 else 0
  }

  lemma {:induction false} SixPart(s: seq<Artifact>, a: Artifact -> bool, b: Artifact -> bool, c: Artifact -> bool, d: Artifact -> bool, e: Artifact -> bool, f: Artifact -> bool, any: Artifact -> bool)
    requires forall x :: x in s ==> ExactlyOne(x, a, b, c, d, e, f, any)
    ensures SixCounts(s, a, b, c, d, e, f) == (Count(s, any), Bytes(s, any))
  {
    if s != [] {
      var x := s[|s| - 1];
      assert x in s;
      assert ExactlyOne(x, a, b, c, d, e, f, any);
      SixPart(s[..|s| - 1], a, b, c, d, e, f, any);
    }
  }

  function Classed(ours: Option<string>, ttl: real): Artifact -> bool {
    (a: Artifact) => Classify(a, ours, ttl).category.Some?
  }

  function Guarded(ours: Option<string>, ttl: real): Artifact -> bool {
    (a: Artifact) => Classify(a, ours, ttl).protection.Some?
  }

  lemma {:induction false} CountAll(s: seq<Artifact>)
    ensures Count(s, Anything) == |s|
  {
    if s != [] {
      CountAll(s[..|s| - 1]);
    }
  }

  lemma {:induction false} ClassesPart(s: seq<Artifact>, ours: Option<string>, ttl: real)
    ensures SixCounts(s, InClass(ours, ttl, DanglingImage), InClass(ours, ttl, StoppedContainer), InClass(ours, ttl, AnonymousVolume),
                      InClass(ours, ttl, BuildCache), InClass(ours, ttl, UnreferencedImage), InClass(ours, ttl, NamedVolume))
         == (Count(s, Classed(ours, ttl)), Bytes(s, Classed(ours, ttl)))
  {
    SixPart(s, InClass(ours, ttl, DanglingImage), InClass(ours, ttl, StoppedContainer), InClass(ours, ttl, AnonymousVolume),
            InClass(ours, ttl, BuildCache), InClass(ours, ttl, UnreferencedImage), InClass(ours, ttl, NamedVolume), Classed(ours, ttl));
  }

  lemma {:induction false} ReasonsPart(s: seq<Artifact>, ours: Option<string>, ttl: real)
    ensures SixCounts(s, HeldFor(ours, ttl, OwnedByThisRegistry), HeldFor(ours, ttl, ForeignRegistry), HeldFor(ours, ttl, IncompleteLabels),
                      HeldFor(ours, ttl, InUse), HeldFor(ours, ttl, Unmeasured), HeldFor(ours, ttl, Unclassified))
         == (Count(s, Guarded(ours, ttl)), Bytes(s, Guarded(ours, ttl)))
  {
    SixPart(s, HeldFor(ours, ttl, OwnedByThisRegistry), HeldFor(ours, ttl, ForeignRegistry), HeldFor(ours, ttl, IncompleteLabels),
            HeldFor(ours, ttl, InUse), HeldFor(ours, ttl, Unmeasured), HeldFor(ours, ttl, Unclassified), Guarded(ours, ttl));
  }

  /** Every object is counted once, and every measured byte lands in exactly one total. */
  lemma {:induction false} CensusConserves(census: Census, s: seq<Artifact>, ours: Option<string>, ttl: real)
    requires IsCensus(census, s, ours, ttl)
    ensures ClassObjects(census) + HeldObjects(census) == |s|
    ensures ClassBytes(census) + HeldBytes(census) == Bytes(s, Anything)
  {
    ClassesPart(s, ours, ttl);
    ReasonsPart(s, ours, ttl);
    forall a | a in s ensures !(Classed(ours, ttl)(a) && Guarded(ours, ttl)(a)) && (Anything(a) <==> Classed(ours, ttl)(a) || Guarded(ours, ttl)(a)) {
      OneVerdict(a, ours, ttl);
    }
    CountSplit(s, Classed(ours, ttl), Guarded(ours, ttl), Anything);
    CountAll(s);
    EntriesRead(census, s, ours, ttl);
  }

  lemma {:induction false} EntriesRead(census: Census, s: seq<Artifact>, ours: Option<string>, ttl: real)
    requires IsCensus(census, s, ours, ttl)
    ensures forall c :: EntryOf(census.classes, c) == SummaryOf(s, ours, ttl, c)
    ensures forall r :: HeldEntry(census.protection, r) == HeldOf(s, ours, ttl, r)
  {
    forall c ensures EntryOf(census.classes, c) == SummaryOf(s, ours, ttl, c) {
      assert ClassExact(census.classes, c, SummaryOf(s, ours, ttl, c));
    }
    forall r ensures HeldEntry(census.protection, r) == HeldOf(s, ours, ttl, r) {
      assert ReasonExact(census.protection, r, HeldOf(s, ours, ttl, r));
    }
  }

  // ------------------------------------------------------------------------ the plan

  datatype Candidate = Candidate(id: string, category: Class, bytes: int)

  datatype Plan = Plan(candidates: seq<Candidate>, review: seq<Candidate>, reportOnly: map<Class, Summary>, bytes: int)

  function RemovalRank(c: Class): nat {
    match c
    case StoppedContainer => 0
    case UnreferencedImage => 1
    case DanglingImage => 1
    case AnonymousVolume => 2
    case NamedVolume => 2
    case BuildCache => 3
  }

  predicate RankLe(a: Candidate, b: Candidate) {
    RemovalRank(a.category) <= RemovalRank(b.category)
  }

  /** Measured, unprotected and past its gate. */
  predicate Ready(a: Artifact, ours: Option<string>, ttl: real) {
    a.bytes.Some? && Classify(a, ours, ttl).category.Some? && Classify(a, ours, ttl).ageEligible
  }

  function Removes(ours: Option<string>, ttl: real, included: seq<string>): Artifact -> bool {
    (a: Artifact) =>
      Ready(a, ours, ttl) && RemovableById(Classify(a, ours, ttl).category.value)
      && (TierOf(Classify(a, ours, ttl).category.value).Reclaimable? || a.id in included)
  }

  function Reviews(ours: Option<string>, ttl: real, included: seq<string>): Artifact -> bool {
    (a: Artifact) =>
      Ready(a, ours, ttl) && RemovableById(Classify(a, ours, ttl).category.value)
      && TierOf(Classify(a, ours, ttl).category.value).Review? && a.id !in included
  }

  function Reports(ours: Option<string>, ttl: real): Artifact -> bool {
    (a: Artifact) => Ready(a, ours, ttl) && !RemovableById(Classify(a, ours, ttl).category.value)
  }

  function CandidateOf(a: Artifact, ours: Option<string>, ttl: real): Candidate {
    var verdict := Classify(a, ours, ttl);
    Candidate(a.id, if verdict.category.Some? then verdict.category.value else BuildCache, Measured(a))
  }

  function Candidates(s: seq<Artifact>, ours: Option<string>, ttl: real, p: Artifact -> bool): (cs: seq<Candidate>)
    ensures |cs| == Count(s, p)
  {
    if s == [] then [] else Candidates(s[..|s| - 1], ours, ttl, p) + (if p(s[|s| - 1]) then [CandidateOf(s[|s| - 1], ours, ttl)] else [])
  }

  function ReportOf(s: seq<Artifact>, ours: Option<string>, ttl: real): Summary {
    var n, b := Count(s, Reports(ours, ttl)), Bytes(s, Reports(ours, ttl));
    Summary(n, b, n, b, None)
  }

  ghost predicate IsPlan(plan: Plan, s: seq<Artifact>, ours: Option<string>, ttl: real, included: seq<string>) {
    && plan.candidates == Sort(Candidates(s, ours, ttl, Removes(ours, ttl, included)), RankLe)
    && plan.review == Candidates(s, ours, ttl, Reviews(ours, ttl, included))
    && plan.reportOnly.Keys <= {BuildCache} && ClassExact(plan.reportOnly, BuildCache, ReportOf(s, ours, ttl))
    && plan.bytes == Bytes(s, Removes(ours, ttl, included))
  }

  /** What may be swept: measured, past the gate, and nobody's and idle, or this registry's dangling image. */
  ghost predicate Sweepworthy(a: Artifact, ours: Option<string>, ttl: real) {
    && a.bytes.Some? && a.age.Some? && a.age.value >= ttl && !a.signals.inUse
    && ((forall key :: key in a.labels ==> !IsBosnLabel(key)) || (ProvenOurs(a.labels, ours) && a.kind.Image? && a.signals.dangling))
  }

  /**
   * Which objects are removed, which await an explicit include, and which are only reported: containers,
   * dangling images and anonymous volumes go by themselves, other images and named volumes only when
   * they are included by their identity, and build caches never.
   */
  lemma {:induction false} PlanExact(a: Artifact, ours: Option<string>, ttl: real, included: seq<string>)
    ensures var sure := a.kind.Container? || (a.kind.Image? && a.signals.dangling) || (a.kind.Volume? && a.signals.anonymous);
            var unsure := (a.kind.Image? && !a.signals.dangling) || (a.kind.Volume? && !a.signals.anonymous);
            && (Removes(ours, ttl, included)(a) <==> Sweepworthy(a, ours, ttl) && (sure || (unsure && a.id in included)))
            && (Reviews(ours, ttl, included)(a) <==> Sweepworthy(a, ours, ttl) && unsure && a.id !in included)
            && (Reports(ours, ttl)(a) <==> Sweepworthy(a, ours, ttl) && a.kind.Builder?)
  {
    ClassMeaning(a, ours, ttl);
    OneVerdict(a, ours, ttl);
    assert Loose(a) && ProvenOurs(a.labels, ours) ==> a.kind.Image? by {
      if ProvenOurs(a.labels, ours) {
        RegistryLabelIsBosn();
        assert LABEL_REGISTRY in REQUIRED_LABELS;
      }
    }
  }

  /** Every such object is in the plan, with its identity and its size. */
  lemma {:induction false} PlanComplete(plan: Plan, s: seq<Artifact>, ours: Option<string>, ttl: real, included: seq<string>, a: Artifact)
    requires IsPlan(plan, s, ours, ttl, included) && a in s && a.bytes.Some?
    ensures Removes(ours, ttl, included)(a) ==> exists c :: c in plan.candidates && c.id == a.id && c.bytes == a.bytes.value
    ensures Reviews(ours, ttl, included)(a) ==> exists c :: c in plan.review && c.id == a.id && c.bytes == a.bytes.value
  {
    var all := Candidates(s, ours, ttl, Removes(ours, ttl, included));
    SortMembers(all, RankLe);
    CandidateMember(s, ours, ttl, Removes(ours, ttl, included), a);
    CandidateMember(s, ours, ttl, Reviews(ours, ttl, included), a);
  }

  lemma {:induction false} CandidateMember(s: seq<Artifact>, ours: Option<string>, ttl: real, p: Artifact -> bool, a: Artifact)
    requires a in s
    ensures p(a) ==> CandidateOf(a, ours, ttl) in Candidates(s, ours, ttl, p)
  {
    var rest, last := s[..|s| - 1], s[|s| - 1];
    assert s == rest + [last];
    if a in rest {
      CandidateMember(rest, ours, ttl, p, a);
    }
  }

  lemma {:induction false} CandidatesNext(s: seq<Artifact>, i: nat, ours: Option<string>, ttl: real, p: Artifact -> bool)
    requires i < |s|
    ensures p(s[i]) ==> Candidates(s[..i + 1], ours, ttl, p) == Candidates(s[..i], ours, ttl, p) + [CandidateOf(s[i], ours, ttl)]
    ensures !p(s[i]) ==> Candidates(s[..i + 1], ours, ttl, p) == Candidates(s[..i], ours, ttl, p)
    ensures Bytes(s[..i + 1], p) == Bytes(s[..i], p) + (if p(s[i]) then Measured(s[i]) else 0)
  {
    Prefixes(s, i);
  }

  /** The running totals of a plan over the first `i` objects. */
  ghost predicate Gathered(s: seq<Artifact>, ours: Option<string>, ttl: real, included: seq<string>, candidates: seq<Candidate>, review: seq<Candidate>, reportOnly: map<Class, Summary>, bytes: int) {
    && candidates == Candidates(s, ours, ttl, Removes(ours, ttl, included))
    && review == Candidates(s, ours, ttl, Reviews(ours, ttl, included))
    && reportOnly.Keys <= {BuildCache} && ClassExact(reportOnly, BuildCache, ReportOf(s, ours, ttl))
    && bytes == Bytes(s, Removes(ours, ttl, included))
  }

  lemma {:induction false} GatherSkip(s: seq<Artifact>, i: nat, ours: Option<string>, ttl: real, included: seq<string>, candidates: seq<Candidate>, review: seq<Candidate>, reportOnly: map<Class, Summary>, bytes: int)
    requires i < |s| && Gathered(s[..i], ours, ttl, included, candidates, review, reportOnly, bytes)
    ensures !Ready(s[i], ours, ttl) ==> Gathered(s[..i + 1], ours, ttl, included, candidates, review, reportOnly, bytes)
    ensures Reports(ours, ttl)(s[i]) ==> var e := EntryOf(reportOnly, BuildCache);
              Gathered(s[..i + 1], ours, ttl, included, candidates, review,
                       reportOnly[BuildCache := Summary(e.objects + 1, e.bytes + Measured(s[i]), e.eligibleObjects + 1, e.eligibleBytes + Measured(s[i]), e.oldest)], bytes)
    ensures Removes(ours, ttl, included)(s[i]) ==> Gathered(s[..i + 1], ours, ttl, included, candidates + [CandidateOf(s[i], ours, ttl)], review, reportOnly, bytes + Measured(s[i]))
    ensures Reviews(ours, ttl, included)(s[i]) ==> Gathered(s[..i + 1], ours, ttl, included, candidates, review + [CandidateOf(s[i], ours, ttl)], reportOnly, bytes)
  {
    CandidatesNext(s, i, ours, ttl, Removes(ours, ttl, included));
    CandidatesNext(s, i, ours, ttl, Reviews(ours, ttl, included));
    CountNext(s, i, Reports(ours, ttl));
  }

  method BuildPlan(artifacts: seq<Artifact>, ours: Option<string>, ttl: real, included: seq<string>) returns (plan: Plan)
    ensures IsPlan(plan, artifacts, ours, ttl, included)
  {
    var candidates: seq<Candidate>, review: seq<Candidate>, reportOnly: map<Class, Summary>, bytes := [], [], map[], 0;
    assert artifacts[..0] == [];
    for i := 0 to |artifacts|
      invariant Gathered(artifacts[..i], ours, ttl, included, candidates, review, reportOnly, bytes)
    {
      var a := artifacts[i];
      GatherSkip(artifacts, i, ours, ttl, included, candidates, review, reportOnly, bytes);
      OneVerdict(a, ours, ttl);
      if a.bytes.None? {
        continue;
      }
      var verdict := Classify(a, ours, ttl);
      if verdict.category.None? || verdict.protection.Some? || !verdict.ageEligible {
        continue;
      }
      var c := verdict.category.value;
      if !RemovableById(c) {
        var e := EntryOf(reportOnly, c);
        reportOnly := reportOnly[c := Summary(e.objects + 1, e.bytes + a.bytes.value, e.eligibleObjects + 1, e.eligibleBytes + a.bytes.value, e.oldest)];
        continue;
      }
      var candidate := Candidate(a.id, c, a.bytes.value);
      if TierOf(c).Reclaimable? || a.id in included {
        bytes := bytes + a.bytes.value;
        candidates := candidates + [candidate];
      } else {
        review := review + [candidate];
      }
    }
    assert artifacts[..|artifacts|] == artifacts;
    plan := Plan(Sort(candidates, RankLe), review, reportOnly, bytes);
  }

  // --------------------------------------------------------- the two aggregations agree

  /** Past its gate in a class a command can sweep, measured or not. */
  function Swept(ours: Option<string>, ttl: real): Artifact -> bool {
    (a: Artifact) => Classify(a, ours, ttl).category.Some? && Classify(a, ours, ttl).ageEligible && Countable(Classify(a, ours, ttl).category.value)
  }

  function SweptUnmeasured(ours: Option<string>, ttl: real): Artifact -> bool {
    (a: Artifact) => Swept(ours, ttl)(a) && a.bytes.None?
  }

  /** A reviewable object that an include names. */
  function OptedIn(ours: Option<string>, ttl: real, included: seq<string>): Artifact -> bool {
    (a: Artifact) => Removes(ours, ttl, included)(a) && !Removes(ours, ttl, [])(a)
  }

  predicate Never(a: Artifact) {
    false
  }

  lemma {:induction false} NeverCounted(s: seq<Artifact>)
    ensures Count(s, Never) == 0 && Bytes(s, Never) == 0
  {
    if s != [] {
      NeverCounted(s[..|s| - 1]);
    }
  }

  lemma {:induction false} ReclaimableIsSwept(census: Census, s: seq<Artifact>, ours: Option<string>, ttl: real)
    requires IsCensus(census, s, ours, ttl)
    ensures census.reclaimableObjects == Count(s, Swept(ours, ttl)) && census.reclaimableBytes == Bytes(s, Swept(ours, ttl))
  {
    EntriesRead(census, s, ours, ttl);
    NeverCounted(s);
    SixPart(s, Sweepable(ours, ttl, DanglingImage), Sweepable(ours, ttl, StoppedContainer), Sweepable(ours, ttl, AnonymousVolume), Never, Never, Never, Swept(ours, ttl));
    SumUnfolds(census.classes);
  }

  lemma {:induction false} SumUnfolds(classes: map<Class, Summary>)
    ensures EligibleObjects(classes, ALL_CLASSES) ==
            EntryOf(classes, DanglingImage).eligibleObjects + EntryOf(classes, StoppedContainer).eligibleObjects + EntryOf(classes, AnonymousVolume).eligibleObjects
    ensures EligibleBytes(classes, ALL_CLASSES) ==
            EntryOf(classes, DanglingImage).eligibleBytes + EntryOf(classes, StoppedContainer).eligibleBytes + EntryOf(classes, AnonymousVolume).eligibleBytes
  {
    var a, b, c, d, e := ALL_CLASSES[..5], ALL_CLASSES[..4], ALL_CLASSES[..3], ALL_CLASSES[..2], ALL_CLASSES[..1];
    assert ALL_CLASSES[..|ALL_CLASSES| - 1] == a && a[..|a| - 1] == b && b[..|b| - 1] == c && c[..|c| - 1] == d && d[..|d| - 1] == e && e[..|e| - 1] == [];
    assert EligibleObjects(classes, []) == 0 && EligibleBytes(classes, []) == 0;
    assert EligibleObjects(classes, e) == EntryOf(classes, DanglingImage).eligibleObjects;
    assert EligibleBytes(classes, e) == EntryOf(classes, DanglingImage).eligibleBytes;
    assert EligibleObjects(classes, c) == EligibleObjects(classes, d) + EntryOf(classes, AnonymousVolume).eligibleObjects;
    assert EligibleBytes(classes, c) == EligibleBytes(classes, d) + EntryOf(classes, AnonymousVolume).eligibleBytes;
    assert EligibleObjects(classes, a) == EligibleObjects(classes, c) && EligibleBytes(classes, a) == EligibleBytes(classes, c);
  }

  lemma {:induction false} UnmeasuredWeighNothing(s: seq<Artifact>, p: Artifact -> bool)
    requires forall a :: a in s && p(a) ==> a.bytes.None?
    ensures Bytes(s, p) == 0
  {
    if s != [] {
      assert s[|s| - 1] in s;
      UnmeasuredWeighNothing(s[..|s| - 1], p);
    }
  }

  /** The plan's bytes and count are the census's, up to what an include adds and what was never measured. */
  lemma {:induction false} CensusAndPlanAgree(census: Census, plan: Plan, s: seq<Artifact>, ours: Option<string>, ttl: real, included: seq<string>)
    requires IsCensus(census, s, ours, ttl) && IsPlan(plan, s, ours, ttl, included)
    ensures plan.bytes == census.reclaimableBytes + Bytes(s, OptedIn(ours, ttl, included))
    ensures |plan.candidates| + Count(s, SweptUnmeasured(ours, ttl)) == census.reclaimableObjects + Count(s, OptedIn(ours, ttl, included))
    ensures included == [] ==> plan.bytes == census.reclaimableBytes
    ensures included == [] ==> |plan.candidates| + Count(s, SweptUnmeasured(ours, ttl)) == census.reclaimableObjects
  {
    var none: seq<string> := [];
    ReclaimableIsSwept(census, s, ours, ttl);
    CountSplit(s, Removes(ours, ttl, none), SweptUnmeasured(ours, ttl), Swept(ours, ttl));
    UnmeasuredWeighNothing(s, SweptUnmeasured(ours, ttl));
    CountSplit(s, Removes(ours, ttl, none), OptedIn(ours, ttl, included), Removes(ours, ttl, included));
    SortMultiset(Candidates(s, ours, ttl, Removes(ours, ttl, included)), RankLe);
    if included == [] {
      NobodyOptedIn(s, ours, ttl);
    }
  }

  lemma {:induction false} NobodyOptedIn(s: seq<Artifact>, ours: Option<string>, ttl: real)
    ensures Count(s, OptedIn(ours, ttl, [])) == 0 && Bytes(s, OptedIn(ours, ttl, [])) == 0
  {
    if s != [] {
      NobodyOptedIn(s[..|s| - 1], ours, ttl);
    }
  }

  /** What the plan can only report is what the census found in classes without removal by ID. */
  lemma {:induction false} ReportsAgree(census: Census, plan: Plan, s: seq<Artifact>, ours: Option<string>, ttl: real, included: seq<string>)
    requires IsCensus(census, s, ours, ttl) && IsPlan(plan, s, ours, ttl, included)
    ensures EntryOf(plan.reportOnly, BuildCache).eligibleBytes == EntryOf(census.classes, BuildCache).eligibleBytes
    ensures EntryOf(plan.reportOnly, BuildCache).objects + Count(s, ReportableUnmeasured(ours, ttl)) == EntryOf(census.classes, BuildCache).eligibleObjects
  {
    EntriesRead(census, s, ours, ttl);
    CountSplit(s, Reports(ours, ttl), ReportableUnmeasured(ours, ttl), Sweepable(ours, ttl, BuildCache));
    UnmeasuredWeighNothing(s, ReportableUnmeasured(ours, ttl));
  }

  function ReportableUnmeasured(ours: Option<string>, ttl: real): Artifact -> bool {
    (a: Artifact) => Sweepable(ours, ttl, BuildCache)(a) && a.bytes.None?
  }

  lemma {:induction false} CandidateOrigin(s: seq<Artifact>, ours: Option<string>, ttl: real, p: Artifact -> bool, c: Candidate)
    requires c in Candidates(s, ours, ttl, p)
    ensures exists a :: a in s && p(a) && c == CandidateOf(a, ours, ttl)
  {
    var rest, a := s[..|s| - 1], s[|s| - 1];
    if p(a) && c == CandidateOf(a, ours, ttl) {
      assert a in s;
    } else {
      CandidateOrigin(rest, ours, ttl, p, c);
      var b :| b in rest && p(b) && c == CandidateOf(b, ours, ttl);
      assert b in s;
    }
  }

  /** What a planned removal proves about the object it names. */
  ghost predicate Permitted(a: Artifact, c: Candidate, ours: Option<string>, ttl: real, included: seq<string>) {
    && c.id == a.id && a.bytes == Some(c.bytes)
    && !a.signals.inUse && a.age.Some? && a.age.value >= ttl
    && (ClassifyOwnership(a.labels, ours).Unlabelled? || (ProvenOurs(a.labels, ours) && a.kind.Image? && a.signals.dangling))
    && RemovableById(c.category) && (TierOf(c.category).Reclaimable? || a.id in included)
  }

  /** Nothing foreign, in use, young or unmeasured is ever planned; containers go, then images, then volumes. */
  lemma {:induction false} PlanPermitted(plan: Plan, s: seq<Artifact>, ours: Option<string>, ttl: real, included: seq<string>)
    requires IsPlan(plan, s, ours, ttl, included)
    ensures forall c :: c in plan.candidates ==> exists a :: a in s && Permitted(a, c, ours, ttl, included)
    ensures Sorted(plan.candidates, RankLe)
    ensures forall i, j :: 0 <= i < j < |plan.candidates| && plan.candidates[j].category.StoppedContainer? ==> plan.candidates[i].category.StoppedContainer?
    ensures forall i, j :: 0 <= i < j < |plan.candidates| && (plan.candidates[i].category.AnonymousVolume? || plan.candidates[i].category.NamedVolume?) ==>
              plan.candidates[j].category.AnonymousVolume? || plan.candidates[j].category.NamedVolume?
    ensures forall c :: c in plan.candidates ==> !c.category.BuildCache?
  {
    var all := Candidates(s, ours, ttl, Removes(ours, ttl, included));
    SortMembers(all, RankLe);
    RankTotal();
    SortSorted(all, RankLe);
    forall c | c in plan.candidates ensures exists a :: a in s && Permitted(a, c, ours, ttl, included) {
      CandidateOrigin(s, ours, ttl, Removes(ours, ttl, included), c);
      var a :| a in s && Removes(ours, ttl, included)(a) && c == CandidateOf(a, ours, ttl);
      OwnershipExact(a.labels, ours);
      assert Permitted(a, c, ours, ttl, included);
    }
    forall i, j | 0 <= i < j < |plan.candidates| && (plan.candidates[i].category.AnonymousVolume? || plan.candidates[i].category.NamedVolume?)
      ensures plan.candidates[j].category.AnonymousVolume? || plan.candidates[j].category.NamedVolume?
    {
      assert plan.candidates[j] in plan.candidates;
      assert RankLe(plan.candidates[i], plan.candidates[j]);
    }
  }

  lemma {:induction false} RankTotal()
    ensures Total(RankLe)
  {
  }
}
