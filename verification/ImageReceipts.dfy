/** Accepting resolver receipts against the images a build requires. */
module ImageReceipts {
  import opened Common
  import opened Lists
  import opened Order
  import opened Resolver

  datatype ReceiptProblem =
    | Duplicate(image: Key) | BlankReference(image: Key) | InvalidIdentity(image: Key) | NoIdentity(image: Key)
    | NotObserved(image: Key) | Unexpected(image: Key)

  // ------------------------------------------------------------------- image order

  predicate PlatformLe(a: Option<string>, b: Option<string>) {
    a.None? || (b.Some? && StrLe(a.value, b.value))
  }

  predicate ImageLe(a: Image, b: Image) {
    if a.reference != b.reference then StrLe(a.reference, b.reference) else PlatformLe(a.platform, b.platform)
  }

  lemma {:induction false} ImageLeSeparates(a: Image, b: Image)
    ensures ImageLe(a, b) || ImageLe(b, a)
    ensures ImageLe(a, b) && ImageLe(b, a) ==> KeyOf(a) == KeyOf(b)
  {
    StrLeConnected(a.reference, b.reference);
    if a.platform.Some? && b.platform.Some? {
      StrLeConnected(a.platform.value, b.platform.value);
    }
  }

  lemma {:induction false} ImageLeTransitive(a: Image, b: Image, c: Image)
    requires ImageLe(a, b) && ImageLe(b, c)
    ensures ImageLe(a, c)
  {
    StrLeConnected(a.reference, b.reference);
    if StrLe(a.reference, b.reference) && StrLe(b.reference, c.reference) {
      StrLeTransitive(a.reference, b.reference, c.reference);
    }
    if a.platform.Some? && b.platform.Some? && c.platform.Some? && StrLe(a.platform.value, b.platform.value) && StrLe(b.platform.value, c.platform.value) {
      StrLeTransitive(a.platform.value, b.platform.value, c.platform.value);
    }
  }

  lemma {:induction false} ImageLeTotal()
    ensures Total(ImageLe)
  {
    forall a: Image, b: Image ensures ImageLe(a, b) || ImageLe(b, a) {
      ImageLeSeparates(a, b);
    }
    forall a: Image, b: Image, c: Image | ImageLe(a, b) && ImageLe(b, c) ensures ImageLe(a, c) {
      ImageLeTransitive(a, b, c);
    }
  }

  ghost predicate AdjacentDiffer(s: seq<Image>) {
    forall i :: 0 <= i < |s| - 1 ==> KeyOf(s[i]) != KeyOf(s[i + 1])
  }

  /** Canonical order: by reference, and for one reference by platform, an unstated one first. */
  lemma {:induction false} ReceiptsInOrder(images: seq<Image>, i: nat, j: nat)
    requires i < j < |images|
    ensures var sorted := Sort(images, ImageLe);
            && |sorted| == |images| && multiset(sorted) == multiset(images)
            && StrLe(sorted[i].reference, sorted[j].reference)
            && (sorted[i].reference == sorted[j].reference && sorted[i].platform.Some? ==>
                  sorted[j].platform.Some? && StrLe(sorted[i].platform.value, sorted[j].platform.value))
  {
    ImageLeTotal();
    SortSorted(images, ImageLe);
    SortMultiset(images, ImageLe);
    var sorted := Sort(images, ImageLe);
    assert ImageLe(sorted[i], sorted[j]);
    StrLeConnected(sorted[i].reference, sorted[j].reference);
  }

  /** In a sorted list, comparing neighbours is enough to find every repeat. */
  lemma {:induction false} NeighboursSuffice(s: seq<Image>)
    requires Sorted(s, ImageLe) && AdjacentDiffer(s)
    ensures NoDup(Keys(s))
  {
    var keys := Keys(s);
    forall i, j | 0 <= i < j < |keys| ensures keys[i] != keys[j] {
      assert KeyOf(s[i]) != KeyOf(s[i + 1]);
      if i + 1 < j && KeyOf(s[i]) == KeyOf(s[j]) {
        assert ImageLe(s[i], s[i + 1]) && ImageLe(s[i + 1], s[j]);
        KeyDecides(s[i + 1], s[j], s[i]);
        ImageLeSeparates(s[i], s[i + 1]);
      }
    }
  }

  lemma {:induction false} KeyDecides(a: Image, b: Image, c: Image)
    requires ImageLe(a, b) && KeyOf(b) == KeyOf(c)
    ensures ImageLe(a, c)
  {
  }

  lemma {:induction false} SortKeys(images: seq<Image>)
    ensures NoDup(Keys(Sort(images, ImageLe))) <==> NoDup(Keys(images))
    ensures forall k :: k in Keys(Sort(images, ImageLe)) <==> k in Keys(images)
  {
    var sorted := Sort(images, ImageLe);
    SortMultiset(images, ImageLe);
    MapBag(sorted, images, KeyOf);
    DistinctBag(Keys(sorted), Keys(images));
    DistinctBag(Keys(images), Keys(sorted));
    forall k ensures k in Keys(sorted) <==> k in Keys(images) {
      assert k in Keys(sorted) <==> k in multiset(Keys(sorted));
      assert k in Keys(images) <==> k in multiset(Keys(images));
    }
  }

  lemma {:induction false} DistinctBag(a: seq<Key>, b: seq<Key>)
    requires multiset(a) == multiset(b)
    ensures NoDup(a) ==> NoDup(b)
  {
    if NoDup(a) {
      NoDupMultiset(a);
      NoDupFromMultiset(b);
    }
  }

  // ------------------------------------------------------------------ canonical lists

  /** A reference that says something, and an identity that is a digest where there is one. */
  predicate WellFormed(i: Image) {
    !Blank(i.reference) && (i.identity.Some? ==> ValidDigest(i.identity.value))
  }

  ghost predicate AllWellFormed(images: seq<Image>) {
    forall i :: 0 <= i < |images| ==> WellFormed(images[i])
  }

  ghost predicate AllIdentified(images: seq<Image>) {
    forall i :: 0 <= i < |images| ==> images[i].identity.Some?
  }

  lemma {:induction false} SortKeepsAll(images: seq<Image>)
    ensures AllWellFormed(Sort(images, ImageLe)) <==> AllWellFormed(images)
    ensures AllIdentified(Sort(images, ImageLe)) <==> AllIdentified(images)
  {
    var sorted := Sort(images, ImageLe);
    SortMembers(images, ImageLe);
    assert forall i :: 0 <= i < |sorted| ==> sorted[i] in images;
    assert forall i :: 0 <= i < |images| ==> images[i] in sorted;
  }

  /** The problem is one these images have. */
  ghost predicate Faulty(images: seq<Image>, p: ReceiptProblem) {
    match p
    case Duplicate(k) => multiset(Keys(images))[k] > 1
    case BlankReference(k) => exists i :: i in images && KeyOf(i) == k && Blank(i.reference)
    case InvalidIdentity(k) => exists i :: i in images && KeyOf(i) == k && i.identity.Some? && !ValidDigest(i.identity.value)
    case NoIdentity(k) => exists i :: i in images && KeyOf(i) == k && i.identity.None?
    case _ => false
  }

  lemma {:induction false} FaultySorted(images: seq<Image>, p: ReceiptProblem)
    requires Faulty(Sort(images, ImageLe), p)
    ensures Faulty(images, p)
  {
    SortMultiset(images, ImageLe);
    SortMembers(images, ImageLe);
    MapBag(Sort(images, ImageLe), images, KeyOf);
  }

  lemma {:induction false} TwiceFaulty(keys: seq<Key>, i: nat)
    requires i + 1 < |keys| && keys[i] == keys[i + 1]
    ensures multiset(keys)[keys[i]] > 1
  {
    assert keys == keys[..i] + [keys[i], keys[i + 1]] + keys[i + 2..];
    assert multiset([keys[i], keys[i + 1]])[keys[i]] == 2;
  }

  function CheckImage(i: Image): Option<ReceiptProblem> {
    if Blank(i.reference) then Some(BlankReference(KeyOf(i)))
    else if i.identity.Some? && !ValidDigest(i.identity.value) then Some(InvalidIdentity(KeyOf(i)))
    else None
  }

  method FindRepeat(sorted: seq<Image>) returns (p: Option<ReceiptProblem>)
    requires Sorted(sorted, ImageLe)
    ensures p.None? <==> NoDup(Keys(sorted))
    ensures p.Some? ==> Faulty(sorted, p.value)
  {
    var i := 0;
    while i + 1 < |sorted|
      invariant i == 0 || 0 < i < |sorted|
      invariant forall k :: 0 <= k < i ==> KeyOf(sorted[k]) != KeyOf(sorted[k + 1])
    {
      if KeyOf(sorted[i]) == KeyOf(sorted[i + 1]) {
        assert Keys(sorted)[i] == Keys(sorted)[i + 1];
        TwiceFaulty(Keys(sorted), i);
        return Some(Duplicate(KeyOf(sorted[i])));
      }
      i := i + 1;
    }
    assert AdjacentDiffer(sorted);
    NeighboursSuffice(sorted);
    p := None;
  }

  method FirstUnproven(sorted: seq<Image>) returns (p: Option<ReceiptProblem>)
    ensures p.None? <==> AllWellFormed(sorted) && AllIdentified(sorted)
    ensures p.Some? ==> Faulty(sorted, p.value)
  {
    for i := 0 to |sorted|
      invariant forall k :: 0 <= k < i ==> WellFormed(sorted[k]) && sorted[k].identity.Some?
    {
      p := CheckImage(sorted[i]);
      if p.Some? {
        return;
      }
      if sorted[i].identity.None? {
        return Some(NoIdentity(KeyOf(sorted[i])));
      }
    }
    p := None;
  }

  /** `canonical_images` with identities required: sorted, distinct, well formed and identified. */
  method CanonicalObserved(images: seq<Image>) returns (r: Result<seq<Image>, ReceiptProblem>)
    ensures r.Ok? <==> NoDup(Keys(images)) && AllWellFormed(images) && AllIdentified(images)
    ensures r.Ok? ==> r.value == Sort(images, ImageLe)
    ensures r.Err? ==> Faulty(images, r.error)
  {
    var sorted := Sort(images, ImageLe);
    ImageLeTotal();
    SortSorted(images, ImageLe);
    SortKeys(images);
    SortKeepsAll(images);
    var repeated := FindRepeat(sorted);
    if repeated.Some? {
      FaultySorted(images, repeated.value);
      return Err(repeated.value);
    }
    var p := FirstUnproven(sorted);
    if p.Some? {
      FaultySorted(images, p.value);
      return Err(p.value);
    }
    r := Ok(sorted);
  }

  method FirstMalformed(sorted: seq<Image>) returns (p: Option<ReceiptProblem>)
    ensures p.None? <==> AllWellFormed(sorted)
    ensures p.Some? ==> Faulty(sorted, p.value)
  {
    for i := 0 to |sorted|
      invariant forall k :: 0 <= k < i ==> WellFormed(sorted[k])
    {
      p := CheckImage(sorted[i]);
      if p.Some? {
        return;
      }
    }
    p := None;
  }

  /** `canonical_required_images`: sorted and well formed, with repeats dropped. */
  method CanonicalRequired(images: seq<Image>) returns (r: Result<seq<Image>, ReceiptProblem>)
    ensures r.Ok? <==> AllWellFormed(images)
    ensures r.Ok? ==> forall k :: k in Keys(r.value) <==> k in Keys(images)
    ensures r.Ok? ==> Sorted(r.value, ImageLe) && NoDup(Keys(r.value)) && forall i :: i in r.value ==> i in images
    ensures r.Err? ==> Faulty(images, r.error)
  {
    var sorted := Sort(images, ImageLe);
    ImageLeTotal();
    SortSorted(images, ImageLe);
    SortMembers(images, ImageLe);
    SortKeys(images);
    SortKeepsAll(images);
    var p := FirstMalformed(sorted);
    if p.Some? {
      FaultySorted(images, p.value);
      return Err(p.value);
    }
    var kept := DropRepeats(sorted);
    NeighboursSuffice(kept);
    assert forall k :: k in Keys(kept) <==> k in KeySet(kept);
    assert forall k :: k in Keys(sorted) <==> k in KeySet(sorted);
    r := Ok(kept);
  }

  ghost function KeySet(images: seq<Image>): set<Key> {
    set k | k in Keys(images)
  }

  lemma {:induction false} KeySetAppend(images: seq<Image>, i: Image)
    ensures KeySet(images + [i]) == KeySet(images) + {KeyOf(i)}
  {
    MapConcat(images, [i], KeyOf);
    assert Map([i], KeyOf) == [KeyOf(i)];
  }

  lemma {:induction false} LastKeyHeld(images: seq<Image>)
    requires images != []
    ensures KeyOf(images[|images| - 1]) in KeySet(images)
  {
    assert Keys(images)[|images| - 1] == KeyOf(images[|images| - 1]);
  }

  /** A selection from the first `i` images, in order and without neighbours alike. */
  ghost predicate KeptFrom(sorted: seq<Image>, i: nat, kept: seq<Image>)
    requires i <= |sorted|
  {
    Sorted(kept, ImageLe) && AdjacentDiffer(kept) && forall x :: x in kept ==> x in sorted[..i]
  }

  lemma {:induction false} KeptStays(sorted: seq<Image>, i: nat, kept: seq<Image>)
    requires i < |sorted| && KeptFrom(sorted, i, kept)
    ensures KeptFrom(sorted, i + 1, kept)
  {
    assert sorted[..i + 1] == sorted[..i] + [sorted[i]];
  }

  lemma {:induction false} KeptGrows(sorted: seq<Image>, i: nat, kept: seq<Image>)
    requires i < |sorted| && Sorted(sorted, ImageLe) && KeptFrom(sorted, i, kept)
    requires kept == [] || KeyOf(kept[|kept| - 1]) != KeyOf(sorted[i])
    ensures KeptFrom(sorted, i + 1, kept + [sorted[i]])
  {
    KeptStays(sorted, i, kept);
    var grown := kept + [sorted[i]];
    forall a, b | 0 <= a < b < |grown| ensures ImageLe(grown[a], grown[b]) {
      if b == |kept| {
        assert kept[a] in sorted[..i];
        var n :| 0 <= n < i && sorted[n] == kept[a];
        assert ImageLe(sorted[n], sorted[i]);
      }
    }
  }

  /** Keep the first of each run of the same image. */
  method DropRepeats(sorted: seq<Image>) returns (kept: seq<Image>)
    requires Sorted(sorted, ImageLe)
    ensures KeySet(kept) == KeySet(sorted)
    ensures Sorted(kept, ImageLe) && AdjacentDiffer(kept) && forall x :: x in kept ==> x in sorted
  {
    kept := [];
    for i := 0 to |sorted|
      invariant KeySet(kept) == KeySet(sorted[..i])
      invariant KeptFrom(sorted, i, kept)
    {
      assert sorted[..i + 1] == sorted[..i] + [sorted[i]];
      KeySetAppend(sorted[..i], sorted[i]);
      if kept == [] || KeyOf(kept[|kept| - 1]) != KeyOf(sorted[i]) {
        KeySetAppend(kept, sorted[i]);
        KeptGrows(sorted, i, kept);
        kept := kept + [sorted[i]];
      } else {
        LastKeyHeld(kept);
        KeptStays(sorted, i, kept);
      }
    }
    assert sorted[..|sorted|] == sorted;
  }

  // ---------------------------------------------------------------------- acceptance

  ghost predicate Acceptable(required: seq<Image>, observed: seq<Image>) {
    && AllWellFormed(required)
    && NoDup(Keys(observed)) && AllWellFormed(observed) && AllIdentified(observed)
    && forall k :: k in Keys(required) <==> k in Keys(observed)
  }

  /** The reason for a refusal is there to see in the requirements or in the observations. */
  ghost predicate Explains(p: ReceiptProblem, required: seq<Image>, observed: seq<Image>) {
    match p
    case NotObserved(k) => k in Keys(required) && k !in Keys(observed)
    case Unexpected(k) => k in Keys(observed) && k !in Keys(required)
    case _ => Faulty(required, p) || Faulty(observed, p)
  }

  method FirstOutside(images: seq<Image>, keys: seq<Key>) returns (k: Option<Key>)
    ensures k.Some? ==> k.value in Keys(images) && k.value !in keys
    ensures k.None? <==> forall x :: x in Keys(images) ==> x in keys
  {
    for i := 0 to |images|
      invariant forall n :: 0 <= n < i ==> KeyOf(images[n]) in keys
    {
      if KeyOf(images[i]) !in keys {
        assert Keys(images)[i] == KeyOf(images[i]);
        return Some(KeyOf(images[i]));
      }
    }
    forall x | x in Keys(images) ensures x in keys {
      var n :| 0 <= n < |images| && Keys(images)[n] == x;
    }
    k := None;
  }

  /** `validate_resolved_images`: the observations cover exactly the requirements, each once and identified. */
  method ValidateResolved(required: seq<Image>, observed: seq<Image>) returns (r: Result<seq<Image>, ReceiptProblem>)
    ensures r.Ok? <==> Acceptable(required, observed)
    ensures r.Ok? ==> r.value == Sort(observed, ImageLe)
    ensures r.Err? ==> Explains(r.error, required, observed)
  {
    var needed := CanonicalRequired(required);
    if needed.Err? {
      return Err(needed.error);
    }
    var seen := CanonicalObserved(observed);
    if seen.Err? {
      return Err(seen.error);
    }
    SortKeys(observed);
    var missing := FirstOutside(needed.value, Keys(seen.value));
    if missing.Some? {
      return Err(NotObserved(missing.value));
    }
    var extra := FirstOutside(seen.value, Keys(needed.value));
    if extra.Some? {
      return Err(Unexpected(extra.value));
    }
    r := Ok(seen.value);
  }

  lemma {:induction false} SameKeyForm(required: seq<Image>, out: seq<Image>)
    requires AllWellFormed(required) && forall k :: k in Keys(out) ==> k in Keys(required)
    ensures forall i :: 0 <= i < |out| ==> !Blank(out[i].reference)
  {
    forall i | 0 <= i < |out| ensures !Blank(out[i].reference) {
      assert Keys(out)[i] == KeyOf(out[i]);
      assert KeyOf(out[i]) in Keys(required);
      var n :| 0 <= n < |required| && Keys(required)[n] == KeyOf(out[i]);
      assert WellFormed(required[n]);
    }
  }

  /**
   * Whatever the engine did, a successful resolution is accepted exactly when the requirements are
   * well formed and every receipt has an identity; pulling guarantees the latter.
   */
  lemma {:induction false} ResolutionAccepted(e: Engine, s: Session, required: seq<Image>, out: seq<Image>, policy: Policy)
    requires Receipts(e, s, required, out, policy)
    ensures Acceptable(required, out) <==> AllWellFormed(required) && AllIdentified(out)
    ensures policy.PullIfMissing? ==> (Acceptable(required, out) <==> AllWellFormed(required))
    ensures NoDup(Keys(out))
  {
    FirstsDistinct(Keys(required));
    forall i | 0 <= i < |out| ensures out[i].identity.Some? ==> ValidDigest(out[i].identity.value) {
      assert Sound(e, s, out[i], policy);
    }
    if policy.PullIfMissing? {
      assert AllIdentified(out) by {
        forall i | 0 <= i < |out| ensures out[i].identity.Some? {
          assert Sound(e, s, out[i], policy);
        }
      }
    }
    if AllWellFormed(required) {
      SameKeyForm(required, out);
    }
  }

  /** Resolution with pulls, then validation: well-formed requirements that resolve are never turned away. */
  method ResolveForBuild(replies: nat -> Reply, inTime: nat -> bool, required: seq<Image>, limit: nat, cancelled: bool)
    returns (resolved: Result<seq<Image>, Problem>, accepted: bool)
    ensures resolved.Ok? ==> (accepted <==> AllWellFormed(required))
    ensures resolved.Ok? ==> Keys(resolved.value) == Firsts(Keys(required))
  {
    var session;
    resolved, session := ResolveImages(Docker(replies, inTime), required, PullIfMissing, limit, cancelled);
    accepted := false;
    if resolved.Ok? {
      ResolutionAccepted(Docker(replies, inTime), session, required, resolved.value, PullIfMissing);
      var validated := ValidateResolved(required, resolved.value);
      accepted := validated.Ok?;
    }
  }
}
