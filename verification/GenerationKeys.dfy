/** The two keys made of a content digest and its external images, and what each of them identifies. */
module GenerationKeys {
  import opened Common
  import opened Lists
  import opened Order
  import opened Digest

  datatype External = External(reference: Text, platform: Option<Text>, identity: Option<Text>)

  // ------------------------------------------------------------------- image order

  /** `Ord for Option<String>`: an absent text comes first. */
  predicate OptionalLe(a: Option<Text>, b: Option<Text>) {
    a.None? || (b.Some? && BytesLe(a.value, b.value))
  }

  predicate KeyLe(a: External, b: External) {
    if a.reference != b.reference then BytesLe(a.reference, b.reference) else OptionalLe(a.platform, b.platform)
  }

  predicate FullLe(a: External, b: External) {
    if a.reference != b.reference then BytesLe(a.reference, b.reference)
    else if a.platform != b.platform then OptionalLe(a.platform, b.platform)
    else OptionalLe(a.identity, b.identity)
  }

  lemma {:induction false} OptionalConnected(a: Option<Text>, b: Option<Text>)
    ensures OptionalLe(a, b) || OptionalLe(b, a)
    ensures OptionalLe(a, b) && OptionalLe(b, a) ==> a == b
  {
    if a.Some? && b.Some? {
      BytesLeConnected(a.value, b.value);
    }
  }

  lemma {:induction false} OptionalTransitive(a: Option<Text>, b: Option<Text>, c: Option<Text>)
    requires OptionalLe(a, b) && OptionalLe(b, c)
    ensures OptionalLe(a, c)
  {
    if a.Some? {
      BytesLeTransitive(a.value, b.value, c.value);
    }
  }

  lemma {:induction false} KeyConnected(a: External, b: External)
    ensures KeyLe(a, b) || KeyLe(b, a)
    ensures KeyLe(a, b) && KeyLe(b, a) ==> a.reference == b.reference && a.platform == b.platform
  {
    BytesLeConnected(a.reference, b.reference);
    OptionalConnected(a.platform, b.platform);
  }

  lemma {:induction false} ReferenceTransitive(a: External, b: External, c: External)
    requires BytesLe(a.reference, b.reference) && BytesLe(b.reference, c.reference)
    ensures BytesLe(a.reference, c.reference)
    ensures a.reference == c.reference ==> a.reference == b.reference
  {
    BytesLeTransitive(a.reference, b.reference, c.reference);
    BytesLeConnected(a.reference, b.reference);
  }

  lemma {:induction false} KeyTransitive(a: External, b: External, c: External)
    requires KeyLe(a, b) && KeyLe(b, c)
    ensures KeyLe(a, c)
  {
    BytesLeConnected(a.reference, b.reference);
    BytesLeConnected(b.reference, c.reference);
    ReferenceTransitive(a, b, c);
    if a.reference == c.reference {
      OptionalTransitive(a.platform, b.platform, c.platform);
    }
  }

  lemma {:induction false} KeyTotal()
    ensures Total(KeyLe)
  {
    forall a: External, b: External ensures KeyLe(a, b) || KeyLe(b, a) {
      KeyConnected(a, b);
    }
    forall a: External, b: External, c: External | KeyLe(a, b) && KeyLe(b, c) ensures KeyLe(a, c) {
      KeyTransitive(a, b, c);
    }
  }

  lemma {:induction false} FullConnected(a: External, b: External)
    ensures FullLe(a, b) || FullLe(b, a)
    ensures FullLe(a, b) && FullLe(b, a) ==> a == b
  {
    BytesLeConnected(a.reference, b.reference);
    OptionalConnected(a.platform, b.platform);
    OptionalConnected(a.identity, b.identity);
  }

  lemma {:induction false} FullRefines(a: External, b: External)
    ensures FullLe(a, b) ==> KeyLe(a, b)
    ensures FullLe(a, b) && a.reference == b.reference && a.platform == b.platform ==> OptionalLe(a.identity, b.identity)
  {
    OptionalConnected(a.platform, b.platform);
  }

  lemma {:induction false} FullTransitive(a: External, b: External, c: External)
    requires FullLe(a, b) && FullLe(b, c)
    ensures FullLe(a, c)
  {
    FullRefines(a, b);
    FullRefines(b, c);
    KeyTransitive(a, b, c);
    if a.reference == c.reference && a.platform == c.platform {
      KeyConnected(b, c);
      OptionalTransitive(a.identity, b.identity, c.identity);
    }
  }

  lemma {:induction false} FullTotal()
    ensures Total(FullLe)
  {
    forall a: External, b: External ensures FullLe(a, b) || FullLe(b, a) {
      FullConnected(a, b);
    }
    forall a: External, b: External, c: External | FullLe(a, b) && FullLe(b, c) ensures FullLe(a, c) {
      FullTransitive(a, b, c);
    }
  }

  // ---------------------------------------------------- what a stream reads of an image

  /** The resolved stream: an absent platform reads as an empty one. */
  datatype Resolved = Resolved(reference: Text, platform: Text, identity: Text)

  /** The coalescing stream: likewise, but whether there is an identity is read too. */
  datatype Coalesced = Coalesced(reference: Text, platform: Text, identity: Option<Text>)

  function ReadResolved(i: External): Resolved {
    Resolved(i.reference, TextOr(i.platform), TextOr(i.identity))
  }

  function ReadCoalesced(i: External): Coalesced {
    Coalesced(i.reference, TextOr(i.platform), i.identity)
  }

  function ResolvedRecord(r: Resolved): Bytes {
    Field(r.reference) + Field(r.platform) + Field(r.identity)
  }

  function IdentityTag(i: Option<Text>): Blob {
    if i.Some? then Ascii("identity-present") else Ascii("identity-missing")
  }

  function IdentityText(i: Option<Text>): Blob {
    match i
    case Some(t) => t
    case None => Ascii("<unresolved>")
  }

  function CoalescedRecord(c: Coalesced): Bytes {
    Field(c.reference) + Field(c.platform) + Field(IdentityTag(c.identity)) + Field(IdentityText(c.identity))
  }

  lemma {:induction false} ResolvedCode()
    ensures Code(ResolvedRecord, Any)
    ensures forall r :: ResolvedRecord(r) != []
  {
    forall a: Resolved, b: Resolved, x: Bytes, y: Bytes ensures Fixed(ResolvedRecord, a, b, x, y) {
      if ResolvedRecord(a) + x == ResolvedRecord(b) + y {
        var p, q := Field(a.identity) + x, Field(b.identity) + y;
        assert ResolvedRecord(a) + x == Field(a.reference) + Field(a.platform) + p;
        assert ResolvedRecord(b) + y == Field(b.reference) + Field(b.platform) + q;
        TwoFix(a.reference, a.platform, p, b.reference, b.platform, q);
        FieldFixes(a.identity, b.identity, x, y);
      }
    }
  }

  /** The sentinel is never a resolved identity: presence is a field of its own. */
  lemma {:induction false} IdentityFixes(a: Option<Text>, b: Option<Text>)
    requires IdentityTag(a) == IdentityTag(b) && IdentityText(a) == IdentityText(b)
    ensures a == b
  {
    assert Ascii("identity-present")[9] == 112 && Ascii("identity-missing")[9] == 109;
  }

  lemma {:induction false} CoalescedCode()
    ensures Code(CoalescedRecord, Any)
    ensures forall c :: CoalescedRecord(c) != []
  {
    forall a: Coalesced, b: Coalesced, x: Bytes, y: Bytes ensures Fixed(CoalescedRecord, a, b, x, y) {
      if CoalescedRecord(a) + x == CoalescedRecord(b) + y {
        FourFix(a.reference, a.platform, IdentityTag(a.identity), IdentityText(a.identity), x,
                b.reference, b.platform, IdentityTag(b.identity), IdentityText(b.identity), y);
        IdentityFixes(a.identity, b.identity);
      }
    }
  }

  // ------------------------------------------------------------------- the streams

  const RESOLVED_TAG := "bosn-generation-resolved-v1"
  const COALESCING_TAG := "bosn-generation-coalescing-v1"

  function ResolvedReads(images: seq<External>): seq<Resolved> {
    Map(Sort(images, KeyLe), ReadResolved)
  }

  function CoalescedReads(images: seq<External>): seq<Coalesced> {
    Map(Sort(images, FullLe), ReadCoalesced)
  }

  /** The pre-image of the generation of a resolved build. */
  function ResolvedBytes(content: Text, images: seq<External>): Bytes {
    Field(Ascii(RESOLVED_TAG)) + (Field(content) + EncodeAll(ResolvedReads(images), ResolvedRecord))
  }

  /** The pre-image of the key under which builds are coalesced. */
  function CoalescingBytes(content: Text, images: seq<External>): Bytes {
    Field(Ascii(COALESCING_TAG)) + (Field(content) + EncodeAll(CoalescedReads(images), CoalescedRecord))
  }

  /** Neither stream writes a count, and still each fixes the content and everything it reads. */
  lemma {:induction false} ResolvedFixes(content: Text, a: seq<External>, other: Text, b: seq<External>)
    ensures ResolvedBytes(content, a) == ResolvedBytes(other, b) <==> content == other && ResolvedReads(a) == ResolvedReads(b)
  {
    if ResolvedBytes(content, a) == ResolvedBytes(other, b) {
      var x, y := EncodeAll(ResolvedReads(a), ResolvedRecord), EncodeAll(ResolvedReads(b), ResolvedRecord);
      FieldFixes(Ascii(RESOLVED_TAG), Ascii(RESOLVED_TAG), Field(content) + x, Field(other) + y);
      FieldFixes(content, other, x, y);
      ResolvedCode();
      RestFixes(ResolvedReads(a), ResolvedReads(b), ResolvedRecord, Any);
    }
  }

  lemma {:induction false} CoalescingFixes(content: Text, a: seq<External>, other: Text, b: seq<External>)
    ensures CoalescingBytes(content, a) == CoalescingBytes(other, b) <==> content == other && CoalescedReads(a) == CoalescedReads(b)
  {
    if CoalescingBytes(content, a) == CoalescingBytes(other, b) {
      var x, y := EncodeAll(CoalescedReads(a), CoalescedRecord), EncodeAll(CoalescedReads(b), CoalescedRecord);
      FieldFixes(Ascii(COALESCING_TAG), Ascii(COALESCING_TAG), Field(content) + x, Field(other) + y);
      FieldFixes(content, other, x, y);
      CoalescedCode();
      RestFixes(CoalescedReads(a), CoalescedReads(b), CoalescedRecord, Any);
    }
  }

  /** No key of one kind is a key of another kind or a content digest. */
  lemma {:induction false} KindsApart(content: Text, a: seq<External>, other: Text, b: seq<External>, s: Stack, entries: seq<ContextEntry>)
    ensures ResolvedBytes(content, a) != CoalescingBytes(other, b)
    ensures ContentBytes(s, entries) != ResolvedBytes(content, a) && ContentBytes(s, entries) != CoalescingBytes(other, b)
  {
    var r, c, d := Ascii(RESOLVED_TAG), Ascii(COALESCING_TAG), Ascii("bosn-generation-content-v1");
    assert |r| == 27 && |c| == 29 && |d| == 26;
    var x := Field(content) + EncodeAll(ResolvedReads(a), ResolvedRecord);
    var y := Field(other) + EncodeAll(CoalescedReads(b), CoalescedRecord);
    var z := StackBytes(View(s), EncodeAll(Sort(entries, EntryLe), EntryBytes));
    TagsApart(r, x, c, y);
    TagsApart(d, z, r, x);
    TagsApart(d, z, c, y);
  }

  lemma {:induction false} TagsApart(tag: Blob, x: Bytes, other: Blob, y: Bytes)
    requires |tag| != |other|
    ensures Field(tag) + x != Field(other) + y
  {
    if Field(tag) + x == Field(other) + y {
      FieldFixes(tag, other, x, y);
    }
  }

  // ------------------------------------------------------ which images a stream fixes

  /** No image states an empty platform; the resolver refuses such a request. */
  ghost predicate PlatformsStated(images: seq<External>) {
    forall i :: i in images ==> i.platform != Some([])
  }

  ghost predicate AllIdentified(images: seq<External>) {
    forall i :: i in images ==> i.identity.Some?
  }

  /** What sorting and comparing neighbours leaves: every image once. */
  ghost predicate OneEach(images: seq<External>) {
    forall i, j :: 0 <= i < j < |images| ==>
      images[i].reference != images[j].reference || images[i].platform != images[j].platform
  }

  lemma {:induction false} SameReads<A, B>(a: seq<A>, b: seq<A>, f: A -> B)
    requires Map(a, f) == Map(b, f)
    requires forall x, y :: x in a && y in b && f(x) == f(y) ==> x == y
    ensures a == b
  {
    assert |a| == |Map(a, f)| && |b| == |Map(b, f)|;
    forall i | 0 <= i < |a| ensures a[i] == b[i] {
      assert Map(a, f)[i] == f(a[i]) && Map(b, f)[i] == f(b[i]);
    }
  }

  lemma {:induction false} SameSortedResolved(a: seq<External>, b: seq<External>)
    requires PlatformsStated(a) && PlatformsStated(b) && AllIdentified(a) && AllIdentified(b)
    requires ResolvedReads(a) == ResolvedReads(b)
    ensures Sort(a, KeyLe) == Sort(b, KeyLe)
  {
    SortMembers(a, KeyLe);
    SortMembers(b, KeyLe);
    SameReads(Sort(a, KeyLe), Sort(b, KeyLe), ReadResolved);
  }

  /** Resolved keys agree exactly when the contents and the resolved images agree. */
  lemma {:induction false} ResolvedExact(content: Text, a: seq<External>, other: Text, b: seq<External>)
    requires PlatformsStated(a) && PlatformsStated(b) && AllIdentified(a) && AllIdentified(b) && OneEach(a) && OneEach(b)
    ensures ResolvedBytes(content, a) == ResolvedBytes(other, b) <==> content == other && forall i :: i in a <==> i in b
  {
    ResolvedFixes(content, a, other, b);
    if ResolvedReads(a) == ResolvedReads(b) {
      SameSortedResolved(a, b);
      SortMembers(a, KeyLe);
      SortMembers(b, KeyLe);
      forall i ensures i in a <==> i in b {
        assert i in a ==> i in Sort(a, KeyLe);
        assert i in b ==> i in Sort(b, KeyLe);
      }
    }
    if forall i :: i in a <==> i in b {
      OrderForgotten(a, b);
    }
  }

  lemma {:induction false} OrderForgotten(a: seq<External>, b: seq<External>)
    requires OneEach(a) && OneEach(b) && forall i :: i in a <==> i in b
    ensures Sort(a, KeyLe) == Sort(b, KeyLe)
  {
    KeyTotal();
    assert NoDup(a) && NoDup(b);
    forall x, y | x in a && y in a && KeyLe(x, y) && KeyLe(y, x) ensures x == y {
      KeyConnected(x, y);
      var i :| 0 <= i < |a| && a[i] == x;
      var j :| 0 <= j < |a| && a[j] == y;
    }
    SortForgets(a, b, KeyLe);
  }

  /** Coalescing keys agree exactly when the contents and the images agree, repeats and unresolved ones included. */
  lemma {:induction false} CoalescingExact(content: Text, a: seq<External>, other: Text, b: seq<External>)
    requires PlatformsStated(a) && PlatformsStated(b)
    ensures CoalescingBytes(content, a) == CoalescingBytes(other, b) <==> content == other && multiset(a) == multiset(b)
  {
    CoalescingFixes(content, a, other, b);
    SortMultiset(a, FullLe);
    SortMultiset(b, FullLe);
    if CoalescedReads(a) == CoalescedReads(b) {
      SortMembers(a, FullLe);
      SortMembers(b, FullLe);
      SameReads(Sort(a, FullLe), Sort(b, FullLe), ReadCoalesced);
    }
    if multiset(a) == multiset(b) {
      RepeatsKept(a, b);
    }
  }

  lemma {:induction false} RepeatsKept(a: seq<External>, b: seq<External>)
    requires multiset(a) == multiset(b)
    ensures Sort(a, FullLe) == Sort(b, FullLe)
  {
    FullTotal();
    SortMultiset(a, FullLe);
    SortMultiset(b, FullLe);
    SortSorted(a, FullLe);
    SortSorted(b, FullLe);
    forall x, y | x in Sort(a, FullLe) && y in Sort(a, FullLe) && FullLe(x, y) && FullLe(y, x) ensures x == y {
      FullConnected(x, y);
    }
    SortedUnique(Sort(a, FullLe), Sort(b, FullLe), FullLe);
  }

  /** The condition is needed: an empty platform and an absent one make the same keys. */
  lemma {:induction false} EmptyPlatformCollides(content: Text, reference: Text, identity: Option<Text>)
    ensures var absent, empty := External(reference, None, identity), External(reference, Some([]), identity);
            && absent != empty
            && ResolvedBytes(content, [absent]) == ResolvedBytes(content, [empty])
            && CoalescingBytes(content, [absent]) == CoalescingBytes(content, [empty])
  {
    var absent, empty := External(reference, None, identity), External(reference, Some([]), identity);
    OneSorted(absent, KeyLe);
    OneSorted(empty, KeyLe);
    OneSorted(absent, FullLe);
    OneSorted(empty, FullLe);
    assert ResolvedReads([absent]) == ResolvedReads([empty]);
    assert CoalescedReads([absent]) == CoalescedReads([empty]);
  }

  lemma {:induction false} OneSorted<T>(x: T, le: (T, T) -> bool)
    ensures Sort([x], le) == [x]
  {
    assert [x][1..] == [];
    assert Sort([], le) == [];
  }

  // ------------------------------------------------------------ appending to the hasher

  method AppendResolved(h: Bytes, i: External) returns (out: Bytes)
    requires i.identity.Some?
    ensures out == h + ResolvedRecord(ReadResolved(i))
  {
    var a, b, c := Field(i.reference), Field(TextOr(i.platform)), Field(i.identity.value);
    out := h + a + b + c;
    Regroup(h, a, b, c, [], []);
    assert c + ([] + []) == c && a + (b + c) == a + b + c;
  }

  method AppendEachResolved(h: Bytes, sorted: seq<External>, ghost taken: seq<Resolved>) returns (r: Result<Bytes, External>)
    requires |taken| == |sorted| && forall i :: 0 <= i < |sorted| ==> taken[i] == ReadResolved(sorted[i])
    ensures r.Ok? <==> AllIdentified(sorted)
    ensures r.Ok? ==> r.value == h + EncodeAll(taken, ResolvedRecord)
    ensures r.Err? ==> r.error in sorted && r.error.identity.None?
  {
    var out := h;
    for i := 0 to |sorted|
      invariant out == h + EncodeAll(taken[..i], ResolvedRecord)
      invariant forall k :: 0 <= k < i ==> sorted[k].identity.Some?
    {
      assert sorted[i] in sorted;
      if sorted[i].identity.None? {
        return Err(sorted[i]);
      }
      ghost var before := out;
      out := AppendResolved(out, sorted[i]);
      Grown(h, taken, i, ResolvedRecord, before, out);
    }
    assert taken[..|sorted|] == taken;
    r := Ok(out);
  }

  /** `resolved_generation` up to the final hash: refused exactly for an image without an identity. */
  method ResolvedStream(content: Text, images: seq<External>) returns (r: Result<Bytes, External>)
    ensures r.Ok? <==> AllIdentified(images)
    ensures r.Ok? ==> r.value == ResolvedBytes(content, images)
    ensures r.Err? ==> r.error in images && r.error.identity.None?
  {
    SortMembers(images, KeyLe);
    TagThenContent(Ascii(RESOLVED_TAG), content, EncodeAll(ResolvedReads(images), ResolvedRecord));
    r := AppendEachResolved(Field(Ascii(RESOLVED_TAG)) + Field(content), Sort(images, KeyLe), ResolvedReads(images));
  }

  lemma {:induction false} TagThenContent(tag: Blob, content: Text, rest: Bytes)
    ensures Field(tag) + Field(content) + rest == Field(tag) + (Field(content) + rest)
  {
  }

  method AppendCoalesced(h: Bytes, i: External) returns (out: Bytes)
    ensures out == h + CoalescedRecord(ReadCoalesced(i))
  {
    var tag := if i.identity.Some? then Ascii("identity-present") else Ascii("identity-missing");
    var text: Blob := match i.identity { case Some(t) => t case None => Ascii("<unresolved>") };
    var a, b, c, d := Field(i.reference), Field(TextOr(i.platform)), Field(tag), Field(text);
    out := h + a + b + c + d;
    Regroup(h, a, b, c, d, []);
    Regroup([], a, b, c, d, []);
    assert a + (b + (c + (d + []))) == a + b + c + d;
  }

  method AppendEachCoalesced(h: Bytes, sorted: seq<External>, ghost taken: seq<Coalesced>) returns (out: Bytes)
    requires |taken| == |sorted| && forall i :: 0 <= i < |sorted| ==> taken[i] == ReadCoalesced(sorted[i])
    ensures out == h + EncodeAll(taken, CoalescedRecord)
  {
    out := h;
    for i := 0 to |sorted|
      invariant out == h + EncodeAll(taken[..i], CoalescedRecord)
    {
      ghost var before := out;
      out := AppendCoalesced(out, sorted[i]);
      Grown(h, taken, i, CoalescedRecord, before, out);
    }
    assert taken[..|sorted|] == taken;
  }

  /** `coalescing_generation` up to the final hash: every list of images has a key. */
  method CoalescingStream(content: Text, images: seq<External>) returns (out: Bytes)
    ensures out == CoalescingBytes(content, images)
  {
    TagThenContent(Ascii(COALESCING_TAG), content, EncodeAll(CoalescedReads(images), CoalescedRecord));
    out := AppendEachCoalesced(Field(Ascii(COALESCING_TAG)) + Field(content), Sort(images, FullLe), CoalescedReads(images));
  }
}
