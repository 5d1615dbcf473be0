/** The byte stream behind a content digest: framing, stack fields and context records. */
module Digest {
  import opened Common
  import opened Order
  import Lists
  import MatrixJson

  type byte = x: int | 0 <= x < 256

  const U64 := 0x1_0000_0000_0000_0000

  type Bytes = seq<byte>

  /** Bytes of a value in memory: a length always fits the eight bytes that frame it. */
  type Blob = b: Bytes | |b| < U64

  /** Rust text: no allocation is longer than `isize::MAX`. */
  type Text = b: Bytes | |b| < 0x8000_0000_0000_0000

  type Word = n: nat | n < U64

  // ------------------------------------------------------------- prefix codes

  /** No code word of an acceptable value continues into another, whatever follows. */
  ghost predicate Code<T(!new)>(enc: T -> Bytes, ok: T -> bool) {
    forall a, b, x: Bytes, y: Bytes | ok(a) && ok(b) :: Fixed(enc, a, b, x, y)
  }

  predicate Any<T>(t: T) {
    true
  }

  ghost predicate AllOk<T>(s: seq<T>, ok: T -> bool) {
    forall i :: 0 <= i < |s| ==> ok(s[i])
  }

  ghost predicate Fixed<T>(enc: T -> Bytes, a: T, b: T, x: Bytes, y: Bytes) {
    enc(a) + x == enc(b) + y ==> a == b && x == y
  }

  function EncodeAll<T>(s: seq<T>, enc: T -> Bytes): Bytes {
    if s == [] then [] else enc(s[0]) + EncodeAll(s[1..], enc)
  }

  /** Lists of one length are told apart. */
  lemma {:induction false} AllFixes<T(!new)>(a: seq<T>, b: seq<T>, enc: T -> Bytes, ok: T -> bool, x: Bytes, y: Bytes)
    requires Code(enc, ok) && AllOk(a, ok) && AllOk(b, ok) && |a| == |b| && EncodeAll(a, enc) + x == EncodeAll(b, enc) + y
    ensures a == b && x == y
  {
    if a != [] {
      var p, q := EncodeAll(a[1..], enc) + x, EncodeAll(b[1..], enc) + y;
      assert EncodeAll(a, enc) + x == enc(a[0]) + p;
      assert EncodeAll(b, enc) + y == enc(b[0]) + q;
      assert Fixed(enc, a[0], b[0], p, q);
      AllFixes(a[1..], b[1..], enc, ok, x, y);
      assert a == [a[0]] + a[1..] && b == [b[0]] + b[1..];
    } else {
      assert x == EncodeAll(a, enc) + x && y == EncodeAll(b, enc) + y;
    }
  }

  /** Lists that run to the end of the stream are told apart without a count. */
  lemma {:induction false} RestFixes<T(!new)>(a: seq<T>, b: seq<T>, enc: T -> Bytes, ok: T -> bool)
    requires Code(enc, ok) && AllOk(a, ok) && AllOk(b, ok) && (forall t :: enc(t) != []) && EncodeAll(a, enc) == EncodeAll(b, enc)
    ensures a == b
  {
    if a != [] && b != [] {
      assert Fixed(enc, a[0], b[0], EncodeAll(a[1..], enc), EncodeAll(b[1..], enc));
      RestFixes(a[1..], b[1..], enc, ok);
      assert a == [a[0]] + a[1..] && b == [b[0]] + b[1..];
    }
  }

  // ------------------------------------------------------------------ framing

  function Pow256(k: nat): nat {
    if k == 0 then 1 else 256 * Pow256(k - 1)
  }

  function BigEndian(n: nat, k: nat): (b: Bytes)
    ensures |b| == k
  {
    if k == 0 then [] else BigEndian(n / 256, k - 1) + [n % 256]
  }

  lemma {:induction false} BigEndianFixes(n: nat, m: nat, k: nat)
    requires n < Pow256(k) && m < Pow256(k) && BigEndian(n, k) == BigEndian(m, k)
    ensures n == m
  {
    if k > 0 {
      var b := BigEndian(n, k);
      assert b[..k - 1] == BigEndian(n / 256, k - 1) && b[..k - 1] == BigEndian(m / 256, k - 1);
      assert b[k - 1] == n % 256 && b[k - 1] == m % 256;
      BigEndianFixes(n / 256, m / 256, k - 1);
    }
  }

  /** What bytes say as a number, the most significant first. */
  function NumberOf(b: Bytes): nat {
    if b == [] then 0 else 256 * NumberOf(b[..|b| - 1]) + b[|b| - 1]
  }

  /** The eight bytes of a length say that length, the most significant first. */
  lemma {:induction false} BigEndianSays(n: nat, k: nat)
    requires n < Pow256(k)
    ensures NumberOf(BigEndian(n, k)) == n
  {
    if k > 0 {
      var b := BigEndian(n, k);
      assert b[..k - 1] == BigEndian(n / 256, k - 1) && b[k - 1] == n % 256;
      BigEndianSays(n / 256, k - 1);
    }
  }

  lemma {:induction false} EightBytes()
    ensures Pow256(8) == U64
  {
    assert Pow256(2) == 0x1_0000;
    assert Pow256(4) == 0x1_0000_0000;
    assert Pow256(6) == 0x1_0000_0000_0000;
  }

  function Length(n: nat): (b: Bytes)
    ensures |b| == 8
  {
    BigEndian(n, 8)
  }

  lemma {:induction false} LengthFixes(n: nat, m: nat, x: Bytes, y: Bytes)
    requires n < U64 && m < U64 && Length(n) + x == Length(m) + y
    ensures n == m && x == y
  {
    var s := Length(n) + x;
    assert Length(n) == s[..8] && Length(m) == s[..8] && x == s[8..] && y == s[8..];
    EightBytes();
    BigEndianFixes(n, m, 8);
  }

  /** `field`: the length in eight big-endian bytes, then the bytes. */
  function Field(b: Blob): Bytes {
    Length(|b|) + b
  }

  lemma {:induction false} FieldFixes(a: Blob, b: Blob, x: Bytes, y: Bytes)
    requires Field(a) + x == Field(b) + y
    ensures a == b && x == y
  {
    assert Field(a) + x == Length(|a|) + (a + x);
    assert Field(b) + y == Length(|b|) + (b + y);
    LengthFixes(|a|, |b|, a + x, b + y);
    var s := a + x;
    assert a == s[..|a|] && b == s[..|a|] && x == s[|a|..] && y == s[|a|..];
  }

  lemma {:induction false} FieldCode()
    ensures Code(Field, Any)
  {
    forall a: Blob, b: Blob, x: Bytes, y: Bytes ensures Fixed(Field, a, b, x, y) {
      if Field(a) + x == Field(b) + y {
        FieldFixes(a, b, x, y);
      }
    }
  }

  /** Two, three and four fields in a row. */
  lemma {:induction false} TwoFix(a: Blob, b: Blob, x: Bytes, a': Blob, b': Blob, y: Bytes)
    requires Field(a) + Field(b) + x == Field(a') + Field(b') + y
    ensures a == a' && b == b' && x == y
  {
    assert Field(a) + Field(b) + x == Field(a) + (Field(b) + x);
    assert Field(a') + Field(b') + y == Field(a') + (Field(b') + y);
    FieldFixes(a, a', Field(b) + x, Field(b') + y);
    FieldFixes(b, b', x, y);
  }

  lemma {:induction false} PairUp(a: Bytes, b: Bytes, c: Bytes, d: Bytes, x: Bytes)
    ensures a + b + c + d + x == a + b + (c + d + x)
  {
  }

  lemma {:induction false} FourFix(a: Blob, b: Blob, c: Blob, d: Blob, x: Bytes,
                                   a': Blob, b': Blob, c': Blob, d': Blob, y: Bytes)
    requires Field(a) + Field(b) + Field(c) + Field(d) + x == Field(a') + Field(b') + Field(c') + Field(d') + y
    ensures a == a' && b == b' && c == c' && d == d' && x == y
  {
    var p, q := Field(c) + Field(d) + x, Field(c') + Field(d') + y;
    PairUp(Field(a), Field(b), Field(c), Field(d), x);
    PairUp(Field(a'), Field(b'), Field(c'), Field(d'), y);
    TwoFix(a, b, p, a', b', q);
    TwoFix(c, d, x, c', d', y);
  }

  // ---------------------------------------------------------------- text parts

  /** The bytes of an ASCII text. */
  function Ascii(s: string): (b: Bytes)
    ensures |b| == |s|
    ensures forall i :: 0 <= i < |s| ==> b[i] == (s[i] as int) % 256
  {
    seq(|s|, i requires 0 <= i < |s| => (s[i] as int) % 256)
  }

  const EMPTY: Blob := []

  datatype Scope = SpecScope | StackScope | MachineScope
  datatype Retention = Warm | Pinned
  datatype Mode = Rw | Ro | Overlay
  datatype Upper = Tmpfs | Volume(name: Text)

  datatype StackVolume = StackVolume(name: Text, scope: Scope, destination: Option<Text>, retention: Retention)
  datatype Mount = Mount(name: Text, source: Text, destination: Text, mode: Mode, upper: Option<Upper>)

  function ScopeText(s: Scope): Blob {
    match s
    case SpecScope => Ascii("spec")
    case StackScope => Ascii("stack")
    case MachineScope => Ascii("machine")
  }

  function RetentionText(r: Retention): Blob {
    match r
    case Warm => Ascii("warm")
    case Pinned => Ascii("pinned")
  }

  /** `rw` and `ro` hash as the flag they replaced. */
  function ModeText(m: Mode): Blob {
    match m
    case Rw => Ascii("0")
    case Ro => Ascii("1")
    case Overlay => Ascii("overlay")
  }

  lemma {:induction false} ScopeTextFixes(a: Scope, b: Scope)
    requires ScopeText(a) == ScopeText(b)
    ensures a == b
  {
    assert |Ascii("spec")| == 4 && |Ascii("stack")| == 5 && |Ascii("machine")| == 7;
  }

  lemma {:induction false} RetentionTextFixes(a: Retention, b: Retention)
    requires RetentionText(a) == RetentionText(b)
    ensures a == b
  {
    assert |Ascii("warm")| == 4 && |Ascii("pinned")| == 6;
  }

  lemma {:induction false} ModeTextFixes(a: Mode, b: Mode)
    requires ModeText(a) == ModeText(b)
    ensures a == b
  {
    assert Ascii("0")[0] == 48 && Ascii("1")[0] == 49 && |Ascii("overlay")| == 7;
  }

  // ----------------------------------------------------------------- the stack

  /** A vector: its length fits a `usize`. */
  type Items<T> = s: seq<T> | |s| < U64

  datatype EnvVar = EnvVar(key: Text, value: Text)

  datatype Guest = Guest(
    sshPort: Word, sshUser: Text, sshHost: Text, webPort: Word, readyTimeout: Word, readyPoll: Word,
    version: Text, ramSize: Text, diskSize: Text, cpuCores: Option<Word>, payload: Option<Text>, payloadDestination: Text)

  datatype Stack = Stack(
    name: Text, dockerfile: Option<Text>, image: Option<Text>, family: Option<Text>,
    volumes: Items<StackVolume>, mounts: Items<Mount>, tmpfs: Items<Text>, env: Items<EnvVar>,
    kind: Option<Text>, acknowledged: bool, guest: Option<Guest>)

  predicate BytesLe(a: Bytes, b: Bytes) {
    if a == [] then true
    else if b == [] then false
    else if a[0] != b[0] then a[0] < b[0]
    else BytesLe(a[1..], b[1..])
  }

  predicate VolumeLe(a: StackVolume, b: StackVolume) {
    BytesLe(a.name, b.name)
  }

  function ModeRank(m: Mode): nat {
    match m
    case Rw => 0
    case Ro => 1
    case Overlay => 2
  }

  predicate UpperLe(a: Option<Upper>, b: Option<Upper>) {
    match (a, b)
    case (None, _) => true
    case (Some(_), None) => false
    case (Some(Tmpfs), _) => true
    case (Some(Volume(_)), Some(Tmpfs)) => false
    case (Some(Volume(x)), Some(Volume(y))) => BytesLe(x, y)
  }

  predicate MountLe(a: Mount, b: Mount) {
    if a.name != b.name then BytesLe(a.name, b.name)
    else if a.source != b.source then BytesLe(a.source, b.source)
    else if a.destination != b.destination then BytesLe(a.destination, b.destination)
    else if a.mode != b.mode then ModeRank(a.mode) <= ModeRank(b.mode)
    else UpperLe(a.upper, b.upper)
  }

  datatype VolumeView = VolumeView(name: Text, scope: Scope, destination: Blob, retention: Retention)

  datatype GuestView = GuestView(
    sshPort: Word, sshUser: Text, sshHost: Text, webPort: Word, readyTimeout: Word, readyPoll: Word,
    version: Text, ramSize: Text, diskSize: Text, cpuCores: Option<Word>, payload: Text, payloadDestination: Text)

  /** What the digest is a function of: lists in hashing order, absent texts as empty ones. */
  datatype StackView = StackView(
    name: Text, dockerfile: Text, image: Text, family: Text,
    volumes: Items<VolumeView>, mounts: Items<Mount>, tmpfs: Items<Text>, env: Items<EnvVar>,
    kind: Text, acknowledged: bool, guest: Option<GuestView>)

  function TextOr(o: Option<Text>): Text {
    match o
    case Some(b) => b
    case None => []
  }

  function ViewVolume(v: StackVolume): VolumeView {
    VolumeView(v.name, v.scope,
               match v.destination { case Some(d) => d case None => Ascii("/bosn/") + v.name },
               v.retention)
  }

  function ViewVolumes(vs: seq<StackVolume>): (r: seq<VolumeView>)
    ensures |r| == |vs| && forall i :: 0 <= i < |vs| ==> r[i] == ViewVolume(vs[i])
  {
    seq(|vs|, i requires 0 <= i < |vs| => ViewVolume(vs[i]))
  }

  function ViewGuest(g: Guest): GuestView {
    GuestView(g.sshPort, g.sshUser, g.sshHost, g.webPort, g.readyTimeout, g.readyPoll,
              g.version, g.ramSize, g.diskSize, g.cpuCores, TextOr(g.payload), g.payloadDestination)
  }

  function SortItems<T>(s: Items<T>, le: (T, T) -> bool): (r: Items<T>) {
    SortMultiset(s, le);
    Sort(s, le)
  }

  function View(s: Stack): StackView {
    StackView(s.name, TextOr(s.dockerfile), TextOr(s.image), TextOr(s.family),
              ViewVolumes(SortItems(s.volumes, VolumeLe)), SortItems(s.mounts, MountLe),
              SortItems(s.tmpfs, BytesLe), s.env, TextOr(s.kind), s.acknowledged,
              match s.guest { case Some(g) => Some(ViewGuest(g)) case None => None })
  }

  // ------------------------------------------------------------ its byte stream

  function VolumeBytes(v: VolumeView): Bytes {
    Field(v.name) + Field(ScopeText(v.scope)) + Field(v.destination) + Field(RetentionText(v.retention))
  }

  function UpperBytes(u: Option<Upper>): Bytes {
    match u
    case None => []
    case Some(Tmpfs) => Field(Ascii("upper-tmpfs"))
    case Some(Volume(name)) => Field(Ascii("upper-volume")) + Field(name)
  }

  function MountBytes(m: Mount): Bytes {
    Field(m.name) + Field(m.source) + Field(m.destination) + Field(ModeText(m.mode)) + UpperBytes(m.upper)
  }

  function EnvBytes(e: EnvVar): Bytes {
    Field(e.key) + Field(e.value)
  }

  function CountBytes(tag: Blob, n: nat): Bytes {
    Field(tag) + Length(n)
  }

  /** What a manifest guarantees of a mount: an upper layer exactly for an overlay. */
  predicate Layered(m: Mount) {
    m.upper.Some? <==> m.mode.Overlay?
  }

  lemma {:induction false} VolumeCode()
    ensures Code(VolumeBytes, Any)
  {
    forall a: VolumeView, b: VolumeView, x: Bytes, y: Bytes ensures Fixed(VolumeBytes, a, b, x, y) {
      if VolumeBytes(a) + x == VolumeBytes(b) + y {
        FourFix(a.name, ScopeText(a.scope), a.destination, RetentionText(a.retention), x,
                b.name, ScopeText(b.scope), b.destination, RetentionText(b.retention), y);
        ScopeTextFixes(a.scope, b.scope);
        RetentionTextFixes(a.retention, b.retention);
      }
    }
  }

  function MountHead(m: Mount): Bytes {
    Field(m.name) + Field(m.source) + Field(m.destination) + Field(ModeText(m.mode))
  }

  lemma {:induction false} MountHeadFixes(a: Mount, b: Mount, x: Bytes, y: Bytes)
    requires MountHead(a) + x == MountHead(b) + y
    ensures a.name == b.name && a.source == b.source && a.destination == b.destination && a.mode == b.mode && x == y
  {
    FourFix(a.name, a.source, a.destination, ModeText(a.mode), x, b.name, b.source, b.destination, ModeText(b.mode), y);
    ModeTextFixes(a.mode, b.mode);
  }

  lemma {:induction false} MountParts(m: Mount, x: Bytes)
    ensures MountBytes(m) + x == MountHead(m) + (UpperBytes(m.upper) + x)
  {
  }

  lemma {:induction false} MountFixes(a: Mount, b: Mount, x: Bytes, y: Bytes)
    requires Layered(a) && Layered(b) && MountBytes(a) + x == MountBytes(b) + y
    ensures a == b && x == y
  {
    var p, q := UpperBytes(a.upper) + x, UpperBytes(b.upper) + y;
    MountParts(a, x);
    MountParts(b, y);
    MountHeadFixes(a, b, p, q);
    if a.mode.Overlay? {
      UpperFixes(a.upper.value, b.upper.value, x, y);
    } else {
      assert p == x && q == y;
    }
  }

  function UpperTag(u: Upper): Blob {
    match u
    case Tmpfs => Ascii("upper-tmpfs")
    case Volume(_) => Ascii("upper-volume")
  }

  function UpperRest(u: Upper): Bytes {
    match u
    case Tmpfs => []
    case Volume(name) => Field(name)
  }

  lemma {:induction false} UpperParts(u: Upper, x: Bytes)
    ensures UpperBytes(Some(u)) + x == Field(UpperTag(u)) + (UpperRest(u) + x)
    ensures |UpperTag(u)| == if u.Tmpfs? then 11 else 12
  {
  }

  lemma {:induction false} UpperFixes(a: Upper, b: Upper, x: Bytes, y: Bytes)
    requires UpperBytes(Some(a)) + x == UpperBytes(Some(b)) + y
    ensures a == b && x == y
  {
    UpperParts(a, x);
    UpperParts(b, y);
    FieldFixes(UpperTag(a), UpperTag(b), UpperRest(a) + x, UpperRest(b) + y);
    if a.Volume? {
      FieldFixes(a.name, b.name, x, y);
    } else {
      assert UpperRest(a) + x == x && UpperRest(b) + y == y;
    }
  }

  lemma {:induction false} MountCode()
    ensures Code(MountBytes, Layered)
  {
    forall a: Mount, b: Mount, x: Bytes, y: Bytes | Layered(a) && Layered(b) ensures Fixed(MountBytes, a, b, x, y) {
      if MountBytes(a) + x == MountBytes(b) + y {
        MountFixes(a, b, x, y);
      }
    }
  }

  lemma {:induction false} EnvCode()
    ensures Code(EnvBytes, Any)
  {
    forall a: EnvVar, b: EnvVar, x: Bytes, y: Bytes ensures Fixed(EnvBytes, a, b, x, y) {
      if EnvBytes(a) + x == EnvBytes(b) + y {
        TwoFix(a.key, a.value, x, b.key, b.value, y);
      }
    }
  }

  /** A counted list: tag, count, elements. */
  function ListBytes<T>(tag: Blob, s: seq<T>, enc: T -> Bytes): Bytes {
    CountBytes(tag, |s|) + EncodeAll(s, enc)
  }

  lemma {:induction false} ListFixes<T(!new)>(tag: Blob, a: Items<T>, b: Items<T>, enc: T -> Bytes, ok: T -> bool, x: Bytes, y: Bytes)
    requires Code(enc, ok) && AllOk(a, ok) && AllOk(b, ok)
    requires ListBytes(tag, a, enc) + x == ListBytes(tag, b, enc) + y
    ensures a == b && x == y
  {
    var p, q := EncodeAll(a, enc) + x, EncodeAll(b, enc) + y;
    assert ListBytes(tag, a, enc) + x == Field(tag) + (Length(|a|) + p);
    assert ListBytes(tag, b, enc) + y == Field(tag) + (Length(|b|) + q);
    FieldFixes(tag, tag, Length(|a|) + p, Length(|b|) + q);
    LengthFixes(|a|, |b|, p, q);
    AllFixes(a, b, enc, ok, x, y);
  }

  // ------------------------------------------------------------------ the guest

  lemma {:induction false} DigitsShort(n: nat)
    ensures |MatrixJson.Digits(n)| <= n + 1
    ensures n > 0 ==> |MatrixJson.Digits(n)| <= n
    decreases n
  {
    if n >= 10 {
      DigitsShort(n / 10);
    }
  }

  /** `to_string` of a `u64`. */
  function NatText(n: Word): (b: Blob)
    ensures b != []
  {
    DigitsShort(n);
    Ascii(MatrixJson.Digits(n))
  }

  lemma {:induction false} NatTextFixes(n: Word, m: Word)
    requires NatText(n) == NatText(m)
    ensures n == m
  {
    var a, b := MatrixJson.Digits(n), MatrixJson.Digits(m);
    assert |a| == |NatText(n)| && |b| == |NatText(m)|;
    forall i | 0 <= i < |a| ensures a[i] == b[i] {
      assert Ascii(a)[i] == a[i] as int && Ascii(b)[i] == b[i] as int;
    }
    assert a == b;
    MatrixJson.DigitsFix(n, m);
  }

  function CoresText(o: Option<Word>): Blob {
    match o
    case Some(n) => NatText(n)
    case None => EMPTY
  }

  /** The twelve texts of a guest, in hashing order. */
  function GuestTexts(g: GuestView): (r: seq<Blob>)
    ensures |r| == 12
  {
    [NatText(g.sshPort), g.sshUser, g.sshHost, NatText(g.webPort), NatText(g.readyTimeout), NatText(g.readyPoll),
     g.version, g.ramSize, g.diskSize, CoresText(g.cpuCores), g.payload, g.payloadDestination]
  }

  lemma {:induction false} GuestTextsFix(g: GuestView, h: GuestView)
    requires GuestTexts(g) == GuestTexts(h)
    ensures g == h
  {
    var a, b := GuestTexts(g), GuestTexts(h);
    assert a[0] == b[0] && a[1] == b[1] && a[2] == b[2] && a[3] == b[3] && a[4] == b[4] && a[5] == b[5];
    assert a[6] == b[6] && a[7] == b[7] && a[8] == b[8] && a[9] == b[9] && a[10] == b[10] && a[11] == b[11];
    NatTextFixes(g.sshPort, h.sshPort);
    NatTextFixes(g.webPort, h.webPort);
    NatTextFixes(g.readyTimeout, h.readyTimeout);
    NatTextFixes(g.readyPoll, h.readyPoll);
    if g.cpuCores.Some? && h.cpuCores.Some? {
      NatTextFixes(g.cpuCores.value, h.cpuCores.value);
    }
  }

  function GuestTag(g: Option<GuestView>): Blob {
    if g.Some? then Ascii("guest-present") else Ascii("guest-absent")
  }

  function GuestRest(g: Option<GuestView>): Bytes {
    match g
    case Some(v) => EncodeAll(GuestTexts(v), Field)
    case None => []
  }

  lemma {:induction false} GuestFixes(g: Option<GuestView>, h: Option<GuestView>, x: Bytes, y: Bytes)
    requires Field(GuestTag(g)) + (GuestRest(g) + x) == Field(GuestTag(h)) + (GuestRest(h) + y)
    ensures g == h && x == y
  {
    FieldFixes(GuestTag(g), GuestTag(h), GuestRest(g) + x, GuestRest(h) + y);
    assert |GuestTag(g)| == if g.Some? then 13 else 12;
    assert |GuestTag(h)| == if h.Some? then 13 else 12;
    if g.Some? {
      FieldCode();
      AllFixes(GuestTexts(g.value), GuestTexts(h.value), Field, Any, x, y);
      GuestTextsFix(g.value, h.value);
    } else {
      assert GuestRest(g) + x == x && GuestRest(h) + y == y;
    }
  }

  // ------------------------------------------------------- the whole stack stream

  function FlagText(b: bool): Blob {
    if b then Ascii("1") else Ascii("0")
  }

  function TailBytes(v: StackView, rest: Bytes): Bytes {
    Field(v.kind) + (Field(FlagText(v.acknowledged)) + (Field(GuestTag(v.guest)) + (GuestRest(v.guest) + rest)))
  }

  function ListsBytes(v: StackView, rest: Bytes): Bytes {
    ListBytes(Ascii("volumes"), v.volumes, VolumeBytes) +
    (ListBytes(Ascii("mounts"), v.mounts, MountBytes) +
     (ListBytes(Ascii("tmpfs"), v.tmpfs, TextField) +
      (ListBytes(Ascii("env"), v.env, EnvBytes) + TailBytes(v, rest))))
  }

  function StackBytes(v: StackView, rest: Bytes): Bytes {
    Field(Ascii("stack-v1")) +
    (Field(v.name) + (Field(v.dockerfile) + (Field(v.image) + (Field(v.family) + ListsBytes(v, rest)))))
  }

  function TextField(t: Text): Bytes {
    Field(t)
  }

  lemma {:induction false} TextCode()
    ensures Code(TextField, Any)
  {
    forall a: Text, b: Text, x: Bytes, y: Bytes ensures Fixed(TextField, a, b, x, y) {
      if TextField(a) + x == TextField(b) + y {
        FieldFixes(a, b, x, y);
      }
    }
  }

  lemma {:induction false} TailFixes(v: StackView, w: StackView, x: Bytes, y: Bytes)
    requires TailBytes(v, x) == TailBytes(w, y)
    ensures v.kind == w.kind && v.acknowledged == w.acknowledged && v.guest == w.guest && x == y
  {
    var p, q := Field(GuestTag(v.guest)) + (GuestRest(v.guest) + x), Field(GuestTag(w.guest)) + (GuestRest(w.guest) + y);
    FieldFixes(v.kind, w.kind, Field(FlagText(v.acknowledged)) + p, Field(FlagText(w.acknowledged)) + q);
    FieldFixes(FlagText(v.acknowledged), FlagText(w.acknowledged), p, q);
    assert Ascii("0")[0] == 48 && Ascii("1")[0] == 49;
    GuestFixes(v.guest, w.guest, x, y);
  }

  lemma {:induction false} ListsFix(v: StackView, w: StackView, x: Bytes, y: Bytes)
    requires AllOk(v.mounts, Layered) && AllOk(w.mounts, Layered)
    requires ListsBytes(v, x) == ListsBytes(w, y)
    ensures v.volumes == w.volumes && v.mounts == w.mounts && v.tmpfs == w.tmpfs && v.env == w.env
    ensures TailBytes(v, x) == TailBytes(w, y)
  {
    var e, f := ListBytes(Ascii("env"), v.env, EnvBytes) + TailBytes(v, x), ListBytes(Ascii("env"), w.env, EnvBytes) + TailBytes(w, y);
    var t, u := ListBytes(Ascii("tmpfs"), v.tmpfs, TextField) + e, ListBytes(Ascii("tmpfs"), w.tmpfs, TextField) + f;
    var m, n := ListBytes(Ascii("mounts"), v.mounts, MountBytes) + t, ListBytes(Ascii("mounts"), w.mounts, MountBytes) + u;
    VolumeCode();
    ListFixes(Ascii("volumes"), v.volumes, w.volumes, VolumeBytes, Any, m, n);
    MountCode();
    ListFixes(Ascii("mounts"), v.mounts, w.mounts, MountBytes, Layered, t, u);
    TextCode();
    ListFixes(Ascii("tmpfs"), v.tmpfs, w.tmpfs, TextField, Any, e, f);
    EnvCode();
    ListFixes(Ascii("env"), v.env, w.env, EnvBytes, Any, TailBytes(v, x), TailBytes(w, y));
  }

  /** The stack part of the stream is uniquely decodable, whatever follows it. */
  lemma {:induction false} StackFixes(v: StackView, w: StackView, x: Bytes, y: Bytes)
    requires AllOk(v.mounts, Layered) && AllOk(w.mounts, Layered)
    requires StackBytes(v, x) == StackBytes(w, y)
    ensures v == w && x == y
  {
    var tag := Ascii("stack-v1");
    var a, b := ListsBytes(v, x), ListsBytes(w, y);
    FieldFixes(tag, tag, Field(v.name) + (Field(v.dockerfile) + (Field(v.image) + (Field(v.family) + a))),
               Field(w.name) + (Field(w.dockerfile) + (Field(w.image) + (Field(w.family) + b))));
    FieldFixes(v.name, w.name, Field(v.dockerfile) + (Field(v.image) + (Field(v.family) + a)),
               Field(w.dockerfile) + (Field(w.image) + (Field(w.family) + b)));
    FieldFixes(v.dockerfile, w.dockerfile, Field(v.image) + (Field(v.family) + a), Field(w.image) + (Field(w.family) + b));
    FieldFixes(v.image, w.image, Field(v.family) + a, Field(w.family) + b);
    FieldFixes(v.family, w.family, a, b);
    ListsFix(v, w, x, y);
    TailFixes(v, w, x, y);
  }

  function FirstReading(a: Text, b: Text, c: Text, d: Text, u: Text): seq<Mount> {
    [Mount(a, b, c, Overlay, None), Mount(Ascii("upper-volume"), u, d, Overlay, Some(Volume(Ascii("0"))))]
  }

  function SecondReading(a: Text, b: Text, c: Text, d: Text, u: Text): seq<Mount> {
    [Mount(a, b, c, Overlay, Some(Volume(u))), Mount(d, Ascii("overlay"), Ascii("upper-volume"), Rw, None)]
  }

  lemma {:induction false} ReadingsHashAlike(a: Text, b: Text, c: Text, d: Text, u: Text)
    ensures EncodeAll(FirstReading(a, b, c, d, u), MountBytes) == EncodeAll(SecondReading(a, b, c, d, u), MountBytes)
  {
    var left, right := FirstReading(a, b, c, d, u), SecondReading(a, b, c, d, u);
    var tag, over, zero := Ascii("upper-volume"), Ascii("overlay"), Ascii("0");
    var head := Field(a) + Field(b) + Field(c) + Field(over);
    var middle := Field(tag) + Field(u);
    var tail := Field(d) + Field(over) + Field(tag) + Field(zero);
    assert MountBytes(left[0]) == head;
    assert MountBytes(left[1]) == middle + tail;
    assert MountBytes(right[0]) == head + middle;
    assert MountBytes(right[1]) == tail;
    EncodeTwo(left[0], left[1], MountBytes);
    EncodeTwo(right[0], right[1], MountBytes);
    assert head + (middle + tail) == (head + middle) + tail;
  }

  lemma {:induction false} SortPair<T>(x: T, y: T, le: (T, T) -> bool)
    requires le(x, y)
    ensures Sort([x, y], le) == [x, y]
  {
    assert [x, y][1..] == [y] && [y][1..] == [];
    assert Sort([], le) == [];
    assert Sort([y], le) == [y];
  }

  lemma {:induction false} ReadingsSorted(a: Text, b: Text, c: Text, d: Text, u: Text)
    requires a != Ascii("upper-volume") && BytesLe(a, Ascii("upper-volume")) && a != d && BytesLe(a, d)
    ensures Sort(FirstReading(a, b, c, d, u), MountLe) == FirstReading(a, b, c, d, u)
    ensures Sort(SecondReading(a, b, c, d, u), MountLe) == SecondReading(a, b, c, d, u)
  {
    var first, second := FirstReading(a, b, c, d, u), SecondReading(a, b, c, d, u);
    SortPair(first[0], first[1], MountLe);
    SortPair(second[0], second[1], MountLe);
  }

  /**
   * Without the manifest's guarantee the optional upper fields are ambiguous: an overlay that names no
   * upper can be read as one that does. Whenever both lists are in hashing order, the two stacks differ
   * in a hashed field and have one content stream.
   */
  lemma {:induction false} UnlayeredMountsCollide(s: Stack, entries: seq<ContextEntry>, a: Text, b: Text, c: Text, d: Text, u: Text)
    requires a != Ascii("upper-volume") && BytesLe(a, Ascii("upper-volume")) && a != d && BytesLe(a, d)
    ensures Collide(s.(mounts := FirstReading(a, b, c, d, u)), s.(mounts := SecondReading(a, b, c, d, u)), entries)
  {
    ReadingsSorted(a, b, c, d, u);
    ReadingsHashAlike(a, b, c, d, u);
    ReadingsLayered(a, b, c, d, u);
    SameStream(s, entries, FirstReading(a, b, c, d, u), SecondReading(a, b, c, d, u));
  }

  /** Two stacks, the second as a manifest guarantees it, that differ where it is hashed and hash alike. */
  ghost predicate Collide(p: Stack, q: Stack, entries: seq<ContextEntry>) {
    && !AllOk(p.mounts, Layered) && AllOk(q.mounts, Layered)
    && View(p) != View(q)
    && ContentBytes(p, entries) == ContentBytes(q, entries)
  }

  lemma {:induction false} ReadingsLayered(a: Text, b: Text, c: Text, d: Text, u: Text)
    ensures !AllOk(FirstReading(a, b, c, d, u), Layered) && AllOk(SecondReading(a, b, c, d, u), Layered)
  {
    var first, second := FirstReading(a, b, c, d, u), SecondReading(a, b, c, d, u);
    assert !Layered(first[0]);
    assert Layered(second[0]) && Layered(second[1]);
  }

  lemma {:induction false} SameStream(s: Stack, entries: seq<ContextEntry>, first: Items<Mount>, second: Items<Mount>)
    requires Sort(first, MountLe) == first && Sort(second, MountLe) == second && |first| == |second|
    requires EncodeAll(first, MountBytes) == EncodeAll(second, MountBytes)
    requires !AllOk(first, Layered) && AllOk(second, Layered)
    ensures Collide(s.(mounts := first), s.(mounts := second), entries)
  {
    var v, w := View(s.(mounts := first)), View(s.(mounts := second));
    assert v.mounts == first && w.mounts == second && w == v.(mounts := second);
    MountsDecide(v, w, EncodeAll(Sort(entries, EntryLe), EntryBytes));
  }

  lemma {:induction false} MountsDecide(v: StackView, w: StackView, rest: Bytes)
    requires w == v.(mounts := w.mounts) && |v.mounts| == |w.mounts|
    requires EncodeAll(v.mounts, MountBytes) == EncodeAll(w.mounts, MountBytes)
    ensures StackBytes(v, rest) == StackBytes(w, rest)
  {
  }

  /** Names for which it happens. */
  lemma {:induction false} CollidingNames()
    ensures var a, d: Text := Ascii("a"), Ascii("b");
            a != Ascii("upper-volume") && BytesLe(a, Ascii("upper-volume")) && a != d && BytesLe(a, d)
  {
    assert Ascii("a")[0] == 97 && Ascii("b")[0] == 98 && Ascii("upper-volume")[0] == 117;
  }

  lemma {:induction false} EncodeTwo<T>(a: T, b: T, enc: T -> Bytes)
    ensures EncodeAll([a, b], enc) == enc(a) + enc(b)
  {
    assert [a, b][1..] == [b] && [b][1..] == [];
    assert EncodeAll([b], enc) == enc(b) + [];
  }

  // ------------------------------------------------------------ context records

  datatype ContextEntry =
    | File(path: Text, bytes: Text, executable: bool)
    | Directory(path: Text)
    | Symlink(path: Text, target: Text)

  function Mark(): Bytes {
    [0] + Ascii("path-record") + [0]
  }

  function EntryTag(e: ContextEntry): Blob {
    match e
    case File(_, _, executable) => if executable then Ascii("file+x") else Ascii("file")
    case Directory(_) => Ascii("dir")
    case Symlink(_, _) => Ascii("link")
  }

  function EntryBody(e: ContextEntry): Text {
    match e
    case File(_, bytes, _) => bytes
    case Directory(_) => []
    case Symlink(_, target) => target
  }

  function EntryBytes(e: ContextEntry): Bytes {
    Mark() + (Field(EntryTag(e)) + (Field(e.path) + Field(EntryBody(e))))
  }

  lemma {:induction false} EntryTagFixes(a: ContextEntry, b: ContextEntry)
    requires EntryTag(a) == EntryTag(b) && a.path == b.path && EntryBody(a) == EntryBody(b)
    ensures a == b
  {
    var t, u := EntryTag(a), EntryTag(b);
    assert |Ascii("file+x")| == 6 && |Ascii("file")| == 4 && |Ascii("dir")| == 3 && |Ascii("link")| == 4;
    assert Ascii("file")[0] == 102 && Ascii("link")[0] == 108;
  }

  lemma {:induction false} EntryCode()
    ensures Code(EntryBytes, Any)
    ensures forall e :: EntryBytes(e) != []
  {
    forall a: ContextEntry, b: ContextEntry, x: Bytes, y: Bytes ensures Fixed(EntryBytes, a, b, x, y) {
      if EntryBytes(a) + x == EntryBytes(b) + y {
        EntryFixes(a, b, x, y);
      }
    }
  }

  lemma {:induction false} EntryFixes(a: ContextEntry, b: ContextEntry, x: Bytes, y: Bytes)
    requires EntryBytes(a) + x == EntryBytes(b) + y
    ensures a == b && x == y
  {
    var p, q := Field(EntryBody(a)) + x, Field(EntryBody(b)) + y;
    EntryParts(a, x);
    EntryParts(b, y);
    DropMark(Field(EntryTag(a)) + Field(a.path) + p, Field(EntryTag(b)) + Field(b.path) + q);
    TwoFix(EntryTag(a), a.path, p, EntryTag(b), b.path, q);
    FieldFixes(EntryBody(a), EntryBody(b), x, y);
    EntryTagFixes(a, b);
  }

  lemma {:induction false} EntryParts(e: ContextEntry, x: Bytes)
    ensures EntryBytes(e) + x == Mark() + (Field(EntryTag(e)) + Field(e.path) + (Field(EntryBody(e)) + x))
  {
  }

  lemma {:induction false} DropMark(p: Bytes, q: Bytes)
    requires Mark() + p == Mark() + q
    ensures p == q
  {
    assert p == (Mark() + p)[|Mark()|..] && q == (Mark() + q)[|Mark()|..];
  }

  predicate EntryLe(a: ContextEntry, b: ContextEntry) {
    BytesLe(a.path, b.path)
  }

  lemma {:induction false} BytesLeTransitive(a: Bytes, b: Bytes, c: Bytes)
    requires BytesLe(a, b) && BytesLe(b, c)
    ensures BytesLe(a, c)
  {
    if a != [] && a[0] == b[0] && b[0] == c[0] {
      BytesLeTransitive(a[1..], b[1..], c[1..]);
    }
  }

  lemma {:induction false} BytesLeConnected(a: Bytes, b: Bytes)
    ensures BytesLe(a, b) || BytesLe(b, a)
    ensures BytesLe(a, b) && BytesLe(b, a) ==> a == b
  {
    if a != [] && b != [] && a[0] == b[0] {
      BytesLeConnected(a[1..], b[1..]);
      assert a == [a[0]] + a[1..] && b == [b[0]] + b[1..];
    }
  }

  /** The first difference is at `k`, and `a` has the smaller there. */
  ghost predicate SmallerAt(a: Bytes, b: Bytes, k: nat) {
    k < |a| && k < |b| && a[..k] == b[..k] && a[k] < b[k]
  }

  lemma {:induction false} SmallerHead(a: Bytes, b: Bytes)
    requires a != [] && b != [] && a[0] != b[0]
    ensures (exists k: nat :: SmallerAt(a, b, k)) <==> a[0] < b[0]
  {
    assert a[..0] == b[..0];
    assert a[0] < b[0] ==> SmallerAt(a, b, 0);
    forall k: nat | SmallerAt(a, b, k) ensures k == 0 {
      if k > 0 {
        SameHead(a, b, k);
      }
    }
  }

  lemma {:induction false} SameHead(a: Bytes, b: Bytes, k: nat)
    requires 0 < k <= |a| && k <= |b| && a[..k] == b[..k]
    ensures a[0] == b[0]
  {
    assert a[..k][0] == b[..k][0];
  }

  lemma {:induction false} SmallerTail(a: Bytes, b: Bytes, k: nat)
    requires a != [] && b != [] && a[0] == b[0]
    ensures SmallerAt(a, b, k + 1) <==> SmallerAt(a[1..], b[1..], k)
  {
    if k + 1 <= |a| && k + 1 <= |b| {
      assert a[..k + 1] == [a[0]] + a[1..][..k] && b[..k + 1] == [b[0]] + b[1..][..k];
      assert a[..k + 1][1..] == a[1..][..k] && b[..k + 1][1..] == b[1..][..k];
    }
  }

  /** Bytes are ordered as a dictionary orders texts. */
  lemma {:induction false} BytesLeExact(a: Bytes, b: Bytes)
    ensures BytesLe(a, b) <==> a <= b || exists k: nat :: SmallerAt(a, b, k)
  {
    if a != [] && b != [] {
      if a[0] == b[0] {
        BytesLeExact(a[1..], b[1..]);
        assert a == [a[0]] + a[1..] && b == [b[0]] + b[1..];
        forall k: nat ensures SmallerAt(a, b, k + 1) <==> SmallerAt(a[1..], b[1..], k) {
          SmallerTail(a, b, k);
        }
        forall k: nat | SmallerAt(a, b, k) ensures SmallerAt(a[1..], b[1..], k - 1) {
          SmallerTail(a, b, k - 1);
        }
        if exists k: nat :: SmallerAt(a[1..], b[1..], k) {
          var k: nat :| SmallerAt(a[1..], b[1..], k);
          assert SmallerAt(a, b, k + 1);
        }
      } else {
        SmallerHead(a, b);
      }
    }
  }

  lemma {:induction false} EntryLeTotal()
    ensures Total(EntryLe)
  {
    forall a: ContextEntry, b: ContextEntry ensures EntryLe(a, b) || EntryLe(b, a) {
      BytesLeConnected(a.path, b.path);
    }
    forall a: ContextEntry, b: ContextEntry, c: ContextEntry | EntryLe(a, b) && EntryLe(b, c) ensures EntryLe(a, c) {
      BytesLeTransitive(a.path, b.path, c.path);
    }
  }

  ghost predicate DistinctPaths(entries: seq<ContextEntry>) {
    forall i, j :: 0 <= i < j < |entries| ==> entries[i].path != entries[j].path
  }

  /** The pre-image of the content digest. */
  function ContentBytes(s: Stack, entries: seq<ContextEntry>): Bytes {
    Field(Ascii("bosn-generation-content-v1")) + StackBytes(View(s), EncodeAll(Sort(entries, EntryLe), EntryBytes))
  }

  /** The stream does not depend on the order the entries were observed in. */
  lemma {:induction false} ContentForgetsOrder(s: Stack, a: seq<ContextEntry>, b: seq<ContextEntry>)
    requires DistinctPaths(a) && DistinctPaths(b) && forall e :: e in a <==> e in b
    ensures ContentBytes(s, a) == ContentBytes(s, b)
  {
    EntryLeTotal();
    assert NoDup(a) && NoDup(b);
    assert Separates(EntryLe, a) by {
      forall x, y | x in a && y in a && EntryLe(x, y) && EntryLe(y, x) ensures x == y {
        BytesLeConnected(x.path, y.path);
      }
    }
    SortForgets(a, b, EntryLe);
  }

  lemma {:induction false} SortedMounts(s: Stack)
    requires AllOk(s.mounts, Layered)
    ensures AllOk(View(s).mounts, Layered)
  {
    SortMembers(s.mounts, MountLe);
    var m := View(s).mounts;
    forall i | 0 <= i < |m| ensures Layered(m[i]) {
      assert m[i] in Sort(s.mounts, MountLe);
      assert m[i] in s.mounts;
    }
  }

  lemma {:induction false} ContentFixes(s: Stack, a: seq<ContextEntry>, t: Stack, b: seq<ContextEntry>)
    requires AllOk(s.mounts, Layered) && AllOk(t.mounts, Layered) && ContentBytes(s, a) == ContentBytes(t, b)
    ensures View(s) == View(t) && Sort(a, EntryLe) == Sort(b, EntryLe)
  {
    var tag := Ascii("bosn-generation-content-v1");
    var x, y := EncodeAll(Sort(a, EntryLe), EntryBytes), EncodeAll(Sort(b, EntryLe), EntryBytes);
    FieldFixes(tag, tag, StackBytes(View(s), x), StackBytes(View(t), y));
    SortedMounts(s);
    SortedMounts(t);
    StackFixes(View(s), View(t), x, y);
    EntryCode();
    RestFixes(Sort(a, EntryLe), Sort(b, EntryLe), EntryBytes, Any);
  }

  /**
   * For stacks a manifest can hold, equal streams mean equal hashed stack fields and the same typed
   * context entries, and conversely.
   */
  lemma {:induction false} ContentExact(s: Stack, a: seq<ContextEntry>, t: Stack, b: seq<ContextEntry>)
    requires AllOk(s.mounts, Layered) && AllOk(t.mounts, Layered)
    requires DistinctPaths(a) && DistinctPaths(b)
    ensures ContentBytes(s, a) == ContentBytes(t, b) <==> View(s) == View(t) && forall e :: e in a <==> e in b
  {
    if ContentBytes(s, a) == ContentBytes(t, b) {
      ContentFixes(s, a, t, b);
      SortMembers(a, EntryLe);
      SortMembers(b, EntryLe);
      forall e ensures e in a <==> e in b {
        assert e in a ==> e in Sort(a, EntryLe);
        assert e in b ==> e in Sort(b, EntryLe);
      }
    }
    if View(s) == View(t) && forall e :: e in a <==> e in b {
      ContentForgetsOrder(s, a, b);
    }
  }

  // -------------------------------------------------- appending to the hasher

  lemma {:induction false} EncodeAppend<T>(s: seq<T>, i: nat, enc: T -> Bytes)
    requires i < |s|
    ensures EncodeAll(s[..i + 1], enc) == EncodeAll(s[..i], enc) + enc(s[i])
  {
    if i == 0 {
      assert s[..1] == [s[0]] && [s[0]][1..] == [] && s[..0] == [];
      assert EncodeAll([s[0]], enc) == enc(s[0]) + [];
    } else {
      EncodeAppend(s[1..], i - 1, enc);
      assert s[1..][..i] == s[..i + 1][1..] && s[1..][..i - 1] == s[..i][1..];
    }
  }

  lemma {:induction false} Regroup(h: Bytes, a: Bytes, b: Bytes, c: Bytes, d: Bytes, e: Bytes)
    ensures h + a + b + c + d + e == h + (a + (b + (c + (d + e))))
  {
  }

  lemma {:induction false} Grown<T>(start: Bytes, s: seq<T>, i: nat, enc: T -> Bytes, before: Bytes, after: Bytes)
    requires i < |s| && before == start + EncodeAll(s[..i], enc) && after == before + enc(s[i])
    ensures after == start + EncodeAll(s[..i + 1], enc)
  {
    EncodeAppend(s, i, enc);
  }

  lemma {:induction false} Listed<T>(h: Bytes, tag: Blob, s: seq<T>, enc: T -> Bytes)
    ensures h + CountBytes(tag, |s|) + EncodeAll(s, enc) == h + ListBytes(tag, s, enc)
  {
  }

  method AppendVolume(h: Bytes, v: StackVolume) returns (out: Bytes)
    ensures out == h + VolumeBytes(ViewVolume(v))
  {
    var destination: Blob := match v.destination { case Some(d) => d case None => Ascii("/bosn/") + v.name };
    var a, b, c, d := Field(v.name), Field(ScopeText(v.scope)), Field(destination), Field(RetentionText(v.retention));
    out := h + a + b + c + d;
    Regroup(h, a, b, c, d, []);
    assert a + (b + (c + (d + []))) == a + b + c + d;
  }

  method AppendEachVolume(h: Bytes, sorted: seq<StackVolume>) returns (out: Bytes)
    ensures out == h + EncodeAll(ViewVolumes(sorted), VolumeBytes)
  {
    ghost var views := ViewVolumes(sorted);
    out := h;
    for i := 0 to |sorted|
      invariant out == h + EncodeAll(views[..i], VolumeBytes)
    {
      ghost var before := out;
      out := AppendVolume(out, sorted[i]);
      Grown(h, views, i, VolumeBytes, before, out);
    }
    assert views[..|sorted|] == views;
  }

  method AppendVolumes(h: Bytes, volumes: Items<StackVolume>) returns (out: Bytes)
    ensures out == h + ListBytes(Ascii("volumes"), ViewVolumes(SortItems(volumes, VolumeLe)), VolumeBytes)
  {
    var sorted := SortItems(volumes, VolumeLe);
    out := AppendEachVolume(h + CountBytes(Ascii("volumes"), |sorted|), sorted);
    Listed(h, Ascii("volumes"), ViewVolumes(sorted), VolumeBytes);
  }

  method AppendMount(h: Bytes, m: Mount) returns (out: Bytes)
    ensures out == h + MountBytes(m)
  {
    var a, b, c, d := Field(m.name), Field(m.source), Field(m.destination), Field(ModeText(m.mode));
    out := h + a + b + c + d;
    ghost var plain := out;
    match m.upper {
      case None =>
      case Some(Tmpfs) => out := out + Field(Ascii("upper-tmpfs"));
      case Some(Volume(name)) => out := out + Field(Ascii("upper-volume")) + Field(name);
    }
    assert out == plain + UpperBytes(m.upper);
    Regroup(h, a, b, c, d, UpperBytes(m.upper));
    Regroup([], a, b, c, d, UpperBytes(m.upper));
    assert [] + a == a;
  }

  method AppendEachMount(h: Bytes, sorted: seq<Mount>) returns (out: Bytes)
    ensures out == h + EncodeAll(sorted, MountBytes)
  {
    out := h;
    for i := 0 to |sorted|
      invariant out == h + EncodeAll(sorted[..i], MountBytes)
    {
      ghost var before := out;
      out := AppendMount(out, sorted[i]);
      Grown(h, sorted, i, MountBytes, before, out);
    }
    assert sorted[..|sorted|] == sorted;
  }

  method AppendMounts(h: Bytes, mounts: Items<Mount>) returns (out: Bytes)
    ensures out == h + ListBytes(Ascii("mounts"), SortItems(mounts, MountLe), MountBytes)
  {
    var sorted := SortItems(mounts, MountLe);
    out := AppendEachMount(h + CountBytes(Ascii("mounts"), |sorted|), sorted);
    Listed(h, Ascii("mounts"), sorted, MountBytes);
  }

  method AppendTexts(h: Bytes, texts: Items<Text>) returns (out: Bytes)
    ensures out == h + ListBytes(Ascii("tmpfs"), SortItems(texts, BytesLe), TextField)
  {
    var sorted := SortItems(texts, BytesLe);
    out := h + CountBytes(Ascii("tmpfs"), |sorted|);
    ghost var start := out;
    for i := 0 to |sorted|
      invariant out == start + EncodeAll(sorted[..i], TextField)
    {
      EncodeAppend(sorted, i, TextField);
      out := out + Field(sorted[i]);
    }
    assert sorted[..|sorted|] == sorted;
  }

  method AppendVariable(h: Bytes, e: EnvVar) returns (out: Bytes)
    ensures out == h + EnvBytes(e)
  {
    out := h + Field(e.key) + Field(e.value);
  }

  method AppendEnv(h: Bytes, env: Items<EnvVar>) returns (out: Bytes)
    ensures out == h + ListBytes(Ascii("env"), env, EnvBytes)
  {
    out := h + CountBytes(Ascii("env"), |env|);
    ghost var start := out;
    for i := 0 to |env|
      invariant out == start + EncodeAll(env[..i], EnvBytes)
    {
      ghost var before := out;
      out := AppendVariable(out, env[i]);
      Grown(start, env, i, EnvBytes, before, out);
    }
    assert env[..|env|] == env;
  }

  method AppendEachField(h: Bytes, texts: seq<Blob>) returns (out: Bytes)
    ensures out == h + EncodeAll(texts, Field)
  {
    out := h;
    for i := 0 to |texts|
      invariant out == h + EncodeAll(texts[..i], Field)
    {
      ghost var before := out;
      out := out + Field(texts[i]);
      Grown(h, texts, i, Field, before, out);
    }
    assert texts[..|texts|] == texts;
  }

  method AppendGuest(h: Bytes, guest: Option<Guest>) returns (out: Bytes)
    ensures var view := match guest { case Some(g) => Some(ViewGuest(g)) case None => None };
            out == h + Field(GuestTag(view)) + GuestRest(view)
  {
    match guest {
      case None => out := h + Field(Ascii("guest-absent"));
      case Some(g) =>
        var texts := GuestTexts(ViewGuest(g));
        out := AppendEachField(h + Field(Ascii("guest-present")), texts);
    }
  }

  method AppendTail(h: Bytes, s: Stack) returns (out: Bytes)
    ensures out == h + TailBytes(View(s), [])
  {
    ghost var v := View(s);
    var a, b := Field(TextOr(s.kind)), Field(FlagText(s.acknowledged));
    out := AppendGuest(h + a + b, s.guest);
    ghost var c, d := Field(GuestTag(v.guest)), GuestRest(v.guest);
    Regroup(h, a, b, c, d, []);
    assert out == h + a + b + c + d;
  }

  method AppendLists(h: Bytes, s: Stack) returns (out: Bytes)
    ensures out == h + ListsBytes(View(s), [])
  {
    ghost var v := View(s);
    ghost var a := ListBytes(Ascii("volumes"), v.volumes, VolumeBytes);
    ghost var b := ListBytes(Ascii("mounts"), v.mounts, MountBytes);
    ghost var c := ListBytes(Ascii("tmpfs"), v.tmpfs, TextField);
    ghost var d := ListBytes(Ascii("env"), v.env, EnvBytes);
    out := AppendVolumes(h, s.volumes);
    out := AppendMounts(out, s.mounts);
    out := AppendTexts(out, s.tmpfs);
    out := AppendEnv(out, s.env);
    out := AppendTail(out, s);
    Regroup(h, a, b, c, d, TailBytes(v, []));
  }

  lemma {:induction false} HeadFirst(h: Bytes, t: Bytes, a: Bytes, b: Bytes, c: Bytes, d: Bytes, rest: Bytes)
    ensures h + t + a + b + c + d + rest == h + (t + (a + (b + (c + (d + rest)))))
  {
    Regroup(h + t, a, b, c, d, rest);
  }

  method AppendHead(h: Bytes, s: Stack) returns (out: Bytes)
    ensures out == h + Field(Ascii("stack-v1")) + Field(s.name) + Field(TextOr(s.dockerfile)) + Field(TextOr(s.image)) + Field(TextOr(s.family))
  {
    out := h + Field(Ascii("stack-v1"));
    out := out + Field(s.name);
    out := out + Field(TextOr(s.dockerfile));
    out := out + Field(TextOr(s.image));
    out := out + Field(TextOr(s.family));
  }

  /** `stack_fields`: sort each list and append it to the hasher's input. */
  method StackFields(h: Bytes, s: Stack) returns (out: Bytes)
    ensures out == h + StackBytes(View(s), [])
  {
    out := AppendHead(h, s);
    out := AppendLists(out, s);
    ghost var t, n, f, i, y := Field(Ascii("stack-v1")), Field(s.name), Field(TextOr(s.dockerfile)), Field(TextOr(s.image)), Field(TextOr(s.family));
    HeadFirst(h, t, n, f, i, y, ListsBytes(View(s), []));
  }

  // ------------------------------------------------------ the whole content digest

  datatype DigestError = RootMismatch | InvalidPath(path: Text) | DuplicatePath(path: Text)

  /** The bytes seen as characters: `/`, `.` and `\\` are single bytes of UTF-8. */
  function Chars(b: Bytes): string {
    seq(|b|, i requires 0 <= i < |b| => b[i] as char)
  }

  predicate ValidRelative(path: Text) {
    && path != []
    && path[0] != 47
    && (forall part :: part in Split(Chars(path)) ==> part != "" && part != "." && part != "..")
    && 92 !in path
  }

  ghost predicate AllValid(entries: seq<ContextEntry>) {
    forall e :: e in entries ==> ValidRelative(e.path)
  }

  lemma {:induction false} DistinctMoves(a: seq<ContextEntry>, b: seq<ContextEntry>)
    requires multiset(a) == multiset(b) && DistinctPaths(a)
    ensures DistinctPaths(b)
  {
    assert NoDup(a);
    NoDupMultiset(a);
    NoDupFromMultiset(b);
    forall i, j | 0 <= i < j < |b| ensures b[i].path != b[j].path {
      assert b[i] in multiset(a) && b[j] in multiset(a);
      var k :| 0 <= k < |a| && a[k] == b[i];
      var l :| 0 <= l < |a| && a[l] == b[j];
      assert k != l;
    }
  }

  lemma {:induction false} SortKeepsPaths(entries: seq<ContextEntry>)
    ensures DistinctPaths(Sort(entries, EntryLe)) <==> DistinctPaths(entries)
    ensures AllValid(Sort(entries, EntryLe)) <==> AllValid(entries)
  {
    SortMultiset(entries, EntryLe);
    SortMembers(entries, EntryLe);
    if DistinctPaths(entries) {
      DistinctMoves(entries, Sort(entries, EntryLe));
    }
    if DistinctPaths(Sort(entries, EntryLe)) {
      DistinctMoves(Sort(entries, EntryLe), entries);
    }
  }

  method AppendEntry(h: Bytes, e: ContextEntry) returns (out: Bytes)
    ensures out == h + EntryBytes(e)
  {
    var mark := Mark();
    var a, b, c;
    match e {
      case File(path, bytes, executable) =>
        a, b, c := Field(if executable then Ascii("file+x") else Ascii("file")), Field(path), Field(bytes);
      case Directory(path) =>
        a, b, c := Field(Ascii("dir")), Field(path), Field([]);
      case Symlink(path, target) =>
        a, b, c := Field(Ascii("link")), Field(path), Field(target);
    }
    out := h + mark + a + b + c;
    Regroup(h, mark, a, b, c, []);
    assert c + [] == c;
  }

  /** The first `i` paths are valid and distinct, and `seen` holds exactly those. */
  ghost predicate Admitted(sorted: seq<ContextEntry>, i: nat, seen: set<Text>)
    requires i <= |sorted|
  {
    && (forall k :: 0 <= k < i ==> ValidRelative(sorted[k].path) && sorted[k].path in seen)
    && (forall p :: p in seen ==> exists k :: 0 <= k < i && sorted[k].path == p)
    && DistinctPaths(sorted[..i])
  }

  function HasPath(p: Text): ContextEntry -> bool {
    (e: ContextEntry) => e.path == p
  }

  /** What an error reported about a listing may say. */
  ghost predicate Blames(entries: seq<ContextEntry>, e: DigestError) {
    match e
    case RootMismatch => false
    case InvalidPath(p) => !ValidRelative(p) && exists x :: x in entries && x.path == p
    case DuplicatePath(p) => |Lists.Filter(entries, HasPath(p))| >= 2
  }

  method Admit(sorted: seq<ContextEntry>, i: nat, seen: set<Text>) returns (r: Result<set<Text>, DigestError>)
    requires i < |sorted| && Admitted(sorted, i, seen)
    ensures r.Ok? ==> Admitted(sorted, i + 1, r.value)
    ensures r.Err? ==> Blames(sorted, r.error)
  {
    var path := sorted[i].path;
    if !ValidRelative(path) {
      assert sorted[i] in sorted;
      return Err(InvalidPath(path));
    }
    if path in seen {
      ghost var k :| 0 <= k < i && sorted[k].path == path;
      Lists.FilterTwo(sorted, HasPath(path), k, i);
      return Err(DuplicatePath(path));
    }
    assert forall k :: 0 <= k < i ==> sorted[..i + 1][k] == sorted[..i][k];
    r := Ok(seen + {path});
  }

  lemma {:induction false} BlameRefuses(entries: seq<ContextEntry>, e: DigestError)
    requires Blames(entries, e)
    ensures !AllValid(entries) || !DistinctPaths(entries)
  {
    if e.DuplicatePath? && DistinctPaths(entries) {
      PathOnce(entries, e.path);
    }
  }

  lemma {:induction false} PathOnce(entries: seq<ContextEntry>, p: Text)
    requires DistinctPaths(entries)
    ensures |Lists.Filter(entries, HasPath(p))| <= 1
  {
    if entries != [] {
      var rest := entries[1..];
      PathOnce(rest, p);
      Lists.FilterMembers(rest, HasPath(p));
      var found := Lists.Filter(rest, HasPath(p));
      assert found != [] ==> found[0] in rest && found[0].path == p;
    }
  }

  /** Every path is checked in sorted order, then its record is appended. */
  method AppendEntries(h: Bytes, sorted: seq<ContextEntry>) returns (r: Result<Bytes, DigestError>)
    ensures r.Ok? <==> AllValid(sorted) && DistinctPaths(sorted)
    ensures r.Ok? ==> r.value == h + EncodeAll(sorted, EntryBytes)
    ensures r.Err? ==> Blames(sorted, r.error)
  {
    var out := h;
    var seen: set<Text> := {};
    for i := 0 to |sorted|
      invariant Admitted(sorted, i, seen)
      invariant out == h + EncodeAll(sorted[..i], EntryBytes)
    {
      var admitted := Admit(sorted, i, seen);
      if admitted.Err? {
        BlameRefuses(sorted, admitted.error);
        return Err(admitted.error);
      }
      seen := admitted.value;
      ghost var before := out;
      out := AppendEntry(out, sorted[i]);
      Grown(h, sorted, i, EntryBytes, before, out);
    }
    assert sorted[..|sorted|] == sorted;
    r := Ok(out);
  }

  lemma {:induction false} BlameMoves(a: seq<ContextEntry>, b: seq<ContextEntry>, e: DigestError)
    requires multiset(a) == multiset(b) && Blames(a, e)
    ensures Blames(b, e)
  {
    match e {
      case RootMismatch =>
      case InvalidPath(p) =>
        var x :| x in a && x.path == p;
        assert x in multiset(b);
      case DuplicatePath(p) =>
        Lists.FilterReorder(a, b, HasPath(p));
    }
  }

  /**
   * `content_digest` up to the final hash: accepted exactly when the roots agree and every path is
   * relative and listed once, and then the hasher has read `ContentBytes`.
   */
  method ContentStream(expected: Text, observed: Text, s: Stack, entries: seq<ContextEntry>) returns (r: Result<Bytes, DigestError>)
    ensures r.Ok? <==> expected == observed && AllValid(entries) && DistinctPaths(entries)
    ensures r.Ok? ==> r.value == ContentBytes(s, entries)
    ensures r.Err? && expected != observed ==> r.error == RootMismatch
    ensures r.Err? && expected == observed ==> Blames(entries, r.error)
  {
    if expected != observed {
      return Err(RootMismatch);
    }
    var h := StackFields(Field(Ascii("bosn-generation-content-v1")), s);
    var sorted := Sort(entries, EntryLe);
    r := AppendEntries(h, sorted);
    SortKeepsPaths(entries);
    if r.Err? {
      SortMultiset(entries, EntryLe);
      BlameMoves(sorted, entries, r.error);
    } else {
      StreamParts(s, sorted);
    }
  }

  lemma {:induction false} StreamParts(s: Stack, sorted: seq<ContextEntry>)
    ensures Field(Ascii("bosn-generation-content-v1")) + StackBytes(View(s), []) + EncodeAll(sorted, EntryBytes)
         == Field(Ascii("bosn-generation-content-v1")) + StackBytes(View(s), EncodeAll(sorted, EntryBytes))
  {
    var records := EncodeAll(sorted, EntryBytes);
    StackRest(View(s), records);
    Prefixed(Field(Ascii("bosn-generation-content-v1")), StackBytes(View(s), []), records, StackBytes(View(s), records));
  }

  lemma {:induction false} Prefixed(t: Bytes, a: Bytes, b: Bytes, c: Bytes)
    requires a + b == c
    ensures t + a + b == t + c
  {
  }

  lemma {:induction false} Reassociate(a: Bytes, b: Bytes, c: Bytes, d: Bytes, e: Bytes, rest: Bytes)
    ensures a + (b + (c + (d + e))) + rest == a + (b + (c + (d + (e + rest))))
  {
  }

  lemma {:induction false} HeadRest(t: Bytes, a: Bytes, b: Bytes, c: Bytes, d: Bytes, e: Bytes, rest: Bytes)
    ensures t + (a + (b + (c + (d + e)))) + rest == t + (a + (b + (c + (d + (e + rest)))))
  {
    Reassociate(a, b, c, d, e, rest);
    assert t + (a + (b + (c + (d + e)))) + rest == t + ((a + (b + (c + (d + e)))) + rest);
  }

  lemma {:induction false} StackRest(v: StackView, rest: Bytes)
    ensures StackBytes(v, []) + rest == StackBytes(v, rest)
  {
    TailRest(v, rest);
    ListsRest(v, rest);
    var t, n, f, i, y := Field(Ascii("stack-v1")), Field(v.name), Field(v.dockerfile), Field(v.image), Field(v.family);
    HeadRest(t, n, f, i, y, ListsBytes(v, []), rest);
  }

  lemma {:induction false} ListsRest(v: StackView, rest: Bytes)
    requires TailBytes(v, []) + rest == TailBytes(v, rest)
    ensures ListsBytes(v, []) + rest == ListsBytes(v, rest)
  {
    Reassociate(ListBytes(Ascii("volumes"), v.volumes, VolumeBytes), ListBytes(Ascii("mounts"), v.mounts, MountBytes),
                ListBytes(Ascii("tmpfs"), v.tmpfs, TextField), ListBytes(Ascii("env"), v.env, EnvBytes), TailBytes(v, []), rest);
  }

  lemma {:induction false} TailRest(v: StackView, rest: Bytes)
    ensures TailBytes(v, []) + rest == TailBytes(v, rest)
  {
    var a, b, c, d := Field(v.kind), Field(FlagText(v.acknowledged)), Field(GuestTag(v.guest)), GuestRest(v.guest);
    Reassociate(a, b, c, d, [], rest);
    assert [] + rest == rest;
  }
}
