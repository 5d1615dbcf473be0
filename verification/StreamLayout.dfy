/** The hashed streams as tables: which pieces they are made of, in which order, read off the inputs. */
module StreamLayout {
  import opened Common
  import opened Order
  import opened Digest
  import opened GenerationKeys

  /** Framed bytes, a count of eight bytes, or bytes as they are. */
  datatype Piece = Framed(b: Blob) | Counted(n: nat) | Raw(raw: Bytes)

  function PieceBytes(p: Piece): Bytes {
    match p
    case Framed(b) => Length(|b|) + b
    case Counted(n) => Length(n)
    case Raw(b) => b
  }

  function Tag(s: string): Piece
    requires |s| < U64
  {
    Framed(Ascii(s))
  }

  function Each<T>(s: seq<T>, f: T -> seq<Piece>): seq<Piece> {
    if s == [] then [] else f(s[0]) + Each(s[1..], f)
  }

  function Written(ps: seq<Piece>): Bytes {
    EncodeAll(ps, PieceBytes)
  }

  // ------------------------------------------------------------------- the tables

  function VolumePieces(v: StackVolume): seq<Piece> {
    [Framed(v.name),
     Tag(match v.scope { case SpecScope => "spec" case StackScope => "stack" case MachineScope => "machine" }),
     Framed(match v.destination { case Some(d) => d case None => Ascii("/bosn/") + v.name }),
     Tag(match v.retention { case Warm => "warm" case Pinned => "pinned" })]
  }

  function MountPieces(m: Mount): seq<Piece> {
    [Framed(m.name), Framed(m.source), Framed(m.destination),
     Tag(match m.mode { case Rw => "0" case Ro => "1" case Overlay => "overlay" })]
    + match m.upper
      case None => []
      case Some(Tmpfs) => [Tag("upper-tmpfs")]
      case Some(Volume(name)) => [Tag("upper-volume"), Framed(name)]
  }

  function EnvPieces(e: EnvVar): seq<Piece> {
    [Framed(e.key), Framed(e.value)]
  }

  function TextPieces(t: Text): seq<Piece> {
    [Framed(t)]
  }

  function GuestPieces(g: Guest): seq<Piece> {
    [Framed(NatText(g.sshPort)), Framed(g.sshUser), Framed(g.sshHost), Framed(NatText(g.webPort)),
     Framed(NatText(g.readyTimeout)), Framed(NatText(g.readyPoll)), Framed(g.version), Framed(g.ramSize), Framed(g.diskSize),
     Framed(match g.cpuCores { case Some(n) => NatText(n) case None => [] }),
     Framed(match g.payload { case Some(b) => b case None => [] }), Framed(g.payloadDestination)]
  }

  /** A text, or the empty one. */
  function Optional(o: Option<Text>): Piece {
    Framed(match o { case Some(b) => b case None => [] })
  }

  function HeadPieces(s: Stack): seq<Piece> {
    [Tag("stack-v1"), Framed(s.name), Optional(s.dockerfile), Optional(s.image), Optional(s.family)]
  }

  function ListPieces(s: Stack): seq<Piece> {
    ([Tag("volumes"), Counted(|s.volumes|)] + Each(Sort(s.volumes, VolumeLe), VolumePieces)) +
    (([Tag("mounts"), Counted(|s.mounts|)] + Each(Sort(s.mounts, MountLe), MountPieces)) +
     (([Tag("tmpfs"), Counted(|s.tmpfs|)] + Each(Sort(s.tmpfs, BytesLe), TextPieces)) +
      ([Tag("env"), Counted(|s.env|)] + Each(s.env, EnvPieces))))
  }

  function TailPieces(s: Stack): seq<Piece> {
    [Optional(s.kind), Tag(if s.acknowledged then "1" else "0")]
    + match s.guest
      case None => [Tag("guest-absent")]
      case Some(g) => [Tag("guest-present")] + GuestPieces(g)
  }

  function EntryPieces(e: ContextEntry): seq<Piece> {
    [Raw([0] + Ascii("path-record") + [0])]
    + match e
      case File(path, bytes, executable) => [Tag(if executable then "file+x" else "file"), Framed(path), Framed(bytes)]
      case Directory(path) => [Tag("dir"), Framed(path), Framed([])]
      case Symlink(path, target) => [Tag("link"), Framed(path), Framed(target)]
  }

  function StackPieces(s: Stack): seq<Piece> {
    HeadPieces(s) + (ListPieces(s) + TailPieces(s))
  }

  function ContentPieces(s: Stack, entries: seq<ContextEntry>): seq<Piece> {
    [Tag("bosn-generation-content-v1")] + (StackPieces(s) + Each(Sort(entries, EntryLe), EntryPieces))
  }

  function ResolvedPieces(i: External): seq<Piece> {
    [Framed(i.reference), Optional(i.platform), Optional(i.identity)]
  }

  function CoalescedPieces(i: External): seq<Piece> {
    [Framed(i.reference), Optional(i.platform)]
    + match i.identity
      case Some(t) => [Tag("identity-present"), Framed(t)]
      case None => [Tag("identity-missing"), Tag("<unresolved>")]
  }

  // -------------------------------------------------------------------- what they write

  lemma {:induction false} WrittenConcat(a: seq<Piece>, b: seq<Piece>)
    ensures Written(a + b) == Written(a) + Written(b)
  {
    if a == [] {
      assert a + b == b;
    } else {
      assert (a + b)[1..] == a[1..] + b;
      WrittenConcat(a[1..], b);
      Associates(PieceBytes(a[0]), Written(a[1..]), Written(b));
    }
  }

  lemma {:induction false} Associates(a: Bytes, b: Bytes, c: Bytes)
    ensures a + (b + c) == (a + b) + c
  {
  }

  lemma {:induction false} WrittenOne(p: Piece)
    ensures Written([p]) == PieceBytes(p)
  {
    assert [p][1..] == [];
    assert Written([]) == [];
  }

  lemma {:induction false} WrittenNext(p: Piece, ps: seq<Piece>)
    ensures Written([p] + ps) == PieceBytes(p) + Written(ps)
  {
    WrittenConcat([p], ps);
    WrittenOne(p);
  }

  lemma {:induction false} WrittenTwo(a: Piece, b: Piece)
    ensures Written([a, b]) == PieceBytes(a) + PieceBytes(b)
  {
    assert [a, b] == [a] + [b];
    WrittenNext(a, [b]);
    WrittenOne(b);
  }

  lemma {:induction false} WrittenThree(a: Piece, b: Piece, c: Piece)
    ensures Written([a, b, c]) == PieceBytes(a) + (PieceBytes(b) + PieceBytes(c))
  {
    assert [a, b, c] == [a] + [b, c];
    WrittenNext(a, [b, c]);
    WrittenTwo(b, c);
  }

  lemma {:induction false} WrittenFour(a: Piece, b: Piece, c: Piece, d: Piece)
    ensures Written([a, b, c, d]) == PieceBytes(a) + PieceBytes(b) + PieceBytes(c) + PieceBytes(d)
  {
    assert [a, b, c, d] == [a, b] + [c, d];
    WrittenConcat([a, b], [c, d]);
    WrittenTwo(a, b);
    WrittenTwo(c, d);
    Associates(PieceBytes(a) + PieceBytes(b), PieceBytes(c), PieceBytes(d));
  }

  /** Writing the pieces of each element is writing each element. */
  lemma {:induction false} EachWritten<S, T>(s: seq<S>, views: seq<T>, f: S -> seq<Piece>, enc: T -> Bytes)
    requires |views| == |s| && forall i :: 0 <= i < |s| ==> Written(f(s[i])) == enc(views[i])
    ensures Written(Each(s, f)) == EncodeAll(views, enc)
  {
    if s != [] {
      var rest, after := s[1..], views[1..];
      assert forall i :: 0 <= i < |rest| ==> rest[i] == s[i + 1] && after[i] == views[i + 1];
      EachWritten(rest, after, f, enc);
      WrittenConcat(f(s[0]), Each(rest, f));
    }
  }

  lemma {:induction false} CountedList<S, T>(tag: Blob, s: seq<S>, views: seq<T>, f: S -> seq<Piece>, enc: T -> Bytes)
    requires |views| == |s| && forall i :: 0 <= i < |s| ==> Written(f(s[i])) == enc(views[i])
    ensures Written([Framed(tag), Counted(|s|)] + Each(s, f)) == ListBytes(tag, views, enc)
  {
    WrittenConcat([Framed(tag), Counted(|s|)], Each(s, f));
    WrittenTwo(Framed(tag), Counted(|s|));
    EachWritten(s, views, f, enc);
  }

  lemma {:induction false} VolumeWritten(v: StackVolume)
    ensures Written(VolumePieces(v)) == VolumeBytes(ViewVolume(v))
  {
    var ps := VolumePieces(v);
    assert ps == [ps[0], ps[1], ps[2], ps[3]];
    WrittenFour(ps[0], ps[1], ps[2], ps[3]);
  }

  lemma {:induction false} MountWritten(m: Mount)
    ensures Written(MountPieces(m)) == MountBytes(m)
  {
    var ps := MountPieces(m);
    var head, upper := ps[..4], ps[4..];
    assert ps == head + upper && head == [ps[0], ps[1], ps[2], ps[3]];
    WrittenConcat(head, upper);
    WrittenFour(ps[0], ps[1], ps[2], ps[3]);
    match m.upper {
      case None => assert upper == [];
      case Some(Tmpfs) => WrittenOne(Tag("upper-tmpfs"));
      case Some(Volume(name)) => WrittenTwo(Tag("upper-volume"), Framed(name));
    }
  }

  lemma {:induction false} EntryWritten(e: ContextEntry)
    ensures Written(EntryPieces(e)) == EntryBytes(e)
  {
    var ps := EntryPieces(e);
    assert ps == [ps[0]] + [ps[1], ps[2], ps[3]];
    WrittenNext(ps[0], [ps[1], ps[2], ps[3]]);
    WrittenThree(ps[1], ps[2], ps[3]);
  }

  lemma {:induction false} FramesWritten(ps: seq<Piece>, texts: seq<Blob>)
    requires |ps| == |texts| && forall i :: 0 <= i < |ps| ==> ps[i] == Framed(texts[i])
    ensures Written(ps) == EncodeAll(texts, Field)
  {
    if ps != [] {
      FramesWritten(ps[1..], texts[1..]);
    }
  }

  lemma {:induction false} GuestWritten(s: Stack, guest: seq<Piece>)
    requires guest == match s.guest case None => [Tag("guest-absent")] case Some(g) => [Tag("guest-present")] + GuestPieces(g)
    ensures Written(guest) == Field(GuestTag(View(s).guest)) + GuestRest(View(s).guest)
  {
    match s.guest {
      case None => WrittenOne(Tag("guest-absent"));
      case Some(g) =>
        WrittenNext(Tag("guest-present"), GuestPieces(g));
        FramesWritten(GuestPieces(g), GuestTexts(ViewGuest(g)));
    }
  }

  lemma {:induction false} TailWritten(s: Stack, rest: Bytes)
    ensures Written(TailPieces(s)) + rest == TailBytes(View(s), rest)
  {
    var ps, v := TailPieces(s), View(s);
    var guest := ps[2..];
    assert ps == [ps[0]] + ([ps[1]] + guest);
    WrittenNext(ps[0], [ps[1]] + guest);
    WrittenNext(ps[1], guest);
    GuestWritten(s, guest);
    Nested(Field(v.kind), Field(FlagText(v.acknowledged)), Field(GuestTag(v.guest)), GuestRest(v.guest), rest);
  }

  lemma {:induction false} Nested(a: Bytes, b: Bytes, c: Bytes, d: Bytes, e: Bytes)
    ensures a + (b + (c + d)) + e == a + (b + (c + (d + e)))
  {
  }

  lemma {:induction false} VolumesWritten(s: Stack)
    ensures Written([Tag("volumes"), Counted(|s.volumes|)] + Each(Sort(s.volumes, VolumeLe), VolumePieces)) ==
            ListBytes(Ascii("volumes"), View(s).volumes, VolumeBytes)
  {
    var sorted, views := SortItems(s.volumes, VolumeLe), View(s).volumes;
    SortMultiset(s.volumes, VolumeLe);
    forall i | 0 <= i < |sorted| ensures Written(VolumePieces(sorted[i])) == VolumeBytes(views[i]) {
      VolumeWritten(sorted[i]);
    }
    CountedList(Ascii("volumes"), sorted, views, VolumePieces, VolumeBytes);
  }

  lemma {:induction false} MountsWritten(s: Stack)
    ensures Written([Tag("mounts"), Counted(|s.mounts|)] + Each(Sort(s.mounts, MountLe), MountPieces)) ==
            ListBytes(Ascii("mounts"), View(s).mounts, MountBytes)
  {
    var sorted := SortItems(s.mounts, MountLe);
    SortMultiset(s.mounts, MountLe);
    forall i | 0 <= i < |sorted| ensures Written(MountPieces(sorted[i])) == MountBytes(sorted[i]) {
      MountWritten(sorted[i]);
    }
    CountedList(Ascii("mounts"), sorted, sorted, MountPieces, MountBytes);
  }

  lemma {:induction false} TextsWritten(s: Stack)
    ensures Written([Tag("tmpfs"), Counted(|s.tmpfs|)] + Each(Sort(s.tmpfs, BytesLe), TextPieces)) ==
            ListBytes(Ascii("tmpfs"), View(s).tmpfs, TextField)
  {
    var sorted := SortItems(s.tmpfs, BytesLe);
    SortMultiset(s.tmpfs, BytesLe);
    forall i | 0 <= i < |sorted| ensures Written(TextPieces(sorted[i])) == TextField(sorted[i]) {
      WrittenOne(Framed(sorted[i]));
    }
    CountedList(Ascii("tmpfs"), sorted, sorted, TextPieces, TextField);
  }

  lemma {:induction false} EnvWritten(s: Stack)
    ensures Written([Tag("env"), Counted(|s.env|)] + Each(s.env, EnvPieces)) == ListBytes(Ascii("env"), View(s).env, EnvBytes)
  {
    forall i | 0 <= i < |s.env| ensures Written(EnvPieces(s.env[i])) == EnvBytes(s.env[i]) {
      WrittenTwo(Framed(s.env[i].key), Framed(s.env[i].value));
    }
    CountedList(Ascii("env"), s.env, s.env, EnvPieces, EnvBytes);
  }

  lemma {:induction false} ListsWritten(s: Stack, rest: Bytes)
    ensures Written(ListPieces(s)) + TailBytes(View(s), rest) == ListsBytes(View(s), rest)
  {
    var a := [Tag("volumes"), Counted(|s.volumes|)] + Each(Sort(s.volumes, VolumeLe), VolumePieces);
    var b := [Tag("mounts"), Counted(|s.mounts|)] + Each(Sort(s.mounts, MountLe), MountPieces);
    var c := [Tag("tmpfs"), Counted(|s.tmpfs|)] + Each(Sort(s.tmpfs, BytesLe), TextPieces);
    var d := [Tag("env"), Counted(|s.env|)] + Each(s.env, EnvPieces);
    WrittenConcat(a, b + (c + d));
    WrittenConcat(b, c + d);
    WrittenConcat(c, d);
    VolumesWritten(s);
    MountsWritten(s);
    TextsWritten(s);
    EnvWritten(s);
    Nested(Written(a), Written(b), Written(c), Written(d), TailBytes(View(s), rest));
  }

  lemma {:induction false} HeadWritten(s: Stack, rest: Bytes)
    ensures var v := View(s);
            Written(HeadPieces(s)) + rest ==
            Field(Ascii("stack-v1")) + (Field(v.name) + (Field(v.dockerfile) + (Field(v.image) + (Field(v.family) + rest))))
  {
    var ps := HeadPieces(s);
    assert ps == [ps[0]] + [ps[1], ps[2], ps[3], ps[4]];
    WrittenNext(ps[0], [ps[1], ps[2], ps[3], ps[4]]);
    WrittenFour(ps[1], ps[2], ps[3], ps[4]);
    FiveThen(PieceBytes(ps[0]), PieceBytes(ps[1]), PieceBytes(ps[2]), PieceBytes(ps[3]), PieceBytes(ps[4]), rest);
  }

  lemma {:induction false} FiveThen(a: Bytes, b: Bytes, c: Bytes, d: Bytes, e: Bytes, rest: Bytes)
    ensures a + (b + c + d + e) + rest == a + (b + (c + (d + (e + rest))))
  {
  }

  /** The stack part of every stream: its fields, counts, tags and lists in this order, each list sorted. */
  lemma {:induction false} StackLayout(s: Stack, rest: Bytes)
    ensures StackBytes(View(s), rest) == Written(StackPieces(s)) + rest
  {
    var lists, tail := ListPieces(s), TailPieces(s);
    WrittenConcat(HeadPieces(s), lists + tail);
    WrittenConcat(lists, tail);
    TailWritten(s, rest);
    ListsWritten(s, rest);
    HeadWritten(s, ListsBytes(View(s), rest));
    Rejoin(Written(HeadPieces(s)), Written(lists), Written(tail), rest);
  }

  lemma {:induction false} Rejoin(a: Bytes, b: Bytes, c: Bytes, d: Bytes)
    ensures a + (b + c) + d == a + (b + (c + d))
  {
  }

  /** The pre-image of a content digest, piece by piece. */
  lemma {:induction false} ContentLayout(s: Stack, entries: seq<ContextEntry>)
    ensures ContentBytes(s, entries) == Written(ContentPieces(s, entries))
  {
    var sorted := Sort(entries, EntryLe);
    forall i | 0 <= i < |sorted| ensures Written(EntryPieces(sorted[i])) == EntryBytes(sorted[i]) {
      EntryWritten(sorted[i]);
    }
    EachWritten(sorted, sorted, EntryPieces, EntryBytes);
    StackLayout(s, EncodeAll(sorted, EntryBytes));
    WrittenNext(Tag("bosn-generation-content-v1"), StackPieces(s) + Each(sorted, EntryPieces));
    WrittenConcat(StackPieces(s), Each(sorted, EntryPieces));
  }

  lemma {:induction false} ResolvedWritten(i: External)
    ensures Written(ResolvedPieces(i)) == ResolvedRecord(ReadResolved(i))
  {
    var ps := ResolvedPieces(i);
    assert ps == [ps[0], ps[1], ps[2]];
    WrittenThree(ps[0], ps[1], ps[2]);
    Associates(PieceBytes(ps[0]), PieceBytes(ps[1]), PieceBytes(ps[2]));
  }

  lemma {:induction false} CoalescedWritten(i: External)
    ensures Written(CoalescedPieces(i)) == CoalescedRecord(ReadCoalesced(i))
  {
    var ps := CoalescedPieces(i);
    assert ps == [ps[0], ps[1], ps[2], ps[3]];
    WrittenFour(ps[0], ps[1], ps[2], ps[3]);
  }

  /** The pre-images of the two generation keys, piece by piece. */
  lemma {:induction false} KeyLayout(content: Text, images: seq<External>)
    ensures ResolvedBytes(content, images) ==
            Written([Tag("bosn-generation-resolved-v1"), Framed(content)] + Each(Sort(images, GenerationKeys.KeyLe), ResolvedPieces))
    ensures CoalescingBytes(content, images) ==
            Written([Tag("bosn-generation-coalescing-v1"), Framed(content)] + Each(Sort(images, FullLe), CoalescedPieces))
  {
    var a, b := Sort(images, GenerationKeys.KeyLe), Sort(images, FullLe);
    forall i | 0 <= i < |a| ensures Written(ResolvedPieces(a[i])) == ResolvedRecord(ResolvedReads(images)[i]) {
      ResolvedWritten(a[i]);
    }
    forall i | 0 <= i < |b| ensures Written(CoalescedPieces(b[i])) == CoalescedRecord(CoalescedReads(images)[i]) {
      CoalescedWritten(b[i]);
    }
    EachWritten(a, ResolvedReads(images), ResolvedPieces, ResolvedRecord);
    EachWritten(b, CoalescedReads(images), CoalescedPieces, CoalescedRecord);
    Prefixed(Tag("bosn-generation-resolved-v1"), Framed(content), Each(a, ResolvedPieces));
    Prefixed(Tag("bosn-generation-coalescing-v1"), Framed(content), Each(b, CoalescedPieces));
  }

  lemma {:induction false} Prefixed(tag: Piece, content: Piece, rest: seq<Piece>)
    ensures Written([tag, content] + rest) == PieceBytes(tag) + (PieceBytes(content) + Written(rest))
  {
    assert [tag, content] + rest == [tag] + ([content] + rest);
    WrittenNext(tag, [content] + rest);
    WrittenNext(content, rest);
  }

  // --------------------------------------------------------------- the order of mounts

  /** The fields a mount is ordered by, each as bytes. */
  function MountKey(m: Mount): seq<Bytes> {
    [m.name, m.source, m.destination, [match m.mode { case Rw => 0 case Ro => 1 case Overlay => 2 }]]
    + match m.upper
      case None => []
      case Some(Tmpfs) => [[0]]
      case Some(Volume(name)) => [[1], name]
  }

  /** Lists of byte strings compared from the left; a list comes before its extensions. */
  predicate TupleLe(a: seq<Bytes>, b: seq<Bytes>) {
    a == [] || (b != [] && if a[0] != b[0] then BytesLe(a[0], b[0]) else TupleLe(a[1..], b[1..]))
  }

  lemma {:induction false} TupleNext(x: Bytes, a: seq<Bytes>, y: Bytes, b: seq<Bytes>)
    ensures TupleLe([x] + a, [y] + b) <==> if x != y then BytesLe(x, y) else TupleLe(a, b)
  {
    assert ([x] + a)[1..] == a && ([y] + b)[1..] == b;
  }

  function UpperKey(u: Option<Upper>): seq<Bytes> {
    match u
    case None => []
    case Some(Tmpfs) => [[0]]
    case Some(Volume(name)) => [[1], name]
  }

  lemma {:induction false} UpperInOrder(a: Option<Upper>, b: Option<Upper>)
    ensures UpperLe(a, b) <==> TupleLe(UpperKey(a), UpperKey(b))
  {
    match (a, b) {
      case (Some(Tmpfs), Some(Tmpfs)) => TupleNext([0], [], [0], []);
      case (Some(Tmpfs), Some(Volume(y))) =>
        assert [[1], y] == [[1]] + [y];
        TupleNext([0], [], [1], [y]);
      case (Some(Volume(x)), Some(Tmpfs)) =>
        assert [[1], x] == [[1]] + [x];
        TupleNext([1], [x], [0], []);
      case (Some(Volume(x)), Some(Volume(y))) =>
        assert [[1], x] == [[1]] + [x] && [[1], y] == [[1]] + [y];
        TupleNext([1], [x], [1], [y]);
        assert [x] == [x] + [] && [y] == [y] + [];
        TupleNext(x, [], y, []);
        BytesLeConnected(x, y);
      case _ =>
    }
  }

  /** Mounts are hashed in the order of their name, source, destination, mode and upper. */
  lemma {:induction false} MountsInOrder(a: Mount, b: Mount)
    ensures MountLe(a, b) <==> TupleLe(MountKey(a), MountKey(b))
  {
    var p, q: Bytes := MountKey(a)[3], MountKey(b)[3];
    var x, y := UpperKey(a.upper), UpperKey(b.upper);
    UpperInOrder(a.upper, b.upper);
    assert MountKey(a) == [a.name] + ([a.source] + ([a.destination] + ([p] + x)));
    assert MountKey(b) == [b.name] + ([b.source] + ([b.destination] + ([q] + y)));
    TupleNext(a.name, [a.source] + ([a.destination] + ([p] + x)), b.name, [b.source] + ([b.destination] + ([q] + y)));
    TupleNext(a.source, [a.destination] + ([p] + x), b.source, [b.destination] + ([q] + y));
    TupleNext(a.destination, [p] + x, b.destination, [q] + y);
    TupleNext(p, x, q, y);
    ModesInOrder(a.mode, b.mode, p, q);
  }

  lemma {:induction false} ModesInOrder(a: Mode, b: Mode, p: Bytes, q: Bytes)
    requires p == [match a { case Rw => 0 case Ro => 1 case Overlay => 2 }]
    requires q == [match b { case Rw => 0 case Ro => 1 case Overlay => 2 }]
    ensures (a == b <==> p == q) && (a != b ==> (ModeRank(a) <= ModeRank(b) <==> BytesLe(p, q)))
  {
    assert p[0] == q[0] <==> p == q;
  }
}
