/** Immutable image receipts from an engine that may answer anything, and the check that accepts them. */
module Resolver {
  import opened Common
  import opened Lists
  import opened Order

  const MAX_IMAGES := 256
  const MAX_VALUE_BYTES := 4096

  datatype Image = Image(reference: string, platform: Option<string>, identity: Option<string>)

  /** What makes two requirements the same image. */
  datatype Key = Key(reference: string, platform: Option<string>)

  function KeyOf(i: Image): Key {
    Key(i.reference, i.platform)
  }

  function Keys(images: seq<Image>): seq<Key> {
    Map(images, KeyOf)
  }

  // ------------------------------------------------------------------ text checks

  /** Unicode white space. */
  predicate IsSpace(c: char) {
    var v := c as int;
    9 <= v <= 13 || v == 32 || v == 0x85 || v == 0xA0 || v == 0x1680 || 0x2000 <= v <= 0x200A
    || v == 0x2028 || v == 0x2029 || v == 0x202F || v == 0x205F || v == 0x3000
  }

  function TrimStart(s: string): string {
    if s != "" && IsSpace(s[0]) then TrimStart(s[1..]) else s
  }

  function TrimEnd(s: string): string {
    if s != "" && IsSpace(s[|s| - 1]) then TrimEnd(s[..|s| - 1]) else s
  }

  function Trim(s: string): string {
    TrimEnd(TrimStart(s))
  }

  ghost predicate AllSpace(s: string) {
    forall i :: 0 <= i < |s| ==> IsSpace(s[i])
  }

  /** Trimming takes the white space off both ends and nothing else. */
  lemma {:induction false} TrimExact(s: string) returns (front: string, back: string)
    ensures s == front + Trim(s) + back && AllSpace(front) && AllSpace(back)
    ensures Trim(s) != "" ==> !IsSpace(Trim(s)[0]) && !IsSpace(Trim(s)[|Trim(s)| - 1])
  {
    front := TrimStartExact(s);
    back := TrimEndExact(TrimStart(s));
    assert s == front + (Trim(s) + back);
    assert Trim(s) != "" ==> TrimStart(s)[0] == Trim(s)[0];
  }

  lemma {:induction false} TrimStartExact(s: string) returns (front: string)
    ensures s == front + TrimStart(s) && AllSpace(front)
    ensures TrimStart(s) != "" ==> !IsSpace(TrimStart(s)[0])
  {
    front := "";
    if s != "" && IsSpace(s[0]) {
      var rest := TrimStartExact(s[1..]);
      front := [s[0]] + rest;
      assert s == [s[0]] + s[1..];
    }
  }

  lemma {:induction false} TrimEndExact(s: string) returns (back: string)
    ensures s == TrimEnd(s) + back && AllSpace(back)
    ensures TrimEnd(s) != "" ==> !IsSpace(TrimEnd(s)[|TrimEnd(s)| - 1])
  {
    back := "";
    if s != "" && IsSpace(s[|s| - 1]) {
      var rest := TrimEndExact(s[..|s| - 1]);
      back := rest + [s[|s| - 1]];
      assert s == s[..|s| - 1] + [s[|s| - 1]];
    }
  }

  predicate Blank(s: string) {
    Trim(s) == ""
  }

  predicate IsHexDigit(c: char) {
    '0' <= c <= '9' || 'a' <= c <= 'f' || 'A' <= c <= 'F'
  }

  predicate ValidDigest(s: string) {
    |s| == 71 && s[..7] == "sha256:" && forall i :: 7 <= i < |s| ==> IsHexDigit(s[i])
  }

  predicate BadValue(s: string) {
    s == "" || s[0] == '-' || '\0' in s
  }

  predicate Invalid(i: Image) {
    BadValue(i.reference) || (i.platform.Some? && BadValue(i.platform.value))
  }

  predicate TooLong(i: Image) {
    Utf8Size(i.reference) > MAX_VALUE_BYTES || (i.platform.Some? && Utf8Size(i.platform.value) > MAX_VALUE_BYTES)
  }

  predicate Missing(detail: string, reference: string) {
    var d := Trim(detail);
    || d == "Error response from daemon: No such image: " + reference
    || d == "Error response from daemon: No such object: " + reference
    || d == "No such image: " + reference
    || d == "No such object: " + reference
  }

  predicate Absent(detail: string, k: Key) {
    || Missing(detail, k.reference)
    || (&& k.platform.Some?
        && Trim(detail) == "Error response from daemon: image with reference " + k.reference
           + " was found but does not provide the specified platform (" + k.platform.value + ")")
  }

  /** The daemon's two phrases, with and without its prefix and with the newline it prints, say that the image is not there. */
  lemma {:induction false} PhrasesRead(reference: string)
    requires reference != "" && !IsSpace(reference[|reference| - 1])
    ensures Missing("Error response from daemon: No such image: " + reference + "\n", reference)
    ensures Missing("Error response from daemon: No such object: " + reference + "\n", reference)
    ensures Missing("No such image: " + reference + "\n", reference)
    ensures Missing("No such object: " + reference + "\n", reference)
  {
    LineTrimmed("Error response from daemon: No such image: ", reference);
    LineTrimmed("Error response from daemon: No such object: ", reference);
    LineTrimmed("No such image: ", reference);
    LineTrimmed("No such object: ", reference);
  }

  lemma {:induction false} LineTrimmed(front: string, back: string)
    requires front != "" && back != "" && !IsSpace(front[0]) && !IsSpace(back[|back| - 1])
    ensures Trim(front + back + "\n") == front + back
  {
    var line := front + back + "\n";
    assert line[0] == front[0];
    assert TrimStart(line) == line;
    assert line[..|line| - 1] == front + back && line[|line| - 1] == '\n';
    assert TrimEnd(line) == TrimEnd(front + back);
    assert (front + back)[|front + back| - 1] == back[|back| - 1];
  }

  // ------------------------------------------------------------------- the engine

  datatype Policy = ReadOnly | PullIfMissing

  datatype Command = Inspect(image: Key) | Pull(image: Key)

  /** `size` counts the bytes of both output streams. */
  datatype Reply = TransportFailed | Finished(ok: bool, stdout: string, stderr: string, size: nat)

  /**
   * Anything an engine may do: the answer to each command in turn, whether time is left before it,
   * and which error texts read as "no such image".
   */
  datatype Engine = Engine(replies: nat -> Reply, inTime: nat -> bool, absent: (string, Key) -> bool)

  /** An engine whose error texts are read as the resolver reads them. */
  function Docker(replies: nat -> Reply, inTime: nat -> bool): Engine {
    Engine(replies, inTime, Absent)
  }

  datatype Problem =
    | Transport | InvalidInput | MissingImage(image: Key) | InspectFailed(image: Key)
    | MalformedIdentity(image: Key) | PullFailed(image: Key) | Deadline

  function SizeOf(r: Reply): nat {
    if r.Finished? then r.size else 0
  }

  /** Output of the first `n` commands. */
  function Output(e: Engine, n: nat): nat {
    if n == 0 then 0 else Output(e, n - 1) + SizeOf(e.replies(n - 1))
  }

  /** The resolver's running state: the commands sent, and the output budget left. */
  datatype Session = Session(commands: seq<Command>, remaining: nat)

  /** Every command sent so far was answered within budget. */
  ghost predicate Balanced(e: Engine, s: Session, limit: nat) {
    s.remaining + Output(e, |s.commands|) == limit
  }

  /** The session only went forward from `s`, and sent no pull unless allowed. */
  ghost predicate Extends(s: Session, t: Session, policy: Policy) {
    && s.commands <= t.commands && t.remaining <= s.remaining
    && (policy.ReadOnly? ==> forall k :: |s.commands| <= k < |t.commands| ==> t.commands[k].Inspect?)
  }

  /** All but perhaps the last command are charged. */
  ghost predicate Accounted(e: Engine, t: Session, limit: nat) {
    Balanced(e, t, limit) || (|t.commands| > 0 && t.remaining + Output(e, |t.commands| - 1) == limit)
  }

  /** What the engine says to the next command. */
  function Next(e: Engine, s: Session): Reply {
    e.replies(|s.commands|)
  }

  /** The next command is answered in time and within what is left of the output budget. */
  predicate Answered(e: Engine, s: Session) {
    e.inTime(|s.commands|) && Next(e, s).Finished? && Next(e, s).size <= s.remaining
  }

  function Sent(e: Engine, s: Session, c: Command): Session
    requires Answered(e, s)
  {
    Session(s.commands + [c], s.remaining - Next(e, s).size)
  }

  /** Why a command comes to nothing: no time left before it, a broken transport, or too much output. */
  ghost predicate Stopped(e: Engine, s: Session, c: Command, p: Problem, t: Session) {
    if !e.inTime(|s.commands|) then p == Deadline && t == s
    else
      && t == Session(s.commands + [c], s.remaining)
      && if Next(e, s).TransportFailed? then p == Transport else p == Deadline && Next(e, s).size > s.remaining
  }

  method StreamCommand(e: Engine, s: Session, c: Command, ghost limit: nat) returns (r: Result<Reply, Problem>, t: Session)
    requires Balanced(e, s, limit)
    ensures r.Ok? <==> Answered(e, s)
    ensures r.Ok? ==> r.value == Next(e, s) && t == Sent(e, s, c) && Balanced(e, t, limit)
    ensures r.Err? ==> Stopped(e, s, c, r.error, t)
    ensures t.commands == s.commands || t.commands == s.commands + [c]
    ensures t.remaining <= s.remaining && Accounted(e, t, limit)
  {
    t := s;
    if !e.inTime(|s.commands|) {
      return Err(Deadline), t;
    }
    t := Session(s.commands + [c], s.remaining);
    assert t.commands[..|s.commands|] == s.commands;
    var reply := e.replies(|s.commands|);
    if reply.TransportFailed? {
      return Err(Transport), t;
    }
    if reply.size > t.remaining {
      return Err(Deadline), t;
    }
    t := t.(remaining := t.remaining - reply.size);
    r := Ok(reply);
  }

  // ------------------------------------------------------------------ one image

  function Receipt(i: Image, stdout: string): Result<Image, Problem> {
    var identity := Trim(stdout);
    if ValidDigest(identity) then Ok(Image(i.reference, i.platform, Some(identity))) else Err(MalformedIdentity(KeyOf(i)))
  }

  /** An identity is never invented: some inspect of this image printed it. */
  ghost predicate Attested(e: Engine, s: Session, i: Image) {
    i.identity.Some? ==>
      exists k: nat :: Printed(e, s, i, k)
  }

  ghost predicate Printed(e: Engine, s: Session, i: Image, k: nat) {
    && k < |s.commands| && s.commands[k] == Inspect(KeyOf(i))
    && e.replies(k).Finished? && e.replies(k).ok && i.identity == Some(Trim(e.replies(k).stdout))
  }

  /** A pull is sent only straight after an inspect that reported the image absent. */
  ghost predicate PullsFollowAbsence(e: Engine, s: Session) {
    forall k :: 0 <= k < |s.commands| && s.commands[k].Pull? ==> JustAbsent(e, s, k)
  }

  predicate ReportedAbsent(e: Engine, k: nat, image: Key) {
    e.replies(k).Finished? && !e.replies(k).ok && e.absent(e.replies(k).stderr, image)
  }

  ghost predicate JustAbsent(e: Engine, s: Session, k: nat) {
    && 0 < k < |s.commands| && s.commands[k - 1] == Inspect(s.commands[k].image)
    && ReportedAbsent(e, k - 1, s.commands[k].image)
  }

  /** What a resolved image must be. */
  ghost predicate Resolved(e: Engine, s: Session, i: Image, out: Image, policy: Policy) {
    && KeyOf(out) == KeyOf(i) && Attested(e, s, out)
    && (out.identity.Some? ==> ValidDigest(out.identity.value))
    && (policy.PullIfMissing? ==> out.identity.Some?)
  }

  // ------------------------------------------------------- the answer, from the replies

  /** The next inspect shows the image under a well-formed digest, and that digest is the answer. */
  ghost predicate Inspected(e: Engine, s: Session, k: Key, out: Image, t: Session) {
    && Answered(e, s) && Next(e, s).ok && ValidDigest(Trim(Next(e, s).stdout))
    && out == Image(k.reference, k.platform, Some(Trim(Next(e, s).stdout)))
    && t == Sent(e, s, Inspect(k))
  }

  /** The next inspect reports the image absent. */
  ghost predicate Absence(e: Engine, s: Session, k: Key) {
    Answered(e, s) && ReportedAbsent(e, |s.commands|, k)
  }

  /** The next inspect settles the matter against the image. */
  ghost predicate InspectRefused(e: Engine, s: Session, k: Key, p: Problem, t: Session) {
    || Stopped(e, s, Inspect(k), p, t)
    || (&& Answered(e, s) && t == Sent(e, s, Inspect(k))
        && if Next(e, s).ok then !ValidDigest(Trim(Next(e, s).stdout)) && p == MalformedIdentity(k)
           else !Absence(e, s, k) && p == InspectFailed(k))
  }

  /** After an absence: the pull succeeds, and the inspect after it shows the image. */
  ghost predicate Fetched(e: Engine, s: Session, k: Key, out: Image, t: Session) {
    Answered(e, s) && Next(e, s).ok && Inspected(e, Sent(e, s, Pull(k)), k, out, t)
  }

  /** After an absence: the pull fails, or the inspect after it does not show the image. */
  ghost predicate FetchFailed(e: Engine, s: Session, k: Key, p: Problem, t: Session) {
    || Stopped(e, s, Pull(k), p, t)
    || (&& Answered(e, s)
        && var pulled := Sent(e, s, Pull(k));
           if !Next(e, s).ok then p == PullFailed(k) && t == pulled
           else || InspectRefused(e, pulled, k, p, t)
                || (Absence(e, pulled, k) && p == MissingImage(k) && t == Sent(e, pulled, Inspect(k))))
  }

  /** One image resolves: shown at once, known absent to a reader, or fetched and then shown. */
  ghost predicate Succeeds(e: Engine, s: Session, k: Key, policy: Policy, out: Image, t: Session) {
    || Inspected(e, s, k, out, t)
    || (&& Absence(e, s, k)
        && var seen := Sent(e, s, Inspect(k));
           match policy
           case ReadOnly => out == Image(k.reference, k.platform, None) && t == seen
           case PullIfMissing => Fetched(e, seen, k, out, t))
  }

  /** One image does not resolve, with the one reply that says why. */
  ghost predicate Fails(e: Engine, s: Session, k: Key, policy: Policy, p: Problem, t: Session) {
    || InspectRefused(e, s, k, p, t)
    || (Absence(e, s, k) && policy.PullIfMissing? && FetchFailed(e, Sent(e, s, Inspect(k)), k, p, t))
  }

  /** The replies decide: one answer, and never both kinds. */
  lemma {:induction false} RepliesDecide(e: Engine, s: Session, k: Key, policy: Policy, out: Image, t: Session)
    requires Succeeds(e, s, k, policy, out, t)
    ensures forall other, u :: Succeeds(e, s, k, policy, other, u) ==> other == out && u == t
    ensures forall p, u :: !Fails(e, s, k, policy, p, u)
  {
  }

  /** An image shown at once is answered with that digest under either policy, by one command. */
  lemma {:induction false} ShownAtOnce(e: Engine, s: Session, k: Key, policy: Policy)
    requires Answered(e, s) && Next(e, s).ok && ValidDigest(Trim(Next(e, s).stdout))
    ensures Succeeds(e, s, k, policy, Image(k.reference, k.platform, Some(Trim(Next(e, s).stdout))), Sent(e, s, Inspect(k)))
  {
  }

  /** An absent image that may be pulled is pulled, and shown after that it is the answer. */
  lemma {:induction false} AbsentIsPulled(e: Engine, s: Session, k: Key, out: Image, t: Session)
    requires Absence(e, s, k) && Fetched(e, Sent(e, s, Inspect(k)), k, out, t)
    ensures Succeeds(e, s, k, PullIfMissing, out, t)
    ensures t.commands == s.commands + [Inspect(k), Pull(k), Inspect(k)]
    ensures out.identity == Some(Trim(e.replies(|s.commands| + 2).stdout))
  {
  }

  method ReadReceipt(e: Engine, ghost s: Session, t: Session, i: Image, reply: Reply) returns (r: Result<Image, Problem>)
    requires Answered(e, s) && reply == Next(e, s) && reply.ok && t == Sent(e, s, Inspect(KeyOf(i)))
    ensures r.Ok? ==> Inspected(e, s, KeyOf(i), r.value, t) && Resolved(e, t, i, r.value, PullIfMissing)
    ensures r.Err? ==> InspectRefused(e, s, KeyOf(i), r.error, t)
  {
    r := Receipt(i, reply.stdout);
    if r.Ok? {
      assert Printed(e, t, r.value, |s.commands|);
    }
  }

  method PullImage(e: Engine, s: Session, i: Image, ghost limit: nat) returns (r: Option<Problem>, t: Session)
    requires Balanced(e, s, limit) && PullsFollowAbsence(e, s)
    requires |s.commands| > 0 && s.commands[|s.commands| - 1] == Inspect(KeyOf(i)) && ReportedAbsent(e, |s.commands| - 1, KeyOf(i))
    ensures r.None? ==> Balanced(e, t, limit) && Answered(e, s) && Next(e, s).ok && t == Sent(e, s, Pull(KeyOf(i)))
    ensures r.Some? ==> FetchFailed(e, s, KeyOf(i), r.value, t)
    ensures Extends(s, t, PullIfMissing) && Accounted(e, t, limit) && PullsFollowAbsence(e, t)
  {
    var pulled;
    pulled, t := StreamCommand(e, s, Pull(KeyOf(i)), limit);
    assert t.commands != s.commands ==> JustAbsent(e, t, |s.commands|);
    Carried(e, s, t);
    if pulled.Err? {
      return Some(pulled.error), t;
    }
    r := if pulled.value.ok then None else Some(PullFailed(KeyOf(i)));
  }

  method PullAndInspect(e: Engine, s: Session, i: Image, ghost limit: nat) returns (r: Result<Image, Problem>, t: Session)
    requires Balanced(e, s, limit) && PullsFollowAbsence(e, s)
    requires |s.commands| > 0 && s.commands[|s.commands| - 1] == Inspect(KeyOf(i)) && ReportedAbsent(e, |s.commands| - 1, KeyOf(i))
    ensures r.Ok? ==> Balanced(e, t, limit) && Fetched(e, s, KeyOf(i), r.value, t) && Resolved(e, t, i, r.value, PullIfMissing)
    ensures r.Err? ==> FetchFailed(e, s, KeyOf(i), r.error, t)
    ensures Extends(s, t, PullIfMissing) && Accounted(e, t, limit) && PullsFollowAbsence(e, t)
  {
    var failed;
    failed, t := PullImage(e, s, i, limit);
    if failed.Some? {
      return Err(failed.value), t;
    }
    var after;
    ghost var mid := t;
    after, t := StreamCommand(e, t, Inspect(KeyOf(i)), limit);
    Carried(e, mid, t);
    if after.Err? {
      return Err(after.error), t;
    }
    if after.value.ok {
      r := ReadReceipt(e, mid, t, i, after.value);
    } else if e.absent(after.value.stderr, KeyOf(i)) {
      r := Err(MissingImage(KeyOf(i)));
    } else {
      r := Err(InspectFailed(KeyOf(i)));
    }
  }

  /** One image: the engine's replies fix the answer, the commands sent and what is left of the budget. */
  method ResolveOne(e: Engine, s: Session, i: Image, policy: Policy, ghost limit: nat) returns (r: Result<Image, Problem>, t: Session)
    requires Balanced(e, s, limit) && PullsFollowAbsence(e, s)
    ensures r.Ok? ==> Succeeds(e, s, KeyOf(i), policy, r.value, t)
    ensures r.Err? ==> Fails(e, s, KeyOf(i), policy, r.error, t)
    ensures r.Ok? ==> Balanced(e, t, limit) && Resolved(e, t, i, r.value, policy)
    ensures Extends(s, t, policy) && Accounted(e, t, limit) && PullsFollowAbsence(e, t)
  {
    var initial;
    initial, t := StreamCommand(e, s, Inspect(KeyOf(i)), limit);
    Carried(e, s, t);
    if initial.Err? {
      return Err(initial.error), t;
    }
    if initial.value.ok {
      r := ReadReceipt(e, s, t, i, initial.value);
      return;
    }
    if !e.absent(initial.value.stderr, KeyOf(i)) {
      return Err(InspectFailed(KeyOf(i))), t;
    }
    if policy.ReadOnly? {
      return Ok(Image(i.reference, i.platform, None)), t;
    }
    r, t := PullAndInspect(e, t, i, limit);
  }

  /** Facts about earlier commands stay true as more are sent. */
  lemma {:induction false} Carried(e: Engine, s: Session, t: Session)
    requires s.commands <= t.commands && PullsFollowAbsence(e, s)
    requires forall k :: |s.commands| <= k < |t.commands| && t.commands[k].Pull? ==> JustAbsent(e, t, k)
    ensures PullsFollowAbsence(e, t)
    ensures forall i :: Attested(e, s, i) ==> Attested(e, t, i)
  {
    forall k | 0 <= k < |t.commands| && t.commands[k].Pull? ensures JustAbsent(e, t, k) {
      if k < |s.commands| {
        assert JustAbsent(e, s, k);
      }
    }
    forall i | Attested(e, s, i) ensures Attested(e, t, i) {
      if i.identity.Some? {
        var k: nat :| Printed(e, s, i, k);
        assert Printed(e, t, i, k);
      }
    }
  }

  // ------------------------------------------------------------------ whole requests

  predicate RequestOk(required: seq<Image>) {
    |required| <= MAX_IMAGES && forall i :: 0 <= i < |required| ==> !Invalid(required[i]) && !TooLong(required[i])
  }

  /** A text Docker takes as one argument: not empty, no option, no NUL, at most 4096 bytes. */
  predicate Argument(s: string) {
    s != "" && s[0] != '-' && '\0' !in s && Utf8Size(s) <= 4096
  }

  lemma {:induction false} RequestExact(required: seq<Image>)
    ensures RequestOk(required) <==>
            |required| <= 256 && forall i :: i in required ==> Argument(i.reference) && (i.platform.Some? ==> Argument(i.platform.value))
  {
    if RequestOk(required) {
      forall i | i in required ensures Argument(i.reference) && (i.platform.Some? ==> Argument(i.platform.value)) {
        var n :| 0 <= n < |required| && required[n] == i;
        assert !Invalid(required[n]) && !TooLong(required[n]);
      }
    } else if |required| <= 256 {
      var n :| 0 <= n < |required| && (Invalid(required[n]) || TooLong(required[n]));
      assert required[n] in required;
    }
  }

  /** The distinct keys, in order of first appearance. */
  function Firsts(keys: seq<Key>): (r: seq<Key>)
    ensures forall k :: k in r <==> k in keys
  {
    if keys == [] then []
    else
      var before, k := Firsts(keys[..|keys| - 1]), keys[|keys| - 1];
      assert keys == keys[..|keys| - 1] + [k];
      if k in keys[..|keys| - 1] then before else before + [k]
  }

  lemma {:induction false} FirstsDistinct(keys: seq<Key>)
    ensures NoDup(Firsts(keys))
  {
    if keys != [] {
      FirstsDistinct(keys[..|keys| - 1]);
    }
  }

  /** One receipt per distinct image, each attested by the engine. */
  ghost predicate Receipts(e: Engine, s: Session, required: seq<Image>, out: seq<Image>, policy: Policy) {
    && Keys(out) == Firsts(Keys(required))
    && forall k :: 0 <= k < |out| ==> Sound(e, s, out[k], policy)
  }

  ghost predicate Sound(e: Engine, s: Session, i: Image, policy: Policy) {
    && Attested(e, s, i) && (i.identity.Some? ==> ValidDigest(i.identity.value))
    && (policy.PullIfMissing? ==> i.identity.Some?)
  }

  lemma {:induction false} SoundCarried(e: Engine, s: Session, t: Session, out: seq<Image>, policy: Policy)
    requires s.commands <= t.commands && forall k :: 0 <= k < |out| ==> Sound(e, s, out[k], policy)
    ensures forall k :: 0 <= k < |out| ==> Sound(e, t, out[k], policy)
  {
    forall k | 0 <= k < |out| ensures Sound(e, t, out[k], policy) {
      assert Sound(e, s, out[k], policy);
      if out[k].identity.Some? {
        var n: nat :| Printed(e, s, out[k], n);
        assert Printed(e, t, out[k], n);
      }
    }
  }

  lemma {:induction false} KeysNext(required: seq<Image>, i: nat)
    requires i < |required|
    ensures Keys(required[..i + 1]) == Keys(required[..i]) + [KeyOf(required[i])]
    ensures Firsts(Keys(required[..i + 1])) ==
            if KeyOf(required[i]) in Keys(required[..i]) then Firsts(Keys(required[..i])) else Firsts(Keys(required[..i])) + [KeyOf(required[i])]
  {
    assert required[..i + 1] == required[..i] + [required[i]];
    MapConcat(required[..i], [required[i]], KeyOf);
    assert Map([required[i]], KeyOf) == [KeyOf(required[i])];
    var keys := Keys(required[..i]) + [KeyOf(required[i])];
    assert keys[..|keys| - 1] == Keys(required[..i]);
  }

  method CheckRequest(required: seq<Image>) returns (ok: bool)
    ensures ok <==> RequestOk(required)
  {
    if |required| > MAX_IMAGES {
      return false;
    }
    for i := 0 to |required|
      invariant forall k :: 0 <= k < i ==> !Invalid(required[k]) && !TooLong(required[k])
    {
      if Invalid(required[i]) || TooLong(required[i]) {
        return false;
      }
    }
    ok := true;
  }

  /** The images resolve one after another, each from where the one before it left the session. */
  ghost predicate Chain(e: Engine, start: Session, keys: seq<Key>, policy: Policy, out: seq<Image>, t: Session)
    decreases |keys|, 1
  {
    if keys == [] then out == [] && t == start
    else |out| == |keys| && exists mid :: ChainLink(e, start, keys, policy, out, mid, t)
  }

  ghost predicate ChainLink(e: Engine, start: Session, keys: seq<Key>, policy: Policy, out: seq<Image>, mid: Session, t: Session)
    requires keys != [] && |out| == |keys|
    decreases |keys|, 0
  {
    var last := |keys| - 1;
    Chain(e, start, keys[..last], policy, out[..last], mid) && Succeeds(e, mid, keys[last], policy, out[last], t)
  }

  /** The images before one resolve, and that one does not. */
  ghost predicate Breaks(e: Engine, start: Session, keys: seq<Key>, policy: Policy, n: nat, p: Problem, t: Session) {
    n < |keys| && exists out, mid :: Chain(e, start, keys[..n], policy, out, mid) && Fails(e, mid, keys[n], policy, p, t)
  }

  lemma {:induction false} ChainOne(e: Engine, start: Session, keys: seq<Key>, policy: Policy, out: seq<Image>, t: Session, out': seq<Image>, t': Session)
    requires Chain(e, start, keys, policy, out, t) && Chain(e, start, keys, policy, out', t')
    ensures out == out' && t == t'
  {
    if keys != [] {
      var last := |keys| - 1;
      var mid :| ChainLink(e, start, keys, policy, out, mid, t);
      var mid' :| ChainLink(e, start, keys, policy, out', mid', t');
      ChainOne(e, start, keys[..last], policy, out[..last], mid, out'[..last], mid');
      RepliesDecide(e, mid, keys[last], policy, out[last], t);
      assert out == out[..last] + [out[last]] && out' == out'[..last] + [out'[last]];
    }
  }

  lemma {:induction false} ChainFront(e: Engine, start: Session, keys: seq<Key>, policy: Policy, out: seq<Image>, t: Session, n: nat) returns (mid: Session)
    requires Chain(e, start, keys, policy, out, t) && n <= |keys|
    ensures |out| == |keys| && Chain(e, start, keys[..n], policy, out[..n], mid)
  {
    mid := t;
    if n == |keys| {
      assert keys[..n] == keys && out[..n] == out;
    } else {
      var last := |keys| - 1;
      var before :| ChainLink(e, start, keys, policy, out, before, t);
      mid := ChainFront(e, start, keys[..last], policy, out[..last], before, n);
      assert keys[..last][..n] == keys[..n] && out[..last][..n] == out[..n];
    }
  }

  /** A request whose images all resolve breaks nowhere. */
  lemma {:induction false} ChainHolds(e: Engine, start: Session, keys: seq<Key>, policy: Policy, out: seq<Image>, t: Session, n: nat, p: Problem, u: Session)
    requires Chain(e, start, keys, policy, out, t)
    ensures !Breaks(e, start, keys, policy, n, p, u)
  {
    if Breaks(e, start, keys, policy, n, p, u) {
      var part, mid :| Chain(e, start, keys[..n], policy, part, mid) && Fails(e, mid, keys[n], policy, p, u);
      var after := ChainFront(e, start, keys, policy, out, t, n + 1);
      var front, shown := keys[..n + 1], out[..n + 1];
      assert front[..n] == keys[..n] && shown[..n] == out[..n] && front[n] == keys[n];
      var here :| ChainLink(e, start, front, policy, shown, here, after);
      ChainOne(e, start, keys[..n], policy, part, mid, shown[..n], here);
      RepliesDecide(e, here, keys[n], policy, shown[n], after);
    }
  }

  lemma {:induction false} ChainNext(e: Engine, start: Session, keys: seq<Key>, policy: Policy, out: seq<Image>, mid: Session, k: Key, image: Image, t: Session)
    requires Chain(e, start, keys, policy, out, mid) && Succeeds(e, mid, k, policy, image, t)
    ensures Chain(e, start, keys + [k], policy, out + [image], t)
  {
    var longer, more := keys + [k], out + [image];
    assert |out| == |keys|;
    assert longer[..|keys|] == keys && more[..|keys|] == out && longer[|keys|] == k && more[|keys|] == image;
    assert ChainLink(e, start, longer, policy, more, mid, t);
  }

  /** The distinct images of a request resolve in turn. */
  ghost predicate Answers(e: Engine, required: seq<Image>, policy: Policy, limit: nat, out: seq<Image>, t: Session) {
    Chain(e, Session([], limit), Firsts(Keys(required)), policy, out, t)
  }

  ghost predicate Resolvable(e: Engine, required: seq<Image>, policy: Policy, limit: nat) {
    exists out, t :: Answers(e, required, policy, limit, out, t)
  }

  /** The first image that does not resolve, and why. */
  ghost predicate Stumbles(e: Engine, required: seq<Image>, policy: Policy, limit: nat, p: Problem, t: Session) {
    exists n: nat :: Breaks(e, Session([], limit), Firsts(Keys(required)), policy, n, p, t)
  }

  /** What holds between two images of the request. */
  ghost predicate Progress(e: Engine, s: Session, required: seq<Image>, out: seq<Image>, policy: Policy, limit: nat) {
    && Receipts(e, s, required, out, policy) && Balanced(e, s, limit) && PullsFollowAbsence(e, s)
    && (policy.ReadOnly? ==> forall k :: 0 <= k < |s.commands| ==> s.commands[k].Inspect?)
  }

  lemma {:induction false} ProgressSkip(e: Engine, s: Session, required: seq<Image>, i: nat, out: seq<Image>, policy: Policy, limit: nat)
    requires i < |required| && Progress(e, s, required[..i], out, policy, limit) && KeyOf(required[i]) in Keys(out)
    ensures Progress(e, s, required[..i + 1], out, policy, limit)
  {
    KeysNext(required, i);
  }

  lemma {:induction false} ProgressMade(e: Engine, s: Session, t: Session, required: seq<Image>, i: nat, out: seq<Image>, image: Image, policy: Policy, limit: nat)
    requires i < |required| && Progress(e, s, required[..i], out, policy, limit) && KeyOf(required[i]) !in Keys(out)
    requires Extends(s, t, policy) && Balanced(e, t, limit) && PullsFollowAbsence(e, t) && Resolved(e, t, required[i], image, policy)
    ensures Progress(e, t, required[..i + 1], out + [image], policy, limit)
  {
    KeysNext(required, i);
    assert Keys(out + [image]) == Firsts(Keys(required[..i + 1])) by {
      MapConcat(out, [image], KeyOf);
      assert Map([image], KeyOf) == [KeyOf(image)];
    }
    SoundCarried(e, s, t, out, policy);
    assert Sound(e, t, image, policy);
    var more := out + [image];
    assert forall k :: 0 <= k < |more| ==> Sound(e, t, more[k], policy);
    assert policy.ReadOnly? ==> forall k :: 0 <= k < |t.commands| ==> t.commands[k].Inspect? by {
      assert forall k :: 0 <= k < |s.commands| ==> t.commands[k] == s.commands[k];
    }
  }

  lemma {:induction false} FirstsPrefix(required: seq<Image>, i: nat)
    requires i < |required| && KeyOf(required[i]) !in Keys(required[..i])
    ensures Firsts(Keys(required[..i])) + [KeyOf(required[i])] <= Firsts(Keys(required))
    decreases |required| - i
  {
    KeysNext(required, i);
    FirstsGrow(required, i + 1);
  }

  lemma {:induction false} FirstsGrow(required: seq<Image>, i: nat)
    requires i <= |required|
    ensures Firsts(Keys(required[..i])) <= Firsts(Keys(required))
    decreases |required| - i
  {
    if i == |required| {
      assert required[..i] == required;
    } else {
      KeysNext(required, i);
      FirstsGrow(required, i + 1);
    }
  }

  lemma {:induction false} AnswersSkip(e: Engine, required: seq<Image>, i: nat, policy: Policy, limit: nat, out: seq<Image>, s: Session)
    requires i < |required| && Answers(e, required[..i], policy, limit, out, s) && KeyOf(required[i]) in Keys(required[..i])
    ensures Answers(e, required[..i + 1], policy, limit, out, s)
  {
    KeysNext(required, i);
  }

  lemma {:induction false} AnswersNext(e: Engine, required: seq<Image>, i: nat, policy: Policy, limit: nat, out: seq<Image>, s: Session, image: Image, t: Session)
    requires i < |required| && Answers(e, required[..i], policy, limit, out, s) && KeyOf(required[i]) !in Keys(required[..i])
    requires Succeeds(e, s, KeyOf(required[i]), policy, image, t)
    ensures Answers(e, required[..i + 1], policy, limit, out + [image], t)
  {
    KeysNext(required, i);
    ChainNext(e, Session([], limit), Firsts(Keys(required[..i])), policy, out, s, KeyOf(required[i]), image, t);
  }

  lemma {:induction false} StumblesHere(e: Engine, required: seq<Image>, i: nat, policy: Policy, limit: nat, out: seq<Image>, s: Session, p: Problem, t: Session)
    requires i < |required| && Answers(e, required[..i], policy, limit, out, s) && KeyOf(required[i]) !in Keys(required[..i])
    requires Fails(e, s, KeyOf(required[i]), policy, p, t)
    ensures Stumbles(e, required, policy, limit, p, t)
  {
    var before, all := Firsts(Keys(required[..i])), Firsts(Keys(required));
    FirstsPrefix(required, i);
    var n := |before|;
    assert all[..n] == before && all[n] == KeyOf(required[i]);
    assert Breaks(e, Session([], limit), all, policy, n, p, t);
  }

  /** A request is resolved or stumbles, never both. */
  lemma {:induction false} NeverBoth(e: Engine, required: seq<Image>, policy: Policy, limit: nat, p: Problem, t: Session)
    requires Stumbles(e, required, policy, limit, p, t)
    ensures !Resolvable(e, required, policy, limit)
  {
    var n: nat :| Breaks(e, Session([], limit), Firsts(Keys(required)), policy, n, p, t);
    forall out, u | Answers(e, required, policy, limit, out, u) ensures false {
      ChainHolds(e, Session([], limit), Firsts(Keys(required)), policy, out, u, n, p, t);
    }
  }

  lemma {:induction false} SameKeys(e: Engine, s: Session, required: seq<Image>, out: seq<Image>, policy: Policy, limit: nat, k: Key)
    requires Progress(e, s, required, out, policy, limit)
    ensures k in Keys(out) <==> k in Keys(required)
  {
  }

  /** The loop over the images of an accepted request. */
  method ResolveEach(e: Engine, required: seq<Image>, policy: Policy, limit: nat) returns (r: Result<seq<Image>, Problem>, t: Session)
    ensures r.Ok? ==> Answers(e, required, policy, limit, r.value, t)
    ensures r.Err? ==> Stumbles(e, required, policy, limit, r.error, t)
    ensures r.Ok? ==> Receipts(e, t, required, r.value, policy) && Balanced(e, t, limit)
    ensures policy.ReadOnly? ==> forall k :: 0 <= k < |t.commands| ==> t.commands[k].Inspect?
    ensures Accounted(e, t, limit) && PullsFollowAbsence(e, t)
  {
    t := Session([], limit);
    var out: seq<Image> := [];
    assert required[..0] == [];
    for i := 0 to |required|
      invariant Progress(e, t, required[..i], out, policy, limit)
      invariant Answers(e, required[..i], policy, limit, out, t)
    {
      SameKeys(e, t, required[..i], out, policy, limit, KeyOf(required[i]));
      if KeyOf(required[i]) in Keys(out) {
        ProgressSkip(e, t, required, i, out, policy, limit);
        AnswersSkip(e, required, i, policy, limit, out, t);
        continue;
      }
      ghost var before := t;
      var one;
      one, t := ResolveOne(e, t, required[i], policy, limit);
      if one.Err? {
        StumblesHere(e, required, i, policy, limit, out, before, one.error, t);
        return Err(one.error), t;
      }
      ProgressMade(e, before, t, required, i, out, one.value, policy, limit);
      AnswersNext(e, required, i, policy, limit, out, before, one.value, t);
      out := out + [one.value];
    }
    assert required[..|required|] == required;
    r := Ok(out);
  }

  /**
   * `resolve_images_streaming`: it succeeds exactly when the request is well formed, not cancelled, and
   * the engine's replies resolve each distinct image in turn; a failure is that of the first image whose
   * replies say so. Nothing is sent for a malformed or cancelled request; a read-only request never
   * pulls; output and remaining budget always add up to the limit.
   */
  method ResolveImages(e: Engine, required: seq<Image>, policy: Policy, limit: nat, cancelled: bool) returns (r: Result<seq<Image>, Problem>, t: Session)
    ensures r.Ok? <==> RequestOk(required) && !cancelled && Resolvable(e, required, policy, limit)
    ensures r.Ok? ==> Answers(e, required, policy, limit, r.value, t)
    ensures !RequestOk(required) ==> r == Err(InvalidInput) && t == Session([], limit)
    ensures RequestOk(required) && cancelled ==> r == Err(Transport) && t == Session([], limit)
    ensures RequestOk(required) && !cancelled && r.Err? ==> Stumbles(e, required, policy, limit, r.error, t)
    ensures r.Ok? ==> Receipts(e, t, required, r.value, policy) && Balanced(e, t, limit)
    ensures policy.ReadOnly? ==> forall k :: 0 <= k < |t.commands| ==> t.commands[k].Inspect?
    ensures Accounted(e, t, limit) && PullsFollowAbsence(e, t)
  {
    t := Session([], limit);
    var ok := CheckRequest(required);
    if !ok {
      return Err(InvalidInput), t;
    }
    if cancelled {
      return Err(Transport), t;
    }
    r, t := ResolveEach(e, required, policy, limit);
    if r.Err? {
      NeverBoth(e, required, policy, limit, r.error, t);
    }
  }
}
