/** Which context entries a Dockerfile build selects: ignore rules, sources and the plain selector. */
module Selection {
  import opened Common
  import opened GlobMatcher
  import opened Order

  datatype Rule = Rule(pattern: string, negated: bool)

  datatype Kind = RegularFile | Directory | Symlink | Other

  datatype Entry = Entry(path: string, kind: Kind)

  /** What the Dockerfile and the ignore text in force were parsed to. */
  datatype Policy = Policy(
    dockerfile: string,
    ignoreFile: Option<string>,
    builtIn: bool,
    rules: seq<Rule>,
    sources: seq<string>,
    all: bool)

  datatype SelectError = MissingDockerfile(path: string) | MissingSource(source: string) | Matcher(e: MatchError)

  type Selected = Result<seq<Entry>, SelectError>

  // ------------------------------------------------------------------ paths

  predicate Normal(part: string) {
    part != "" && part != "." && part != ".."
  }

  /** A label the collector accepts. */
  predicate Relative(path: string) {
    && '\\' !in path && ':' !in path
    && forall part :: part in Split(path) ==> Normal(part)
  }

  /** The `scan` that grows a path one part at a time. */
  function PrefixScan(parts: seq<string>, so_far: string): (r: seq<string>)
    ensures |r| == |parts|
  {
    if parts == [] then []
    else
      var grown := (if so_far == "" then so_far else so_far + "/") + parts[0];
      [grown] + PrefixScan(parts[1..], grown)
  }

  function Prefixes(path: string): (r: seq<string>)
    ensures |r| == |Split(path)|
  {
    PrefixScan(Split(path), "")
  }

  function Ancestors(path: string): seq<string> {
    Prefixes(path)[..|Split(path)| - 1]
  }

  lemma {:induction false} PrefixScanAt(parts: seq<string>, done: seq<string>, k: nat)
    requires k < |parts|
    requires forall p :: p in done + parts ==> p != ""
    ensures PrefixScan(parts, Join(done))[k] == Join(done + parts[..k + 1])
    decreases |parts|
  {
    var next := done + [parts[0]];
    assert forall p :: p in done ==> p in done + parts;
    if done == [] {
      assert next == [parts[0]];
      assert "" + parts[0] == parts[0];
    } else {
      JoinConcat(done, [parts[0]]);
      assert Join([parts[0]]) == parts[0];
      JoinNonEmpty(done);
    }
    var tail := parts[1..];
    assert PrefixScan(parts, Join(done)) == [Join(next)] + PrefixScan(tail, Join(next));
    if k == 0 {
      assert parts[..1] == [parts[0]];
    } else {
      assert next + tail == done + parts;
      PrefixScanAt(tail, next, k - 1);
      assert next + tail[..k] == done + parts[..k + 1];
    }
  }

  lemma {:induction false} JoinNonEmpty(parts: seq<string>)
    requires parts != [] && forall p :: p in parts ==> p != ""
    ensures Join(parts) != ""
  {
    assert parts[0] in parts;
  }

  /** On a relative path the scan yields the path's ancestors and the path itself. */
  lemma {:induction false} PrefixAt(path: string, k: nat)
    requires Relative(path) && k < |Split(path)|
    ensures Prefixes(path)[k] == Join(Split(path)[..k + 1])
  {
    assert Join([]) == "" && [] + Split(path) == Split(path);
    PrefixScanAt(Split(path), [], k);
    assert [] + Split(path)[..k + 1] == Split(path)[..k + 1];
  }

  // ----------------------------------------------------- meaning of a pattern

  /** The pattern matches the path or one of its ancestors. */
  ghost predicate HitsPath(pattern: string, parts: seq<string>) {
    HitsUpTo(pattern, parts, |parts|)
  }

  ghost predicate HitsUpTo(pattern: string, parts: seq<string>, n: nat)
    requires n <= |parts|
  {
    exists k :: 1 <= k <= n && Hit(pattern, Join(parts[..k]))
  }

  /** The last rule that hits decides, and it is not a negation. */
  ghost predicate IgnoredBy(rules: seq<Rule>, parts: seq<string>) {
    exists i :: 0 <= i < |rules| && Decides(rules, parts, i) && !rules[i].negated
  }

  ghost predicate Decides(rules: seq<Rule>, parts: seq<string>, i: nat)
    requires i < |rules|
  {
    HitsPath(rules[i].pattern, parts) && forall j :: i < j < |rules| ==> !HitsPath(rules[j].pattern, parts)
  }

  /** A source matches everything when nothing is left of it, else the path or an ancestor. */
  ghost predicate SourceHits(source: string, parts: seq<string>) {
    SourceParts(source) == [] || HitsPath(Join(SourceParts(source)), parts)
  }

  // ---------------------------------------------------------- normalisation

  function Unbackslash(s: string): (r: string)
    ensures |r| == |s|
  {
    seq(|s|, i requires 0 <= i < |s| => if s[i] == '\\' then '/' else s[i])
  }

  function TrimSlashes(s: string): string {
    if s != "" && s[0] == '/' then TrimSlashes(s[1..]) else s
  }

  /** Drop empty and `.` parts, let `..` take back the part before it. */
  function Normalize(parts: seq<string>, out: seq<string>): seq<string> {
    if parts == [] then out
    else if parts[0] == "" || parts[0] == "." then Normalize(parts[1..], out)
    else if parts[0] == ".." then Normalize(parts[1..], if out == [] then [] else out[..|out| - 1])
    else Normalize(parts[1..], out + [parts[0]])
  }

  function SourceParts(source: string): seq<string> {
    Normalize(Split(TrimSlashes(Unbackslash(source))), [])
  }

  lemma {:induction false} NormalizeNormal(parts: seq<string>, out: seq<string>)
    requires forall p :: p in out ==> Normal(p) && '/' !in p
    requires forall p :: p in parts ==> '/' !in p
    ensures forall p :: p in Normalize(parts, out) ==> Normal(p) && '/' !in p
    decreases |parts|
  {
    if parts != [] {
      assert forall p :: p in parts[1..] ==> p in parts;
      if parts[0] == "" || parts[0] == "." {
        NormalizeNormal(parts[1..], out);
      } else if parts[0] == ".." {
        NormalizeNormal(parts[1..], if out == [] then [] else out[..|out| - 1]);
      } else {
        NormalizeNormal(parts[1..], out + [parts[0]]);
      }
    }
  }

  /** A backslash in a source separates parts as a slash does. */
  lemma {:induction false} BackslashSeparates(a: string, b: string)
    ensures SourceParts(a + "\\" + b) == SourceParts(a + "/" + b)
  {
    assert Unbackslash(a + "\\" + b) == Unbackslash(a + "/" + b);
  }

  method NormalizeLoop(parts: seq<string>) returns (out: seq<string>)
    ensures out == Normalize(parts, [])
  {
    out := [];
    for i := 0 to |parts|
      invariant Normalize(parts, []) == Normalize(parts[i..], out)
    {
      assert parts[i..][1..] == parts[i + 1..];
      if parts[i] == "" || parts[i] == "." {
      } else if parts[i] == ".." {
        out := if out == [] then [] else out[..|out| - 1];
      } else {
        out := out + [parts[i]];
      }
    }
  }

  // -------------------------------------------------------- matcher verdicts

  /** `collect::<Result<Vec<_>, _>>` then `any`: every text is tried, and one refusal refuses all. */
  ghost function AnyAnswer(pattern: string, texts: seq<string>): Verdict {
    if texts == [] then Ok(false)
    else
      match GlobAnswer(pattern, texts[0])
      case Err(e) => Err(e)
      case Ok(hit) =>
        match AnyAnswer(pattern, texts[1..])
        case Err(e) => Err(e)
        case Ok(later) => Ok(hit || later)
  }

  ghost function RuleAnswer(pattern: string, path: string): Verdict {
    match GlobAnswer(pattern, path)
    case Err(e) => Err(e)
    case Ok(hit) => if hit then Ok(true) else AnyAnswer(pattern, Ancestors(path))
  }

  ghost function IgnoredAnswer(rules: seq<Rule>, path: string, yes: bool := false): Verdict
    decreases |rules|
  {
    if rules == [] then Ok(yes)
    else
      match RuleAnswer(rules[0].pattern, path)
      case Err(e) => Err(e)
      case Ok(hit) => IgnoredAnswer(rules[1..], path, if hit then !rules[0].negated else yes)
  }

  predicate Wild(s: string) {
    '*' in s || '?' in s || '[' in s
  }

  ghost function SourceAnswer(source: string, path: string): Verdict {
    var s := Join(SourceParts(source));
    if s == "" || s == "." then Ok(true)
    else if Wild(s) then
      match GlobAnswer(s, path)
      case Err(e) => Err(e)
      case Ok(direct) =>
        match AnyAnswer(s, Prefixes(path))
        case Err(e) => Err(e)
        case Ok(prefix) => Ok(direct || prefix)
    else Ok(path == s || s + "/" <= path)
  }

  ghost function AnySourceAnswer(sources: seq<string>, path: string): Verdict {
    if sources == [] then Ok(false)
    else
      match SourceAnswer(sources[0], path)
      case Err(e) => Err(e)
      case Ok(hit) => if hit then Ok(true) else AnySourceAnswer(sources[1..], path)
  }

  method AnyHit(pattern: string, texts: seq<string>) returns (v: Verdict)
    ensures v == AnyAnswer(pattern, texts)
  {
    var i := |texts|;
    v := Ok(false);
    while 0 < i
      invariant 0 <= i <= |texts|
      invariant v == AnyAnswer(pattern, texts[i..])
    {
      i := i - 1;
      assert texts[i..][1..] == texts[i + 1..];
      var here, _, _ := Glob(pattern, texts[i]);
      match here {
        case Err(e) => v := Err(e);
        case Ok(hit) => v := match v case Err(e) => Err(e) case Ok(later) => Ok(hit || later);
      }
    }
    assert texts[0..] == texts;
  }

  /** The last-rule-wins loop. */
  method Ignored(rules: seq<Rule>, path: string) returns (v: Verdict)
    ensures v == IgnoredAnswer(rules, path)
  {
    var yes := false;
    assert rules[0..] == rules;
    for i := 0 to |rules|
      invariant IgnoredAnswer(rules, path) == IgnoredAnswer(rules[i..], path, yes)
    {
      assert rules[i..][1..] == rules[i + 1..];
      var here, _, _ := Glob(rules[i].pattern, path);
      if here.Ok? && !here.value {
        here := AnyHit(rules[i].pattern, Ancestors(path));
      }
      match here {
        case Err(e) => return Err(e);
        case Ok(hit) =>
          if hit {
            yes := !rules[i].negated;
          }
      }
    }
    v := Ok(yes);
  }

  method SourceMatches(source: string, path: string) returns (v: Verdict)
    ensures v == SourceAnswer(source, path)
  {
    var parts := NormalizeLoop(Split(TrimSlashes(Unbackslash(source))));
    var s := Join(parts);
    if s == "" || s == "." {
      return Ok(true);
    }
    if Wild(s) {
      var direct, _, _ := Glob(s, path);
      if direct.Err? {
        return direct;
      }
      var prefix := AnyHit(s, Prefixes(path));
      v := match prefix case Err(e) => Err(e) case Ok(p) => Ok(direct.value || p);
    } else {
      v := Ok(path == s || s + "/" <= path);
    }
  }

  method AnySourceMatches(sources: seq<string>, path: string) returns (v: Verdict)
    ensures v == AnySourceAnswer(sources, path)
  {
    assert sources[0..] == sources;
    for i := 0 to |sources|
      invariant AnySourceAnswer(sources, path) == AnySourceAnswer(sources[i..], path)
    {
      assert sources[i..][1..] == sources[i + 1..];
      var here := SourceMatches(sources[i], path);
      if here.Err? || here.value {
        return here;
      }
    }
    v := Ok(false);
  }

  // --------------------------------------------- verdicts carry the meaning

  /** A verdict that is not a refusal is this answer. */
  ghost predicate Says(v: Verdict, answer: bool) {
    v.Ok? ==> v.value == answer
  }

  lemma {:induction false} SizeMonotone(s: string, k: nat)
    requires k <= |s|
    ensures Utf8Size(s[..k]) <= Utf8Size(s)
  {
    assert s == s[..k] + s[k..];
    Utf8SizeConcat(s[..k], s[k..]);
  }

  /** A prefix of a path the matcher accepts is accepted too. */
  lemma {:induction false} ScaleMonotone(a: nat, b: nat, c: nat)
    requires b <= c
    ensures a * b <= a * c
  {
  }

  lemma {:induction false} PrefixWithinLimit(pattern: string, s: string, k: nat)
    requires k <= |s| && !OverLimit(pattern, s)
    ensures !OverLimit(pattern, s[..k])
  {
    SizeMonotone(s, k);
    var ts := Tokens(pattern);
    ScaleMonotone(|ts| + 1, k + 1, |s| + 1);
    ScaleMonotone(TotalWeight(ts), k + 1, |s| + 1);
  }

  lemma {:induction false} PrefixOfPath(path: string, k: nat)
    requires k < |Split(path)|
    ensures Join(Split(path)[..k + 1]) <= path
  {
    var parts := Split(path);
    JoinSplit(path);
    if k + 1 == |parts| {
      assert parts[..k + 1] == parts;
    } else {
      assert parts == parts[..k + 1] + parts[k + 1..];
      JoinConcat(parts[..k + 1], parts[k + 1..]);
    }
  }

  lemma {:induction false} AnyMeaning(pattern: string, texts: seq<string>)
    ensures Says(AnyAnswer(pattern, texts), exists i :: 0 <= i < |texts| && Hit(pattern, texts[i]))
    ensures (forall i :: 0 <= i < |texts| ==> !OverLimit(pattern, texts[i])) ==> AnyAnswer(pattern, texts).Ok?
  {
    if texts != [] {
      var rest := texts[1..];
      AnyMeaning(pattern, rest);
      assert forall i :: 0 < i < |texts| ==> texts[i] == rest[i - 1];
      assert forall i :: 0 <= i < |rest| ==> rest[i] == texts[i + 1];
    }
  }

  lemma {:induction false} PrefixLimits(pattern: string, path: string, k: nat)
    requires Relative(path) && k < |Split(path)|
    ensures Prefixes(path)[k] == Join(Split(path)[..k + 1])
    ensures !OverLimit(pattern, path) ==> !OverLimit(pattern, Prefixes(path)[k])
  {
    PrefixAt(path, k);
    PrefixOfPath(path, k);
    if !OverLimit(pattern, path) {
      var prefix := Prefixes(path)[k];
      assert prefix == path[..|prefix|];
      PrefixWithinLimit(pattern, path, |prefix|);
    }
  }

  /** Trying the first `n` prefixes of a path. */
  lemma {:induction false} PrefixesMeaning(pattern: string, path: string, n: nat)
    requires Relative(path) && n <= |Split(path)|
    ensures Says(AnyAnswer(pattern, Prefixes(path)[..n]), HitsUpTo(pattern, Split(path), n))
    ensures !OverLimit(pattern, path) ==> AnyAnswer(pattern, Prefixes(path)[..n]).Ok?
  {
    var parts := Split(path);
    var up := Prefixes(path)[..n];
    forall i | 0 <= i < |up|
      ensures (!OverLimit(pattern, path) ==> !OverLimit(pattern, up[i])) && up[i] == Join(parts[..i + 1])
    {
      PrefixLimits(pattern, path, i);
    }
    AnyMeaning(pattern, up);
    if HitsUpTo(pattern, parts, n) {
      var k :| 1 <= k <= n && Hit(pattern, Join(parts[..k]));
      assert up[k - 1] == Join(parts[..k - 1 + 1]);
    }
    if exists i :: 0 <= i < |up| && Hit(pattern, up[i]) {
      var i :| 0 <= i < |up| && Hit(pattern, up[i]);
      assert up[i] == Join(parts[..i + 1]);
    }
  }

  lemma {:induction false} HitsLast(pattern: string, path: string)
    ensures HitsPath(pattern, Split(path)) <==>
            Hit(pattern, path) || HitsUpTo(pattern, Split(path), |Split(path)| - 1)
  {
    var parts := Split(path);
    JoinSplit(path);
    assert parts[..|parts|] == parts;
  }

  lemma {:induction false} RuleMeaning(pattern: string, path: string)
    requires Relative(path)
    ensures Says(RuleAnswer(pattern, path), HitsPath(pattern, Split(path)))
    ensures !OverLimit(pattern, path) ==> RuleAnswer(pattern, path).Ok?
  {
    PrefixesMeaning(pattern, path, |Split(path)| - 1);
    HitsLast(pattern, path);
  }

  /** What the loop has yet to decide: the last hitting rule, or else the answer so far. */
  ghost predicate Carried(rules: seq<Rule>, parts: seq<string>, yes: bool) {
    IgnoredBy(rules, parts) || (yes && forall i :: 0 <= i < |rules| ==> !HitsPath(rules[i].pattern, parts))
  }

  lemma {:induction false} CarriedStep(rules: seq<Rule>, parts: seq<string>, yes: bool)
    requires rules != []
    ensures Carried(rules, parts, yes) ==
            Carried(rules[1..], parts, if HitsPath(rules[0].pattern, parts) then !rules[0].negated else yes)
  {
    var rest := rules[1..];
    assert forall i :: 0 < i < |rules| ==> rules[i] == rest[i - 1];
    assert forall i :: 0 <= i < |rest| ==> rest[i] == rules[i + 1];
    IgnoredTail(rules, parts);
  }

  /** The loop's verdict is the declarative one: the last hitting rule decides. */
  lemma {:induction false} IgnoredMeaning(rules: seq<Rule>, path: string, yes: bool)
    requires Relative(path)
    ensures Says(IgnoredAnswer(rules, path, yes), Carried(rules, Split(path), yes))
    ensures (forall i :: 0 <= i < |rules| ==> !OverLimit(rules[i].pattern, path)) ==> IgnoredAnswer(rules, path, yes).Ok?
    decreases |rules|
  {
    if rules != [] {
      var parts := Split(path);
      var rest := rules[1..];
      RuleMeaning(rules[0].pattern, path);
      IgnoredMeaning(rest, path, if HitsPath(rules[0].pattern, parts) then !rules[0].negated else yes);
      assert forall i :: 0 <= i < |rest| ==> rest[i] == rules[i + 1];
      CarriedStep(rules, parts, yes);
    }
  }

  lemma {:induction false} IgnoredTail(rules: seq<Rule>, parts: seq<string>)
    requires rules != []
    ensures IgnoredBy(rules, parts) <==>
            IgnoredBy(rules[1..], parts) || (Decides(rules, parts, 0) && !rules[0].negated)
  {
    var rest := rules[1..];
    assert forall i :: 0 < i < |rules| ==> rules[i] == rest[i - 1];
    assert forall i :: 0 <= i < |rest| ==> rest[i] == rules[i + 1];
    if IgnoredBy(rest, parts) {
      var i :| 0 <= i < |rest| && Decides(rest, parts, i) && !rest[i].negated;
      forall j | i + 1 < j < |rules| ensures !HitsPath(rules[j].pattern, parts) {
        assert rules[j] == rest[j - 1];
      }
      assert Decides(rules, parts, i + 1);
    }
    if IgnoredBy(rules, parts) {
      var i :| 0 <= i < |rules| && Decides(rules, parts, i) && !rules[i].negated;
      if 0 < i {
        forall j | i - 1 < j < |rest| ensures !HitsPath(rest[j].pattern, parts) {
          assert rest[j] == rules[j + 1];
        }
        assert Decides(rest, parts, i - 1);
      }
    }
  }

  // ------------------------------------------------- plain patterns are texts

  /** Without `*`, `?` and `[` a pattern matches exactly itself. */
  lemma {:induction false} PlainPattern(p: string, s: string)
    requires !Wild(p)
    ensures Hit(p, s) <==> s == p
    decreases |p|
  {
    if p != "" {
      assert p[0] in p;
      assert NextToken(p) == (Literal(p[0]), 1);
      var ts := Tokens(p);
      assert ts[1..] == Tokens(p[1..]);
      TakeFirst(ts, s);
      assert forall c :: c in p[1..] ==> c in p;
      if s != "" {
        PlainPattern(p[1..], s[1..]);
        assert p == [p[0]] + p[1..] && s == [s[0]] + s[1..];
      }
    }
  }

  /** The literal branch of `source_matches` answers what matching every prefix would. */
  lemma {:induction false} PlainSource(s: string, path: string)
    requires s != "" && !Wild(s)
    ensures (path == s || s + "/" <= path) <==> HitsPath(s, Split(path))
  {
    if path == s {
      PlainPattern(s, s);
      HitsLast(s, path);
    } else if s + "/" <= path {
      PlainAbove(s, path);
    }
    if HitsPath(s, Split(path)) {
      PlainBelow(s, path);
    }
  }

  lemma {:induction false} PlainAbove(s: string, path: string)
    requires !Wild(s) && s + "/" <= path
    ensures HitsPath(s, Split(path))
  {
    var below := path[|s| + 1..];
    assert path == s + "/" + below;
    JoinSplit(s);
    JoinSplit(below);
    JoinConcat(Split(s), Split(below));
    SplitJoin(Split(s) + Split(below));
    var k := |Split(s)|;
    assert Split(path)[..k] == Split(s);
    PlainPattern(s, s);
  }

  lemma {:induction false} PlainBelow(s: string, path: string)
    requires !Wild(s) && HitsPath(s, Split(path))
    ensures path == s || s + "/" <= path
  {
    var parts := Split(path);
    JoinSplit(path);
    var k :| 1 <= k <= |parts| && Hit(s, Join(parts[..k]));
    PlainPattern(s, Join(parts[..k]));
    if k == |parts| {
      assert parts[..k] == parts;
    } else {
      assert parts == parts[..k] + parts[k..];
      JoinConcat(parts[..k], parts[k..]);
    }
  }

  lemma {:induction false} SourceShape(source: string)
    ensures forall p :: p in SourceParts(source) ==> Normal(p) && '/' !in p
    ensures SourceParts(source) != [] ==> Split(Join(SourceParts(source))) == SourceParts(source)
    ensures SourceParts(source) == [] <==> Join(SourceParts(source)) == ""
    ensures Join(SourceParts(source)) != "."
  {
    var parts := SourceParts(source);
    NormalizeNormal(Split(TrimSlashes(Unbackslash(source))), []);
    if parts != [] {
      SplitJoin(parts);
      JoinNonEmpty(parts);
      SplitAtom(".");
      assert parts[0] in parts;
    }
  }

  lemma {:induction false} SourceMeaning(source: string, path: string)
    requires Relative(path)
    ensures Says(SourceAnswer(source, path), SourceHits(source, Split(path)))
    ensures !OverLimit(Join(SourceParts(source)), path) ==> SourceAnswer(source, path).Ok?
  {
    SourceShape(source);
    var s := Join(SourceParts(source));
    if s != "" {
      if Wild(s) {
        WildSource(s, path);
      } else {
        PlainSource(s, path);
      }
    }
  }

  lemma {:induction false} WildSource(s: string, path: string)
    requires Relative(path)
    ensures Says(AnyAnswer(s, Prefixes(path)), HitsPath(s, Split(path)))
    ensures !OverLimit(s, path) ==> AnyAnswer(s, Prefixes(path)).Ok?
    ensures Hit(s, path) ==> HitsPath(s, Split(path))
  {
    assert Prefixes(path)[..|Split(path)|] == Prefixes(path);
    PrefixesMeaning(s, path, |Split(path)|);
    HitsLast(s, path);
  }

  // ------------------------------------------------------------ the selector

  predicate Protected(policy: Policy, path: string) {
    path == policy.dockerfile || policy.ignoreFile == Some(path)
  }

  /** The selector sees every non-directory, non-link entry as a file. */
  predicate HasDockerfile(policy: Policy, entries: seq<Entry>) {
    exists e :: e in entries && e.path == policy.dockerfile && !e.kind.Directory? && !e.kind.Symlink?
  }

  predicate PathLe(a: Entry, b: Entry) {
    StrLe(a.path, b.path)
  }

  ghost function EntryAnswer(policy: Policy, path: string): Verdict {
    if Protected(policy, path) then Ok(true)
    else
      match (if policy.all then Ok(true) else AnySourceAnswer(policy.sources, path))
      case Err(e) => Err(e)
      case Ok(wanted) =>
        if !wanted then Ok(false) else
        match IgnoredAnswer(policy.rules, path)
        case Err(e) => Err(e)
        case Ok(ignored) => Ok(!ignored)
  }

  ghost function PickAnswer(policy: Policy, entries: seq<Entry>): Selected {
    if entries == [] then Ok([])
    else
      match EntryAnswer(policy, entries[0].path)
      case Err(e) => Err(Matcher(e))
      case Ok(chosen) =>
        match PickAnswer(policy, entries[1..])
        case Err(e) => Err(e)
        case Ok(rest) => Ok(if chosen then [entries[0]] + rest else rest)
  }

  ghost function SeenAnswer(source: string, entries: seq<Entry>): Verdict {
    if entries == [] then Ok(false)
    else
      match SourceAnswer(source, entries[0].path)
      case Err(e) => Err(e)
      case Ok(hit) =>
        match SeenAnswer(source, entries[1..])
        case Err(e) => Err(e)
        case Ok(later) => Ok(hit || later)
  }

  ghost function MissingAnswer(sources: seq<string>, entries: seq<Entry>): Option<SelectError> {
    if sources == [] then None
    else
      match SeenAnswer(sources[0], entries)
      case Err(e) => Some(Matcher(e))
      case Ok(seen) => if seen then MissingAnswer(sources[1..], entries) else Some(MissingSource(sources[0]))
  }

  ghost function SelectAnswer(policy: Policy, entries: seq<Entry>): Selected {
    if !HasDockerfile(policy, entries) then Err(MissingDockerfile(policy.dockerfile))
    else
      match PickAnswer(policy, entries)
      case Err(e) => Err(e)
      case Ok(selected) =>
        match MissingAnswer(policy.sources, entries)
        case Some(e) => Err(e)
        case None => Ok(Sort(selected, PathLe))
  }

  method SourceSeen(source: string, entries: seq<Entry>) returns (v: Verdict)
    ensures v == SeenAnswer(source, entries)
  {
    var i := |entries|;
    v := Ok(false);
    while 0 < i
      invariant 0 <= i <= |entries|
      invariant v == SeenAnswer(source, entries[i..])
    {
      i := i - 1;
      assert entries[i..][1..] == entries[i + 1..];
      var here := SourceMatches(source, entries[i].path);
      match here {
        case Err(e) => v := Err(e);
        case Ok(hit) => v := match v case Err(e) => Err(e) case Ok(later) => Ok(hit || later);
      }
    }
    assert entries[0..] == entries;
  }

  /** The verdict for one entry. */
  method Wants(policy: Policy, path: string) returns (v: Verdict)
    ensures v == EntryAnswer(policy, path)
  {
    if Protected(policy, path) {
      return Ok(true);
    }
    var wanted: Verdict := Ok(true);
    if !policy.all {
      wanted := AnySourceMatches(policy.sources, path);
    }
    if wanted.Err? || !wanted.value {
      return wanted;
    }
    var ignored := Ignored(policy.rules, path);
    v := match ignored case Err(e) => Err(e) case Ok(y) => Ok(!y);
  }

  /** The plain selector over an already observed list of entries. */
  method SelectContext(policy: Policy, entries: seq<Entry>) returns (r: Selected)
    ensures r == SelectAnswer(policy, entries)
  {
    if !HasDockerfile(policy, entries) {
      return Err(MissingDockerfile(policy.dockerfile));
    }
    var selected := [];
    ghost var picked: Selected := PickAnswer(policy, entries);
    assert entries[0..] == entries;
    assert picked.Ok? ==> [] + picked.value == picked.value;
    for i := 0 to |entries|
      invariant picked == Prepend(selected, PickAnswer(policy, entries[i..]))
    {
      assert entries[i..][1..] == entries[i + 1..];
      var here := Wants(policy, entries[i].path);
      if here.Err? {
        return Err(Matcher(here.error));
      }
      if here.value {
        ghost var rest := PickAnswer(policy, entries[i + 1..]);
        assert rest.Ok? ==> selected + ([entries[i]] + rest.value) == (selected + [entries[i]]) + rest.value;
        selected := selected + [entries[i]];
      }
    }
    assert selected + [] == selected;
    assert policy.sources[0..] == policy.sources;
    for i := 0 to |policy.sources|
      invariant MissingAnswer(policy.sources, entries) == MissingAnswer(policy.sources[i..], entries)
    {
      assert policy.sources[i..][1..] == policy.sources[i + 1..];
      var seen := SourceSeen(policy.sources[i], entries);
      if seen.Err? {
        return Err(Matcher(seen.error));
      }
      if !seen.value {
        return Err(MissingSource(policy.sources[i]));
      }
    }
    r := Ok(Sort(selected, PathLe));
  }

  ghost function Prepend(front: seq<Entry>, r: Selected): Selected {
    match r
    case Err(e) => Err(e)
    case Ok(back) => Ok(front + back)
  }

  // --------------------------------------------------- what selection means

  ghost predicate SomeSourceHits(policy: Policy, parts: seq<string>) {
    exists i :: 0 <= i < |policy.sources| && SourceHits(policy.sources[i], parts)
  }

  ghost predicate Chosen(policy: Policy, path: string) {
    || Protected(policy, path)
    || ((policy.all || SomeSourceHits(policy, Split(path))) && !IgnoredBy(policy.rules, Split(path)))
  }

  /** No matcher call on this path exceeds the matcher's limits. */
  ghost predicate Quiet(policy: Policy, path: string) {
    && (forall i :: 0 <= i < |policy.rules| ==> !OverLimit(policy.rules[i].pattern, path))
    && (forall i :: 0 <= i < |policy.sources| ==> !OverLimit(Join(SourceParts(policy.sources[i])), path))
  }

  ghost function ChosenOf(policy: Policy, entries: seq<Entry>): seq<Entry> {
    if entries == [] then []
    else (if Chosen(policy, entries[0].path) then [entries[0]] else []) + ChosenOf(policy, entries[1..])
  }

  ghost predicate SourceSeenIn(source: string, entries: seq<Entry>) {
    exists e :: e in entries && SourceHits(source, Split(e.path))
  }

  ghost function FirstMissing(sources: seq<string>, entries: seq<Entry>): Option<string> {
    if sources == [] then None
    else if SourceSeenIn(sources[0], entries) then FirstMissing(sources[1..], entries)
    else Some(sources[0])
  }

  /** The selection without any matcher: the reference every faster form must agree with. */
  ghost function Outcome(policy: Policy, entries: seq<Entry>): Selected {
    if !HasDockerfile(policy, entries) then Err(MissingDockerfile(policy.dockerfile))
    else
      match FirstMissing(policy.sources, entries)
      case Some(source) => Err(MissingSource(source))
      case None => Ok(Sort(ChosenOf(policy, entries), PathLe))
  }

  lemma {:induction false} FirstMissingExact(sources: seq<string>, entries: seq<Entry>, source: string)
    ensures FirstMissing(sources, entries) == Some(source) <==>
            exists i :: 0 <= i < |sources| && sources[i] == source && !SourceSeenIn(source, entries) &&
                        forall j :: 0 <= j < i ==> SourceSeenIn(sources[j], entries)
    ensures FirstMissing(sources, entries).None? <==> forall i :: 0 <= i < |sources| ==> SourceSeenIn(sources[i], entries)
  {
    if sources != [] {
      var rest := sources[1..];
      FirstMissingExact(rest, entries, source);
      assert forall i :: 0 <= i < |rest| ==> rest[i] == sources[i + 1];
      if exists i :: 0 <= i < |rest| && rest[i] == source && !SourceSeenIn(source, entries) && forall j :: 0 <= j < i ==> SourceSeenIn(rest[j], entries) {
        var i :| 0 <= i < |rest| && rest[i] == source && !SourceSeenIn(source, entries) && forall j :: 0 <= j < i ==> SourceSeenIn(rest[j], entries);
        if SourceSeenIn(sources[0], entries) {
          forall j | 0 <= j < i + 1 ensures SourceSeenIn(sources[j], entries) {
            assert j > 0 ==> sources[j] == rest[j - 1];
          }
          assert sources[i + 1] == source;
        }
      }
      if exists i :: 0 <= i < |sources| && sources[i] == source && !SourceSeenIn(source, entries) && forall j :: 0 <= j < i ==> SourceSeenIn(sources[j], entries) {
        var i :| 0 <= i < |sources| && sources[i] == source && !SourceSeenIn(source, entries) && forall j :: 0 <= j < i ==> SourceSeenIn(sources[j], entries);
        if i > 0 {
          assert rest[i - 1] == source;
        }
      }
    }
  }

  /**
   * The reference selection in words: a Dockerfile that is a file, the first source nothing matches,
   * and otherwise the entries that are protected or wanted and not ignored, in path order.
   */
  lemma {:induction false} OutcomeExact(policy: Policy, entries: seq<Entry>, source: string)
    ensures Outcome(policy, entries) == Err(MissingDockerfile(policy.dockerfile)) <==>
            forall e :: e in entries && e.path == policy.dockerfile ==> e.kind.Directory? || e.kind.Symlink?
    ensures Outcome(policy, entries) == Err(MissingSource(source)) <==>
            && Outcome(policy, entries) != Err(MissingDockerfile(policy.dockerfile))
            && exists i :: 0 <= i < |policy.sources| && policy.sources[i] == source && !SourceSeenIn(source, entries) &&
                           forall j :: 0 <= j < i ==> SourceSeenIn(policy.sources[j], entries)
    ensures Outcome(policy, entries).Ok? ==>
              var chosen := Outcome(policy, entries).value;
              && (forall i, j :: 0 <= i < j < |chosen| ==> StrLe(chosen[i].path, chosen[j].path))
              && multiset(chosen) <= multiset(entries)
              && forall e :: e in chosen <==>
                   && e in entries
                   && (|| e.path == policy.dockerfile
                       || policy.ignoreFile == Some(e.path)
                       || (&& (policy.all || exists i :: 0 <= i < |policy.sources| && SourceHits(policy.sources[i], Split(e.path)))
                           && !IgnoredBy(policy.rules, Split(e.path))))
  {
    FirstMissingExact(policy.sources, entries, source);
    if Outcome(policy, entries).Ok? {
      var picked := ChosenOf(policy, entries);
      ChosenMembers(policy, entries);
      ChosenPart(policy, entries);
      SortMembers(picked, PathLe);
      SortMultiset(picked, PathLe);
      PathLeTotal();
      SortSorted(picked, PathLe);
      var chosen := Outcome(policy, entries).value;
      assert chosen == Sort(picked, PathLe);
      forall i, j | 0 <= i < j < |chosen| ensures StrLe(chosen[i].path, chosen[j].path) {
        assert PathLe(chosen[i], chosen[j]);
      }
    }
  }

  lemma {:induction false} ChosenPart(policy: Policy, entries: seq<Entry>)
    ensures multiset(ChosenOf(policy, entries)) <= multiset(entries)
  {
    if entries != [] {
      ChosenPart(policy, entries[1..]);
      assert entries == [entries[0]] + entries[1..];
    }
  }

  lemma {:induction false} AnySourceMeaning(sources: seq<string>, path: string)
    requires Relative(path)
    ensures Says(AnySourceAnswer(sources, path),
                 exists i :: 0 <= i < |sources| && SourceHits(sources[i], Split(path)))
    ensures (forall i :: 0 <= i < |sources| ==> !OverLimit(Join(SourceParts(sources[i])), path)) ==>
              AnySourceAnswer(sources, path).Ok?
  {
    if sources != [] {
      var rest := sources[1..];
      SourceMeaning(sources[0], path);
      AnySourceMeaning(rest, path);
      assert forall i :: 0 < i < |sources| ==> sources[i] == rest[i - 1];
      assert forall i :: 0 <= i < |rest| ==> rest[i] == sources[i + 1];
    }
  }

  lemma {:induction false} EntryMeaning(policy: Policy, path: string)
    requires Relative(path)
    ensures Says(EntryAnswer(policy, path), Chosen(policy, path))
    ensures Quiet(policy, path) ==> EntryAnswer(policy, path).Ok?
  {
    AnySourceMeaning(policy.sources, path);
    IgnoredMeaning(policy.rules, path, false);
  }

  ghost predicate AllRelative(entries: seq<Entry>) {
    forall e :: e in entries ==> Relative(e.path)
  }

  ghost predicate QuietAll(policy: Policy, entries: seq<Entry>) {
    forall e :: e in entries ==> Quiet(policy, e.path)
  }

  lemma {:induction false} PickMeaning(policy: Policy, entries: seq<Entry>)
    requires AllRelative(entries)
    ensures var picked := PickAnswer(policy, entries);
            if picked.Ok? then picked.value == ChosenOf(policy, entries)
            else picked.error.Matcher? && !QuietAll(policy, entries)
  {
    if entries != [] {
      var rest := entries[1..];
      assert entries[0] in entries;
      EntryMeaning(policy, entries[0].path);
      assert forall e :: e in rest ==> e in entries;
      PickMeaning(policy, rest);
      assert [] + ChosenOf(policy, rest) == ChosenOf(policy, rest);
    }
  }

  lemma {:induction false} SeenMeaning(source: string, entries: seq<Entry>)
    requires AllRelative(entries)
    ensures Says(SeenAnswer(source, entries), SourceSeenIn(source, entries))
    ensures SeenAnswer(source, entries).Err? ==>
              exists e :: e in entries && OverLimit(Join(SourceParts(source)), e.path)
  {
    if entries != [] {
      var rest := entries[1..];
      assert entries == [entries[0]] + rest;
      assert forall e :: e in entries <==> e == entries[0] || e in rest;
      SourceMeaning(source, entries[0].path);
      SeenMeaning(source, rest);
    }
  }

  /** The scan for a source nothing matches reports the first one, unless the matcher refuses. */
  lemma {:induction false} MissingMeaning(sources: seq<string>, entries: seq<Entry>)
    requires AllRelative(entries)
    ensures var missing := MissingAnswer(sources, entries);
            if missing.Some? && missing.value.Matcher?
            then exists e, i :: e in entries && 0 <= i < |sources| && OverLimit(Join(SourceParts(sources[i])), e.path)
            else missing == match FirstMissing(sources, entries) { case Some(s) => Some(MissingSource(s)) case None => None }
  {
    if sources != [] {
      var rest := sources[1..];
      SeenMeaning(sources[0], entries);
      assert forall i :: 0 <= i < |rest| ==> rest[i] == sources[i + 1];
      MissingMeaning(rest, entries);
    }
  }

  ghost predicate Refused(r: Selected) {
    r.Err? && r.error.Matcher?
  }

  /**
   * Unless the matcher refuses, the selector computes the reference selection; and the matcher
   * refuses only when some entry takes one of its calls over a limit.
   */
  lemma {:induction false} SelectMeaning(policy: Policy, entries: seq<Entry>)
    requires AllRelative(entries)
    ensures !Refused(SelectAnswer(policy, entries)) ==> SelectAnswer(policy, entries) == Outcome(policy, entries)
    ensures Refused(SelectAnswer(policy, entries)) ==> !QuietAll(policy, entries)
  {
    PickMeaning(policy, entries);
    MissingMeaning(policy.sources, entries);
  }

  // ---------------------------------------- when two listings select the same

  ghost predicate DistinctPaths(entries: seq<Entry>) {
    forall i, j :: 0 <= i < j < |entries| ==> entries[i].path != entries[j].path
  }

  lemma {:induction false} ChosenMembers(policy: Policy, entries: seq<Entry>)
    ensures forall e :: e in ChosenOf(policy, entries) <==> e in entries && Chosen(policy, e.path)
    ensures DistinctPaths(entries) ==> DistinctPaths(ChosenOf(policy, entries))
  {
    if entries != [] {
      var rest := entries[1..];
      assert entries == [entries[0]] + rest;
      ChosenMembers(policy, rest);
      if DistinctPaths(entries) {
        assert DistinctPaths(rest);
        var tail := ChosenOf(policy, rest);
        forall j | 0 <= j < |tail| ensures tail[j].path != entries[0].path {
          assert tail[j] in rest;
          var k :| 0 <= k < |rest| && rest[k] == tail[j];
          assert entries[k + 1] == rest[k];
        }
      }
    }
  }

  lemma {:induction false} DistinctMultiset(a: seq<Entry>)
    requires DistinctPaths(a)
    ensures forall e :: multiset(a)[e] == if e in a then 1 else 0
  {
    assert NoDup(a);
    NoDupMultiset(a);
  }

  /** Sorting by path forgets the order the entries were observed in. */
  lemma {:induction false} SortByPathForgets(a: seq<Entry>, b: seq<Entry>)
    requires DistinctPaths(a) && DistinctPaths(b)
    requires forall e :: e in a <==> e in b
    ensures Sort(a, PathLe) == Sort(b, PathLe)
  {
    PathLeTotal();
    assert NoDup(a) && NoDup(b);
    assert Separates(PathLe, a) by {
      forall x, y | x in a && y in a && PathLe(x, y) && PathLe(y, x) ensures x == y {
        StrLeConnected(x.path, y.path);
      }
    }
    SortForgets(a, b, PathLe);
  }

  lemma PathLeTotal()
    ensures Total(PathLe)
  {
    StrLeTotal();
  }

  /**
   * A sub-listing selects the same when it keeps every chosen entry, the Dockerfile, and a
   * witness for every source the full listing has one for.
   */
  lemma {:induction false} SameOutcome(policy: Policy, full: seq<Entry>, kept: seq<Entry>)
    requires DistinctPaths(full) && DistinctPaths(kept)
    requires forall e :: e in kept ==> e in full
    requires forall e :: e in full && Chosen(policy, e.path) ==> e in kept
    requires HasDockerfile(policy, full) ==>
               forall i :: 0 <= i < |policy.sources| && SourceSeenIn(policy.sources[i], full)
                 ==> SourceSeenIn(policy.sources[i], kept)
    ensures Outcome(policy, full) == Outcome(policy, kept)
  {
    assert HasDockerfile(policy, full) ==> HasDockerfile(policy, kept) by {
      if HasDockerfile(policy, full) {
        var e :| e in full && e.path == policy.dockerfile && !e.kind.Directory? && !e.kind.Symlink?;
        assert Chosen(policy, e.path);
      }
    }
    if HasDockerfile(policy, full) {
      SameMissing(policy.sources, full, kept);
    }
    ChosenMembers(policy, full);
    ChosenMembers(policy, kept);
    SortByPathForgets(ChosenOf(policy, full), ChosenOf(policy, kept));
  }

  lemma {:induction false} SameMissing(sources: seq<string>, full: seq<Entry>, kept: seq<Entry>)
    requires forall e :: e in kept ==> e in full
    requires forall i :: 0 <= i < |sources| && SourceSeenIn(sources[i], full) ==> SourceSeenIn(sources[i], kept)
    ensures FirstMissing(sources, full) == FirstMissing(sources, kept)
  {
    if sources != [] {
      assert SourceSeenIn(sources[0], kept) ==> SourceSeenIn(sources[0], full);
      assert forall i :: 0 <= i < |sources[1..]| ==> sources[1..][i] == sources[i + 1];
      SameMissing(sources[1..], full, kept);
    }
  }
}
