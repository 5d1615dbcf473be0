/** Walk-time pruning: when the collector may skip everything beneath a directory. */
module WalkPrune {
  import opened Common
  import opened GlobMatcher
  import opened Selection

  const DEFAULT_IGNORE_NAME := "<bosn default .dockerignore>"

  function Components(pattern: string): seq<string> {
    Normalize(Split(Unbackslash(pattern)), [])
  }

  // ------------------------------------------------ meaning of the reach test

  /** Could the pattern's parts match the directory, an ancestor of it, or a path beneath it? */
  ghost predicate Reaches(pattern: seq<string>, dir: seq<string>)
    decreases |dir|
  {
    || dir == []
    || pattern == []
    || ContainsPair(pattern[0], '*')
    || (Hit(pattern[0], dir[0]) && Reaches(pattern[1..], dir[1..]))
  }

  ghost function ReachAnswer(pattern: seq<string>, dir: seq<string>): Verdict
    decreases |dir|
  {
    if dir == [] || pattern == [] || ContainsPair(pattern[0], '*') then Ok(true)
    else
      match GlobAnswer(pattern[0], dir[0])
      case Err(e) => Err(e)
      case Ok(hit) => if hit then ReachAnswer(pattern[1..], dir[1..]) else Ok(false)
  }

  lemma {:induction false} ReachMeaning(pattern: seq<string>, dir: seq<string>)
    ensures ReachAnswer(pattern, dir).Ok? ==> ReachAnswer(pattern, dir).value == Reaches(pattern, dir)
    decreases |dir|
  {
    if !(dir == [] || pattern == [] || ContainsPair(pattern[0], '*')) {
      ReachMeaning(pattern[1..], dir[1..]);
    }
  }

  /** How far the scan got: every part before `k` is free of `**` and matches its own part of the directory. */
  ghost predicate Scanned(pattern: seq<string>, dir: seq<string>, k: nat) {
    k <= |pattern| && k <= |dir| && forall i :: 0 <= i < k ==> !ContainsPair(pattern[i], '*') && Hit(pattern[i], dir[i])
  }

  /** The test says yes exactly when the parts match one by one until one list ends or a `**` part comes. */
  lemma {:induction false} ReachExact(pattern: seq<string>, dir: seq<string>)
    ensures Reaches(pattern, dir) <==>
            exists k :: 0 <= k && Scanned(pattern, dir, k) && (k == |dir| || k == |pattern| || ContainsPair(pattern[k], '*'))
    decreases |dir|
  {
    if dir == [] || pattern == [] || ContainsPair(pattern[0], '*') {
      assert Scanned(pattern, dir, 0);
    } else {
      var p, d := pattern[1..], dir[1..];
      ReachExact(p, d);
      if Reaches(pattern, dir) {
        var k :| 0 <= k && Scanned(p, d, k) && (k == |d| || k == |p| || ContainsPair(p[k], '*'));
        assert Scanned(pattern, dir, k + 1) by {
          forall i | 0 <= i < k + 1 ensures !ContainsPair(pattern[i], '*') && Hit(pattern[i], dir[i]) {
            assert i > 0 ==> pattern[i] == p[i - 1] && dir[i] == d[i - 1];
          }
        }
      }
      if exists k :: 0 <= k && Scanned(pattern, dir, k) && (k == |dir| || k == |pattern| || ContainsPair(pattern[k], '*')) {
        var k :| 0 <= k && Scanned(pattern, dir, k) && (k == |dir| || k == |pattern| || ContainsPair(pattern[k], '*'));
        assert k > 0;
        assert Scanned(p, d, k - 1) by {
          forall i | 0 <= i < k - 1 ensures !ContainsPair(p[i], '*') && Hit(p[i], d[i]) {
            assert p[i] == pattern[i + 1] && d[i] == dir[i + 1];
          }
        }
      }
    }
  }

  method ReachesDir(pattern: seq<string>, dir: seq<string>) returns (v: Verdict)
    ensures v == ReachAnswer(pattern, dir)
  {
    assert pattern[0..] == pattern && dir[0..] == dir;
    for i := 0 to |dir|
      invariant i <= |pattern|
      invariant ReachAnswer(pattern, dir) == ReachAnswer(pattern[i..], dir[i..])
    {
      assert i < |pattern| ==> pattern[i..][1..] == pattern[i + 1..];
      assert dir[i..][1..] == dir[i + 1..];
      if i == |pattern| || ContainsPair(pattern[i], '*') {
        return Ok(true);
      }
      var here, _, _ := Glob(pattern[i], dir[i]);
      if here.Err? || !here.value {
        return here;
      }
    }
    v := Ok(true);
  }

  // --------------------------------------- patterns the reach test is right for

  /** The tokenizer meets a `[` in this part that the part does not close. */
  predicate Unclosed(part: string)
    decreases |part|
  {
    part != "" && ((part[0] == '[' && ']' !in part[1..]) || Unclosed(part[NextToken(part).1..]))
  }

  /** Index of the first part with `**` in it, or the number of parts. */
  function FirstDeep(parts: seq<string>): (k: nat)
    ensures k <= |parts|
    ensures k < |parts| ==> ContainsPair(parts[k], '*')
  {
    if parts == [] || ContainsPair(parts[0], '*') then 0 else 1 + FirstDeep(parts[1..])
  }

  /** No bracket class opened before the first `**` part closes only in a later part. */
  predicate Aligned(parts: seq<string>) {
    || parts == []
    || ContainsPair(parts[0], '*')
    || (!(Unclosed(parts[0]) && ']' in Join(parts[1..])) && Aligned(parts[1..]))
  }

  /** `..` never climbs above the level the parts start on. */
  predicate StaysAbove(parts: seq<string>, height: nat) {
    if parts == [] then true
    else if parts[0] == "" || parts[0] == "." then StaysAbove(parts[1..], height)
    else if parts[0] == ".." then height > 0 && StaysAbove(parts[1..], height - 1)
    else StaysAbove(parts[1..], height + 1)
  }

  /** What the reach test needs of an ignore rule: both conditions are read off the pattern text. */
  predicate Prunable(pattern: string) {
    var parts := Split(pattern);
    && '\\' !in pattern
    && Aligned(parts)
    && (FirstDeep(parts) < |parts| ==> StaysAbove(parts[FirstDeep(parts) + 1..], 0))
  }

  // ----------------------------------------------- tokens of one pattern part

  predicate OneComponent(t: Token) {
    t.Star? || t.One? || t.Class? || (t.Literal? && t.c != '/')
  }

  /** A part without `**` yields tokens that never match a slash. */
  lemma {:induction false} PartTokens(part: string)
    requires '/' !in part && !ContainsPair(part, '*')
    ensures forall t :: t in Tokens(part) ==> OneComponent(t)
    decreases |part|
  {
    if part != "" {
      var (token, taken) := NextToken(part);
      var rest := part[taken..];
      assert part[0] in part;
      assert token != DoubleStar && token != DoubleStarSlash by {
        if 1 < |part| && part[0] == '*' {
          assert part[0 + 1] != '*';
        }
      }
      PairFreeTail(part, taken);
      assert forall c :: c in rest ==> c in part;
      PartTokens(rest);
    }
  }

  lemma {:induction false} PairFreeTail(part: string, n: nat)
    requires !ContainsPair(part, '*') && n <= |part|
    ensures !ContainsPair(part[n..], '*')
  {
    var rest := part[n..];
    forall i | 0 <= i < |rest| - 1 ensures !(rest[i] == '*' && rest[i + 1] == '*') {
      assert rest[i] == part[n + i] && rest[i + 1] == part[n + i + 1];
    }
  }

  /** Tokenizing `part/rest` is tokenizing both sides of the slash. */
  lemma {:induction false} TokensAcrossSlash(part: string, rest: string)
    requires '/' !in part && !ContainsPair(part, '*')
    requires !(Unclosed(part) && ']' in rest)
    ensures Tokens(part + "/" + rest) == Tokens(part) + [Literal('/')] + Tokens(rest)
    decreases |part|
  {
    var whole := part + "/" + rest;
    if part == "" {
      assert whole == "/" + rest;
      assert whole[1..] == rest;
      assert Tokens(part) + [Literal('/')] + Tokens(rest) == [Literal('/')] + Tokens(rest);
    } else {
      assert part[0] in part;
      SameFirstToken(part, rest);
      var (token, taken) := NextToken(part);
      var tail := part[taken..];
      assert whole[taken..] == tail + "/" + rest;
      PairFreeTail(part, taken);
      assert forall c :: c in tail ==> c in part;
      TokensAcrossSlash(tail, rest);
      assert Tokens(part) == [token] + Tokens(tail);
      assert Tokens(whole) == [token] + Tokens(tail + "/" + rest);
      ConcatFour([token], Tokens(tail), [Literal('/')], Tokens(rest));
    }
  }

  lemma {:induction false} ConcatFour(a: seq<Token>, b: seq<Token>, c: seq<Token>, d: seq<Token>)
    ensures a + (b + c + d) == a + b + c + d
  {
  }

  lemma {:induction false} SameFirstToken(part: string, rest: string)
    requires part != "" && '/' !in part && !ContainsPair(part, '*')
    requires !(Unclosed(part) && ']' in rest)
    ensures NextToken(part + "/" + rest) == NextToken(part)
  {
    var whole := part + "/" + rest;
    assert 1 < |part| ==> whole[1] == part[1];
    if 1 < |part| && part[0] == '*' {
      assert part[0 + 1] != '*';
    }
    if part[0] == '[' {
      SameBracket(part, rest);
    }
  }

  /** The first closing bracket is found at the same place, or at none. */
  lemma {:induction false} SameBracket(part: string, rest: string)
    requires part != "" && part[0] == '[' && !(Unclosed(part) && ']' in rest)
    ensures var whole := part + "/" + rest;
            var end, other := IndexOf(part[1..], ']'), IndexOf(whole[1..], ']');
            if end < |part[1..]| then other == end && whole[1..1 + end] == part[1..1 + end]
            else other == |whole[1..]|
  {
    var whole := part + "/" + rest;
    var inner, outer := part[1..], whole[1..];
    assert outer == inner + "/" + rest;
    var end := IndexOf(inner, ']');
    if end < |inner| {
      assert forall k :: 0 <= k <= end ==> outer[k] == inner[k];
      IndexOfUnique(outer, ']', end);
    } else {
      assert ']' !in inner;
      assert ']' !in outer;
      IndexOfUnique(outer, ']', |outer|);
    }
  }

  // ------------------------------------------------------ matching and slashes

  lemma {:induction false} HeadAndTail<T>(a: seq<T>)
    requires a != []
    ensures [a[0]] + a[1..] == a
  {
  }

  lemma {:induction false} CutsOfCuts(s: string, i: nat, j: nat)
    requires i + j <= |s|
    ensures s[..i] + s[i..][..j] == s[..i + j] && s[i..][j..] == s[i + j..]
  {
  }

  lemma {:induction false} FirstCut(a: seq<Token>, b: seq<Token>, s: string) returns (i: nat)
    requires a != [] && Matches(a + b, s)
    ensures i <= |s| && Accepts(a[0], s[..i]) && Matches(a[1..] + b, s[i..])
  {
    var ts := a + b;
    i := CutOf(ts, s);
    assert ts[0] == a[0] && ts[1..] == a[1..] + b;
  }

  lemma {:induction false} SplitMatch(a: seq<Token>, b: seq<Token>, s: string) returns (k: nat)
    requires Matches(a + b, s)
    ensures k <= |s| && Matches(a, s[..k]) && Matches(b, s[k..])
  {
    if a == [] {
      assert a + b == b;
      k := 0;
      assert s[0..] == s;
    } else {
      var i := FirstCut(a, b, s);
      var j := SplitMatch(a[1..], b, s[i..]);
      k := i + j;
      CutsOfCuts(s, i, j);
      MatchCons(a[0], a[1..], s[..i], s[i..][..j]);
      HeadAndTail(a);
    }
  }

  lemma {:induction false} SlashFree(ts: seq<Token>, s: string)
    requires Matches(ts, s) && forall t :: t in ts ==> OneComponent(t)
    ensures '/' !in s
  {
    if ts != [] {
      var k := CutOf(ts, s);
      assert ts[0] in ts;
      assert forall t :: t in ts[1..] ==> t in ts;
      SlashFree(ts[1..], s[k..]);
      assert s == s[..k] + s[k..];
    }
  }

  /** A pattern part matches one path part, then a slash, then the rest of both. */
  lemma {:induction false} HeadCut(part: string, rest: string, s: string) returns (k: nat)
    requires '/' !in part && !ContainsPair(part, '*') && !(Unclosed(part) && ']' in rest)
    requires Hit(part + "/" + rest, s)
    ensures k < |s| && s[k] == '/' && '/' !in s[..k] && Hit(part, s[..k]) && Hit(rest, s[k + 1..])
  {
    TokensAcrossSlash(part, rest);
    k := TokenCut(Tokens(part), Tokens(rest), s);
    PartTokens(part);
    SlashFree(Tokens(part), s[..k]);
  }

  lemma {:induction false} TokenCut(a: seq<Token>, b: seq<Token>, s: string) returns (k: nat)
    requires Matches(a + [Literal('/')] + b, s)
    ensures k < |s| && s[k] == '/' && Matches(a, s[..k]) && Matches(b, s[k + 1..])
  {
    assert a + [Literal('/')] + b == a + ([Literal('/')] + b);
    k := SplitMatch(a, [Literal('/')] + b, s);
    LiteralFirst('/', b, s[k..]);
    assert s[k..][1..] == s[k + 1..];
  }

  lemma {:induction false} LiteralFirst(c: char, b: seq<Token>, s: string)
    requires Matches([Literal(c)] + b, s)
    ensures s != "" && s[0] == c && Matches(b, s[1..])
  {
    var ts := [Literal(c)] + b;
    assert ts[0] == Literal(c) && ts[1..] == b;
    TakeFirst(ts, s);
  }

  lemma {:induction false} MatchHead(part: string, rest: string, x: seq<string>)
    requires '/' !in part && !ContainsPair(part, '*') && !(Unclosed(part) && ']' in rest)
    requires x != [] && forall p :: p in x ==> '/' !in p
    requires Hit(part + "/" + rest, Join(x))
    ensures |x| > 1 && Hit(part, x[0]) && Hit(rest, Join(x[1..]))
  {
    var s := Join(x);
    var k := HeadCut(part, rest, s);
    var y, z := s[..k], s[k + 1..];
    assert s == y + "/" + z;
    SplitJoin(x);
    SplitHead(y, z);
    assert x[0] == y && x[1..] == Split(z);
    JoinSplit(z);
  }

  lemma {:induction false} MatchOnly(part: string, x: seq<string>)
    requires '/' !in part && !ContainsPair(part, '*')
    requires x != [] && forall p :: p in x ==> '/' !in p
    requires Hit(part, Join(x))
    ensures |x| == 1 && Hit(part, x[0])
  {
    PartTokens(part);
    SlashFree(Tokens(part), Join(x));
    SplitJoin(x);
    SplitAtom(Join(x));
  }

  ghost predicate PathParts(x: seq<string>) {
    forall p :: p in x ==> Normal(p) && '/' !in p
  }

  ghost predicate Comparable(d: seq<string>, x: seq<string>) {
    d <= x || x <= d
  }

  /** A part that matches a real path part is a real part itself. */
  lemma {:induction false} NormalPart(part: string, name: string)
    requires Hit(part, name) && Normal(name)
    ensures Normal(part)
  {
    if part == "" || part == "." || part == ".." {
      PlainPattern(part, name);
    }
  }

  /** The reach test on the raw parts never misses, and the parts it reads are real parts. */
  lemma {:induction false} ReachRaw(raw: seq<string>, x: seq<string>, d: seq<string>)
    requires raw != [] && (forall p :: p in raw ==> '/' !in p) && Aligned(raw)
    requires x != [] && PathParts(x) && Comparable(d, x)
    requires Hit(Join(raw), Join(x))
    ensures Reaches(raw, d)
    ensures forall i :: 0 <= i < FirstDeep(raw) ==> Normal(raw[i])
    decreases |raw|
  {
    if !ContainsPair(raw[0], '*') {
      assert raw[0] in raw;
      assert x[0] in x;
      var rest := raw[1..];
      assert forall p :: p in rest ==> p in raw;
      if |raw| == 1 {
        MatchOnly(raw[0], x);
      } else {
        MatchHead(raw[0], Join(rest), x);
        assert forall p :: p in x[1..] ==> p in x;
        ReachRaw(rest, x[1..], if d == [] then [] else d[1..]);
      }
      NormalPart(raw[0], x[0]);
      if d != [] {
        assert d[0] == x[0];
      }
      assert forall i :: 0 < i < |raw| ==> raw[i] == rest[i - 1];
    }
  }

  // -------------------------------------------- from raw parts to normalised

  lemma {:induction false} NormalizeKeeps(parts: seq<string>, out: seq<string>, height: nat)
    requires StaysAbove(parts, height) && height <= |out|
    ensures out[..|out| - height] <= Normalize(parts, out)
    decreases |parts|
  {
    if parts != [] {
      var rest := parts[1..];
      if parts[0] == "" || parts[0] == "." {
        NormalizeKeeps(rest, out, height);
      } else if parts[0] == ".." {
        NormalizeKeeps(rest, out[..|out| - 1], height - 1);
        assert out[..|out| - 1][..|out| - height] == out[..|out| - height];
      } else {
        var next := out + [parts[0]];
        NormalizeKeeps(rest, next, height + 1);
        assert next[..|next| - (height + 1)] == out[..|out| - height];
      }
    }
  }

  lemma {:induction false} NormalizeRun(parts: seq<string>, out: seq<string>, k: nat)
    requires k <= |parts| && forall i :: 0 <= i < k ==> Normal(parts[i])
    ensures Normalize(parts, out) == Normalize(parts[k..], out + parts[..k])
    decreases k
  {
    if k == 0 {
      assert parts[0..] == parts && out + parts[..0] == out;
    } else {
      var rest := parts[1..];
      assert forall i :: 0 <= i < k - 1 ==> rest[i] == parts[i + 1];
      NormalizeRun(rest, out + [parts[0]], k - 1);
      assert rest[k - 1..] == parts[k..];
      assert (out + [parts[0]]) + rest[..k - 1] == out + parts[..k];
    }
  }

  /** The reach test reads no further than the first `**` part. */
  lemma {:induction false} ReachAgrees(a: seq<string>, b: seq<string>, k: nat, d: seq<string>)
    requires k < |a| && k < |b| && a[..k + 1] == b[..k + 1] && ContainsPair(a[k], '*')
    requires Reaches(a, d)
    ensures Reaches(b, d)
    decreases k
  {
    assert a[0] == a[..k + 1][0] && b[0] == b[..k + 1][0];
    assert a[k] == a[..k + 1][k] && b[k] == b[..k + 1][k];
    if d != [] && !ContainsPair(a[0], '*') {
      assert a[1..][..k] == a[..k + 1][1..] && b[1..][..k] == b[..k + 1][1..];
      ReachAgrees(a[1..], b[1..], k - 1, d[1..]);
    }
  }

  /** The reach test on an ignore rule over-approximates the whole-path matcher. */
  lemma {:induction false} RuleReach(pattern: string, x: seq<string>, d: seq<string>)
    requires Prunable(pattern)
    requires x != [] && PathParts(x) && Comparable(d, x)
    requires Hit(pattern, Join(x))
    ensures Reaches(Components(pattern), d)
  {
    var raw := Split(pattern);
    assert Unbackslash(pattern) == pattern;
    JoinSplit(pattern);
    ReachRaw(raw, x, d);
    var k := FirstDeep(raw);
    NormalizeRun(raw, [], k);
    assert [] + raw[..k] == raw[..k];
    if k == |raw| {
      assert raw[k..] == [];
      assert Components(pattern) == raw;
    } else {
      DeepKept(raw, k);
      ReachAgrees(raw, Components(pattern), k, d);
    }
  }

  lemma {:induction false} DeepKept(raw: seq<string>, k: nat)
    requires k < |raw| && ContainsPair(raw[k], '*') && forall i :: 0 <= i < k ==> Normal(raw[i])
    requires StaysAbove(raw[k + 1..], 0)
    ensures |Normalize(raw, [])| > k && Normalize(raw, [])[..k + 1] == raw[..k + 1]
  {
    assert Normal(raw[k]);
    NormalizeRun(raw, [], k + 1);
    assert [] + raw[..k + 1] == raw[..k + 1];
    NormalizeKeeps(raw[k + 1..], raw[..k + 1], 0);
    assert raw[..k + 1][..k + 1] == raw[..k + 1];
  }

  /** A source is normalised before it is matched, so only its bracket classes matter. */
  lemma {:induction false} SourceReach(parts: seq<string>, x: seq<string>, d: seq<string>)
    requires parts != [] && PathParts(parts) && Aligned(parts)
    requires x != [] && PathParts(x) && Comparable(d, x)
    requires Hit(Join(parts), Join(x))
    ensures Reaches(parts, d)
  {
    ReachRaw(parts, x, d);
  }

  // --------------------------------------------------------------- the pruner

  /** Names the pruner protects; the built-in rules come with a name no context is meant to hold. */
  function PrunerProtected(policy: Policy): seq<string> {
    [policy.dockerfile] +
    match policy.ignoreFile
    case Some(name) => [name]
    case None => if policy.builtIn then [DEFAULT_IGNORE_NAME] else []
  }

  ghost function NegationsAnswer(rules: seq<Rule>, dir: seq<string>): Verdict {
    if rules == [] then Ok(false)
    else if !rules[0].negated then NegationsAnswer(rules[1..], dir)
    else
      match ReachAnswer(Components(rules[0].pattern), dir)
      case Err(e) => Err(e)
      case Ok(reached) => if reached then Ok(true) else NegationsAnswer(rules[1..], dir)
  }

  ghost function SourcesAnswer(sources: seq<string>, dir: seq<string>): Verdict {
    if sources == [] then Ok(false)
    else if Components(sources[0]) == [] then SourcesAnswer(sources[1..], dir)
    else
      match ReachAnswer(Components(sources[0]), dir)
      case Err(e) => Err(e)
      case Ok(reached) => if reached then Ok(true) else SourcesAnswer(sources[1..], dir)
  }

  ghost predicate NegationsMiss(rules: seq<Rule>, dir: seq<string>) {
    forall i :: 0 <= i < |rules| && rules[i].negated ==> !Reaches(Components(rules[i].pattern), dir)
  }

  ghost predicate SourcesMiss(sources: seq<string>, dir: seq<string>) {
    forall i :: 0 <= i < |sources| && Components(sources[i]) != [] ==> !Reaches(Components(sources[i]), dir)
  }

  /** What a `true` from the pruner rests on. */
  ghost predicate Pruned(policy: Policy, dir: string) {
    && IgnoredAnswer(policy.rules, dir) == Ok(true)
    && !ProtectedBeneath(policy, dir)
    && NegationsMiss(policy.rules, Components(dir))
    && SourcesMiss(policy.sources, Components(dir))
  }

  lemma {:induction false} NegationsMeaning(rules: seq<Rule>, dir: seq<string>)
    ensures NegationsAnswer(rules, dir).Ok? ==> NegationsAnswer(rules, dir).value == !NegationsMiss(rules, dir)
  {
    if rules != [] {
      ReachMeaning(Components(rules[0].pattern), dir);
      NegationsMeaning(rules[1..], dir);
      assert forall i :: 0 < i < |rules| ==> rules[i] == rules[1..][i - 1];
      assert forall i :: 0 <= i < |rules[1..]| ==> rules[1..][i] == rules[i + 1];
    }
  }

  lemma {:induction false} SourcesMeaning(sources: seq<string>, dir: seq<string>)
    ensures SourcesAnswer(sources, dir).Ok? ==> SourcesAnswer(sources, dir).value == !SourcesMiss(sources, dir)
  {
    if sources != [] {
      ReachMeaning(Components(sources[0]), dir);
      SourcesMeaning(sources[1..], dir);
      assert forall i :: 0 < i < |sources| ==> sources[i] == sources[1..][i - 1];
      assert forall i :: 0 <= i < |sources[1..]| ==> sources[1..][i] == sources[i + 1];
    }
  }

  ghost function PruneAnswer(policy: Policy, dir: string): Verdict {
    if policy.rules == [] then Ok(false)
    else
      match IgnoredAnswer(policy.rules, dir)
      case Err(e) => Err(e)
      case Ok(ignored) =>
        if !ignored || ProtectedBeneath(policy, dir) then Ok(false) else
        match NegationsAnswer(policy.rules, Components(dir))
        case Err(e) => Err(e)
        case Ok(reached) =>
          if reached then Ok(false) else
          match SourcesAnswer(policy.sources, Components(dir))
          case Err(e) => Err(e)
          case Ok(wanted) => Ok(!wanted)
  }

  predicate ProtectedBeneath(policy: Policy, dir: string) {
    var protect := PrunerProtected(policy);
    exists i :: 0 <= i < |protect| && dir + "/" <= protect[i]
  }

  lemma {:induction false} PruneMeaning(policy: Policy, dir: string)
    ensures PruneAnswer(policy, dir).Ok? ==> PruneAnswer(policy, dir).value == Pruned(policy, dir)
    ensures Pruned(policy, dir) ==>
              && !(dir + "/" <= policy.dockerfile)
              && (policy.ignoreFile.Some? ==> !(dir + "/" <= policy.ignoreFile.value))
    ensures ProtectedBeneath(policy, dir) ==>
              || dir + "/" <= policy.dockerfile
              || (policy.ignoreFile.Some? && dir + "/" <= policy.ignoreFile.value)
              || (policy.ignoreFile.None? && policy.builtIn && dir + "/" <= DEFAULT_IGNORE_NAME)
  {
    NegationsMeaning(policy.rules, Components(dir));
    SourcesMeaning(policy.sources, Components(dir));
    var protect := PrunerProtected(policy);
    assert protect[0] == policy.dockerfile;
    assert policy.ignoreFile.Some? ==> protect[1] == policy.ignoreFile.value;
  }

  method ComponentsLoop(pattern: string) returns (out: seq<string>)
    ensures out == Components(pattern)
  {
    out := NormalizeLoop(Split(Unbackslash(pattern)));
  }

  /** The early-return scan of the pruner. */
  method Prunes(policy: Policy, dir: string) returns (v: Verdict)
    ensures v == PruneAnswer(policy, dir)
  {
    if policy.rules == [] {
      return Ok(false);
    }
    var ignored := Ignored(policy.rules, dir);
    if ignored.Err? || !ignored.value {
      return ignored;
    }
    if ProtectedBeneath(policy, dir) {
      return Ok(false);
    }
    var parts := ComponentsLoop(dir);
    assert policy.rules[0..] == policy.rules && policy.sources[0..] == policy.sources;
    for i := 0 to |policy.rules|
      invariant NegationsAnswer(policy.rules, parts) == NegationsAnswer(policy.rules[i..], parts)
    {
      assert policy.rules[i..][1..] == policy.rules[i + 1..];
      if policy.rules[i].negated {
        var pattern := ComponentsLoop(policy.rules[i].pattern);
        var reached := ReachesDir(pattern, parts);
        if reached.Err? {
          return reached;
        }
        if reached.value {
          return Ok(false);
        }
      }
    }
    for i := 0 to |policy.sources|
      invariant SourcesAnswer(policy.sources, parts) == SourcesAnswer(policy.sources[i..], parts)
    {
      assert policy.sources[i..][1..] == policy.sources[i + 1..];
      var source := ComponentsLoop(policy.sources[i]);
      if source != [] {
        var reached := ReachesDir(source, parts);
        if reached.Err? {
          return reached;
        }
        if reached.value {
          return Ok(false);
        }
      }
    }
    v := Ok(true);
  }

  /** An entry the walk counts as selected: a superset of what the selector chooses. */
  ghost predicate WalkSelects(policy: Policy, path: string) {
    || path in PrunerProtected(policy)
    || ((policy.all || SomeSourceHits(policy, Split(path))) && !IgnoredBy(policy.rules, Split(path)))
  }

  /** A file that bears the built-in rules' name, where they are in force. */
  predicate BearsBuiltInName(policy: Policy, path: string) {
    policy.ignoreFile.None? && policy.builtIn && path == DEFAULT_IGNORE_NAME
  }

  /** The walk counts what the selector chooses and, besides, a file with the built-in rules' name. */
  lemma {:induction false} WalkSelectsExact(policy: Policy, path: string)
    ensures WalkSelects(policy, path) <==> Chosen(policy, path) || BearsBuiltInName(policy, path)
  {
    assert path in PrunerProtected(policy) <==> Protected(policy, path) || BearsBuiltInName(policy, path);
  }

  /** A Rust workspace without an ignore file, whose Dockerfile copies only `src`. */
  const RUST_POLICY := Policy("Dockerfile", None, true,
                              [Rule(".git", false), Rule("target", false), Rule("**/target", false)], ["src"], false)

  /** That name is one a context can hold: the walk then counts a file the selector does not choose. */
  lemma {:induction false} BuiltInNameCounted(policy: Policy, name: string)
    requires policy == RUST_POLICY && name == DEFAULT_IGNORE_NAME
    ensures Relative(name) && WalkSelects(policy, name) && !Chosen(policy, name)
    ensures BearsBuiltInName(policy, name)
  {
    BuiltInNameShape(name);
    OnePartRelative(name);
    assert PrunerProtected(policy)[1] == name;
    PlainUnwanted(policy, policy.sources[0], name);
  }

  lemma {:induction false} BuiltInNameShape(name: string)
    requires name == DEFAULT_IGNORE_NAME
    ensures '/' !in name && '\\' !in name && ':' !in name && Normal(name) && name != "src" && name != "Dockerfile"
  {
  }

  lemma {:induction false} OnePartRelative(name: string)
    requires '/' !in name && '\\' !in name && ':' !in name && Normal(name)
    ensures Relative(name)
  {
    SplitAtom(name);
  }

  lemma {:induction false} PlainUnwanted(policy: Policy, source: string, name: string)
    requires policy.sources == [source] && !policy.all && !Protected(policy, name)
    requires Normal(source) && !Wild(source) && '/' !in source && '\\' !in source && '/' !in name && name != source
    ensures !Chosen(policy, name)
  {
    SplitAtom(name);
    OnePart(source);
    assert Join([source]) == source;
    assert [name][..1] == [name] && Join([name]) == name;
    PlainPattern(source, name);
    assert !SourceHits(source, [name]);
  }

  lemma {:induction false} OnePart(source: string)
    requires Normal(source) && '/' !in source && '\\' !in source
    ensures SourceParts(source) == [source]
  {
    NoBackslash(source);
    assert TrimSlashes(source) == source;
    SplitAtom(source);
    assert [source][1..] == [] && [] + [source] == [source];
    assert Normalize([], [source]) == [source];
  }

  ghost function SourceFlags(policy: Policy, parts: seq<string>): (h: seq<bool>)
    requires parts != []
    ensures |h| == |policy.sources| && forall i :: 0 <= i < |h| ==> h[i] == SourceHits(policy.sources[i], parts)
  {
    seq(|policy.sources|, i requires 0 <= i < |policy.sources| => SourceHits(policy.sources[i], parts))
  }

  ghost function FreshFlags(seen: seq<bool>, hits: seq<bool>): (f: seq<bool>)
    requires |seen| == |hits|
    ensures |f| == |hits| && forall i :: 0 <= i < |f| ==> f[i] == (!seen[i] && hits[i])
  {
    seq(|hits|, i requires 0 <= i < |hits| => !seen[i] && hits[i])
  }

  /** What the matcher says of each source, where it does not refuse. */
  ghost predicate Answers(policy: Policy, path: string, hits: seq<bool>) {
    && |hits| == |policy.sources|
    && forall i {:trigger SourceAnswer(policy.sources[i], path)} ::
         0 <= i < |hits| ==> Says(SourceAnswer(policy.sources[i], path), hits[i])
  }

  ghost predicate Answered(policy: Policy, path: string) {
    forall i {:trigger SourceAnswer(policy.sources[i], path)} ::
      0 <= i < |policy.sources| ==> SourceAnswer(policy.sources[i], path).Ok?
  }

  lemma {:induction false} AnswersKnown(policy: Policy, path: string)
    requires Relative(path)
    ensures Answers(policy, path, SourceFlags(policy, Split(path)))
    ensures Quiet(policy, path) ==> Answered(policy, path)
  {
    forall i | 0 <= i < |policy.sources|
      ensures Says(SourceAnswer(policy.sources[i], path), SourceHits(policy.sources[i], Split(path)))
      ensures Quiet(policy, path) ==> SourceAnswer(policy.sources[i], path).Ok?
    {
      SourceMeaning(policy.sources[i], path);
    }
  }

  method MarkSource(policy: Policy, path: string, i: nat, seen: array<bool>, ghost hits: seq<bool>) returns (r: Result<(bool, bool), MatchError>)
    requires i < |policy.sources| == seen.Length
    modifies seen
    ensures forall k :: 0 <= k < seen.Length && k != i ==> seen[k] == old(seen[k])
    ensures r.Ok? && Answers(policy, path, hits) ==>
              r.value == (hits[i], hits[i] && !old(seen[i])) && seen[i] == (old(seen[i]) || hits[i])
    ensures Answered(policy, path) ==> r.Ok?
  {
    var here := SourceMatches(policy.sources[i], path);
    if here.Err? {
      return Err(here.error);
    }
    var novel := false;
    if here.value && !seen[i] {
      seen[i] := true;
      novel := true;
    }
    r := Ok((here.value, novel));
  }

  /** Flip the flag of every source this path matches; say whether any did, and whether any was new. */
  method MarkSources(policy: Policy, path: string, seen: array<bool>, ghost hits: seq<bool>)
    returns (r: Result<(bool, bool), MatchError>)
    requires seen.Length == |policy.sources|
    modifies seen
    ensures r.Ok? && Answers(policy, path, hits) ==>
              && r.value == (true in hits, true in FreshFlags(old(seen[..]), hits))
              && forall i :: 0 <= i < seen.Length ==> seen[i] == (old(seen[i]) || hits[i])
    ensures Answered(policy, path) ==> r.Ok?
  {
    var novel := false;
    var matches := false;
    ghost var known := Answers(policy, path, hits);
    ghost var before := seen[..];
    ghost var novelties := if known then FreshFlags(before, hits) else [];
    for i := 0 to |policy.sources|
      invariant forall k :: i <= k < seen.Length ==> seen[k] == before[k]
      invariant known ==> forall k :: 0 <= k < i ==> seen[k] == (before[k] || hits[k])
      invariant known ==> (matches <==> true in hits[..i])
      invariant known ==> (novel <==> true in novelties[..i])
    {
      assert known ==> hits[..i + 1] == hits[..i] + [hits[i]] && novelties[..i + 1] == novelties[..i] + [novelties[i]];
      var here := MarkSource(policy, path, i, seen, hits);
      if here.Err? {
        return Err(here.error);
      }
      matches := matches || here.value.0;
      novel := novel || here.value.1;
    }
    assert known ==> hits[..|hits|] == hits && novelties[..|novelties|] == novelties;
    r := Ok((matches, novel));
  }

  /** Protected paths are kept; otherwise a wanted path is kept unless the rules ignore it. */
  method Selects(policy: Policy, path: string, matches: bool) returns (r: Result<bool, MatchError>)
    ensures Relative(path) && r.Ok? && (matches <==> SomeSourceHits(policy, Split(path))) ==>
              r.value == WalkSelects(policy, path)
    ensures Relative(path) && Quiet(policy, path) ==> r.Ok?
  {
    var selected := path in PrunerProtected(policy);
    if !selected && (policy.all || matches) {
      var ignored := Ignored(policy.rules, path);
      if Relative(path) {
        IgnoredMeaning(policy.rules, path, false);
      }
      if ignored.Err? {
        return Err(ignored.error);
      }
      selected := !ignored.value;
    }
    r := Ok(selected);
  }

  /**
   * Classify one path, flipping `seen` for every source it is the first witness of.
   * Unless the matcher refuses the answers are the declarative ones, and away from its limits it does not.
   */
  method Classify(policy: Policy, path: string, seen: array<bool>)
    returns (r: Result<(bool, bool), MatchError>)
    requires seen.Length == |policy.sources|
    modifies seen
    ensures Relative(path) && Quiet(policy, path) ==> r.Ok?
    ensures Relative(path) && r.Ok? ==>
              && r.value.0 == WalkSelects(policy, path)
              && (forall i :: 0 <= i < seen.Length ==>
                                seen[i] == (old(seen[i]) || SourceHits(policy.sources[i], Split(path))))
              && r.value.1 == (r.value.0 ||
                               exists i :: 0 <= i < seen.Length && !old(seen[i]) && SourceHits(policy.sources[i], Split(path)))
  {
    ghost var hits := SourceFlags(policy, Split(path));
    if Relative(path) {
      AnswersKnown(policy, path);
    }
    var marked := MarkSources(policy, path, seen, hits);
    if marked.Err? {
      return Err(marked.error);
    }
    var selected := Selects(policy, path, marked.value.0);
    if selected.Err? {
      return Err(selected.error);
    }
    r := Ok((selected.value, selected.value || marked.value.1));
  }

  // -------------------------------------------------- what a pruned tree holds

  /** Leading slashes only add empty parts, which both normalisations drop. */
  lemma {:induction false} TrimIsNothing(s: string)
    ensures Normalize(Split(TrimSlashes(s)), []) == Normalize(Split(s), [])
  {
    if s != "" && s[0] == '/' {
      TrimIsNothing(s[1..]);
      SplitHead("", s[1..]);
      assert "" + "/" + s[1..] == s;
      assert ([""] + Split(s[1..]))[1..] == Split(s[1..]);
    }
  }

  lemma {:induction false} SourceComponents(source: string)
    ensures Components(source) == SourceParts(source)
  {
    TrimIsNothing(Unbackslash(source));
  }

  lemma {:induction false} PathComponents(path: string)
    requires Relative(path)
    ensures Components(path) == Split(path) && PathParts(Split(path))
  {
    assert Unbackslash(path) == path;
    var parts := Split(path);
    NormalizeRun(parts, [], |parts|);
    assert parts[|parts|..] == [] && [] + parts[..|parts|] == parts;
  }

  /** The patterns of a policy are ones the reach test is right for. */
  predicate PrunablePolicy(policy: Policy) {
    && (forall i :: 0 <= i < |policy.rules| && policy.rules[i].negated ==> Prunable(policy.rules[i].pattern))
    && (forall i :: 0 <= i < |policy.sources| ==> Aligned(SourceParts(policy.sources[i])))
  }

  lemma {:induction false} PlainSourceAligned(policy: Policy)
    requires policy == RUST_POLICY
    ensures PrunablePolicy(policy)
  {
    PlainPartAligned(policy.sources[0]);
  }

  lemma {:induction false} PlainPartAligned(source: string)
    requires Normal(source) && '[' !in source && '/' !in source && '\\' !in source
    ensures Aligned(SourceParts(source))
  {
    OnePart(source);
    PlainClosed(source);
  }

  lemma {:induction false} PlainClosed(part: string)
    requires '[' !in part
    ensures !Unclosed(part)
    decreases |part|
  {
    if part != "" {
      var rest := part[NextToken(part).1..];
      assert part[0] in part && forall c :: c in rest ==> c in part;
      PlainClosed(rest);
    }
  }

  lemma {:induction false} MissedRule(pattern: string, d: seq<string>, x: seq<string>)
    requires Prunable(pattern) && PathParts(x) && d <= x && d != []
    requires !Reaches(Components(pattern), d)
    ensures !HitsPath(pattern, x)
  {
    forall k | 1 <= k <= |x| ensures !Hit(pattern, Join(x[..k])) {
      var y := x[..k];
      assert Comparable(d, y);
      assert PathParts(y);
      if Hit(pattern, Join(y)) {
        RuleReach(pattern, y, d);
      }
    }
  }

  lemma {:induction false} MissedSource(source: string, d: seq<string>, x: seq<string>)
    requires Aligned(SourceParts(source)) && PathParts(x) && d <= x && d != []
    requires SourceParts(source) != [] && !Reaches(SourceParts(source), d)
    ensures !SourceHits(source, x)
  {
    SourceShape(source);
    var parts := SourceParts(source);
    assert PathParts(parts);
    forall k | 1 <= k <= |x| ensures !Hit(Join(parts), Join(x[..k])) {
      var y := x[..k];
      assert Comparable(d, y);
      assert PathParts(y);
      if Hit(Join(parts), Join(y)) {
        SourceReach(parts, y, d);
      }
    }
  }

  /** A rule that hits a directory hits everything beneath it. */
  lemma {:induction false} HitsInherit(pattern: string, d: seq<string>, x: seq<string>)
    requires d <= x && HitsPath(pattern, d)
    ensures HitsPath(pattern, x)
  {
    var k :| 1 <= k <= |d| && Hit(pattern, Join(d[..k]));
    assert d[..k] == x[..k];
  }

  /** The directory is ignored and no negation can speak for a path beneath it. */
  lemma {:induction false} IgnoredBeneath(rules: seq<Rule>, d: seq<string>, x: seq<string>)
    requires d <= x && IgnoredBy(rules, d)
    requires forall i :: 0 <= i < |rules| && rules[i].negated ==> !HitsPath(rules[i].pattern, x)
    ensures IgnoredBy(rules, x)
  {
    var i :| 0 <= i < |rules| && Decides(rules, d, i) && !rules[i].negated;
    HitsInherit(rules[i].pattern, d, x);
    var last := LastHit(rules, x, i);
  }

  lemma {:induction false} LastHit(rules: seq<Rule>, x: seq<string>, i: nat) returns (last: nat)
    requires i < |rules| && HitsPath(rules[i].pattern, x)
    ensures last < |rules| && Decides(rules, x, last)
    decreases |rules| - i
  {
    if exists j :: i < j < |rules| && HitsPath(rules[j].pattern, x) {
      var j :| i < j < |rules| && HitsPath(rules[j].pattern, x);
      last := LastHit(rules, x, j);
    } else {
      last := i;
    }
  }

  /** A path beneath a pruned directory: ignored, unprotected, and no witness of any source but the root. */
  ghost predicate Dead(policy: Policy, path: string) {
    && IgnoredBy(policy.rules, Split(path))
    && path !in PrunerProtected(policy)
    && forall i :: 0 <= i < |policy.sources| && SourceParts(policy.sources[i]) != [] ==>
                     !SourceHits(policy.sources[i], Split(path))
  }

  /**
   * Skipping a pruned directory loses nothing, whatever the names beneath it: only real path
   * parts are asked of them, not that the collector could label or match them.
   */
  lemma {:induction false} PrunedBeneath(policy: Policy, dir: string, path: string)
    requires PrunablePolicy(policy) && PruneAnswer(policy, dir) == Ok(true)
    requires Relative(dir) && PathParts(Split(path))
    requires dir + "/" <= path
    ensures Dead(policy, path)
  {
    var d, x := Split(dir), Split(path);
    PruneMeaning(policy, dir);
    PathComponents(dir);
    PartsBeneath(dir, path);
    IgnoredMeaning(policy.rules, dir, false);
    forall i | 0 <= i < |policy.rules| && policy.rules[i].negated
      ensures !HitsPath(policy.rules[i].pattern, x)
    {
      MissedRule(policy.rules[i].pattern, d, x);
    }
    IgnoredBeneath(policy.rules, d, x);
    forall i | 0 <= i < |policy.sources| && SourceParts(policy.sources[i]) != []
      ensures !SourceHits(policy.sources[i], x)
    {
      SourceComponents(policy.sources[i]);
      MissedSource(policy.sources[i], d, x);
    }
  }

  lemma {:induction false} PartsBeneath(dir: string, path: string)
    requires dir + "/" <= path
    ensures Split(dir) < Split(path)
  {
    var below := path[|dir| + 1..];
    assert path == dir + "/" + below;
    JoinSplit(dir);
    JoinSplit(below);
    JoinConcat(Split(dir), Split(below));
    SplitJoin(Split(dir) + Split(below));
  }

  // ----------------------------------- the pruner asks nothing new of the matcher

  lemma {:induction false} WeightConcat(a: seq<Token>, b: seq<Token>)
    ensures TotalWeight(a + b) == TotalWeight(a) + TotalWeight(b)
  {
    if a == [] {
      assert a + b == b;
    } else {
      assert (a + b)[1..] == a[1..] + b;
      WeightConcat(a[1..], b);
    }
  }

  lemma {:induction false} WorkMonotone(n: nat, w: nat, m: nat, n': nat, w': nat, m': nat)
    requires n <= n' && w <= w' && m <= m'
    ensures n * m + w * m <= n' * m' + w' * m'
  {
    ScaleMonotone(n, m, m');
    ScaleMonotone(w, m, m');
    ScaleMonotone(m', n, n');
    ScaleMonotone(m', w, w');
  }

  /** A pattern with fewer tokens, members and bytes on a smaller text stays within the limits. */
  lemma {:induction false} SmallerWithinLimit(p: string, s: string, p': string, s': string)
    requires !OverLimit(p', s') && Utf8Size(p) <= Utf8Size(p') && Utf8Size(s) <= Utf8Size(s') && |s| <= |s'|
    requires |Tokens(p)| <= |Tokens(p')| && TotalWeight(Tokens(p)) <= TotalWeight(Tokens(p'))
    ensures !OverLimit(p, s)
  {
    WorkMonotone(|Tokens(p)| + 1, TotalWeight(Tokens(p)), |s| + 1,
                 |Tokens(p')| + 1, TotalWeight(Tokens(p')), |s'| + 1);
  }

  lemma {:induction false} SideCosts(part: string, rest: string)
    requires '/' !in part && !ContainsPair(part, '*') && !(Unclosed(part) && ']' in rest)
    ensures var whole := part + "/" + rest;
            && Utf8Size(part) <= Utf8Size(whole) && Utf8Size(rest) <= Utf8Size(whole)
            && |Tokens(part)| <= |Tokens(whole)| && |Tokens(rest)| <= |Tokens(whole)|
            && TotalWeight(Tokens(part)) <= TotalWeight(Tokens(whole))
            && TotalWeight(Tokens(rest)) <= TotalWeight(Tokens(whole))
  {
    TokensAcrossSlash(part, rest);
    WeightConcat(Tokens(part) + [Literal('/')], Tokens(rest));
    WeightConcat(Tokens(part), [Literal('/')]);
    Utf8SizeConcat(part + "/", rest);
    Utf8SizeConcat(part, "/");
  }

  /** Where the whole pattern is within the limits, so is each part before the first `**` part. */
  lemma {:induction false} PartWithinLimit(parts: seq<string>, k: nat, text: string, path: string)
    requires Aligned(parts) && (forall p :: p in parts ==> '/' !in p) && k < FirstDeep(parts)
    requires !OverLimit(Join(parts), path) && |text| <= |path| && Utf8Size(text) <= Utf8Size(path)
    ensures !OverLimit(parts[k], text)
    decreases |parts|
  {
    assert parts[0] in parts;
    var rest := parts[1..];
    if rest == [] {
      SmallerWithinLimit(parts[0], text, Join(parts), path);
    } else {
      SideCosts(parts[0], Join(rest));
      if k == 0 {
        SmallerWithinLimit(parts[0], text, Join(parts), path);
      } else {
        SmallerWithinLimit(Join(rest), path, Join(parts), path);
        assert forall p :: p in rest ==> p in parts;
        PartWithinLimit(rest, k - 1, text, path);
      }
    }
  }

  lemma {:induction false} PartSmaller(s: string, k: nat)
    requires k < |Split(s)|
    ensures |Split(s)[k]| <= |s| && Utf8Size(Split(s)[k]) <= Utf8Size(s)
    decreases |s|
  {
    var i := IndexOf(s, '/');
    if i < |s| {
      var rest := s[i + 1..];
      CutAt(s, i);
      Utf8SizeConcat(s[..i] + "/", rest);
      Utf8SizeConcat(s[..i], "/");
      if k > 0 {
        PartSmaller(rest, k - 1);
      }
    }
  }

  lemma {:induction false} ReachAnswered(pattern: seq<string>, dir: seq<string>)
    requires forall i :: 0 <= i < |dir| && i < FirstDeep(pattern) ==> !OverLimit(pattern[i], dir[i])
    ensures ReachAnswer(pattern, dir).Ok?
    decreases |dir|
  {
    if !(dir == [] || pattern == [] || ContainsPair(pattern[0], '*')) {
      var p, d := pattern[1..], dir[1..];
      forall i | 0 <= i < |d| && i < FirstDeep(p) ensures !OverLimit(p[i], d[i]) {
        assert p[i] == pattern[i + 1] && d[i] == dir[i + 1];
      }
      ReachAnswered(p, d);
    }
  }

  lemma {:induction false} NormalizeSome(parts: seq<string>, out: seq<string>)
    ensures forall p :: p in Normalize(parts, out) ==> p in parts || p in out
    decreases |parts|
  {
    if parts != [] {
      NormalizeSome(parts[1..],
                    if parts[0] == "" || parts[0] == "." then out
                    else if parts[0] == ".." then if out == [] then [] else out[..|out| - 1]
                    else out + [parts[0]]);
    }
  }

  lemma {:induction false} NormalizeConcat(a: seq<string>, b: seq<string>, out: seq<string>)
    ensures Normalize(a + b, out) == Normalize(b, Normalize(a, out))
    decreases |a|
  {
    if a == [] {
      assert a + b == b;
    } else {
      assert (a + b)[1..] == a[1..] + b;
      NormalizeConcat(a[1..], b,
                      if a[0] == "" || a[0] == "." then out
                      else if a[0] == ".." then if out == [] then [] else out[..|out| - 1]
                      else out + [a[0]]);
    }
  }

  lemma {:induction false} FirstDeepAt(parts: seq<string>, k: nat)
    requires k < |parts| && ContainsPair(parts[k], '*')
    ensures FirstDeep(parts) <= k
  {
    if k > 0 && !ContainsPair(parts[0], '*') {
      FirstDeepAt(parts[1..], k - 1);
    }
  }

  /** What the reach test reads of a normalised rule stands before the first `**` of the rule as written. */
  lemma {:induction false} ReadParts(pattern: string, i: nat) returns (k: nat)
    requires Prunable(pattern) && i < FirstDeep(Components(pattern))
    ensures k < FirstDeep(Split(pattern)) && Split(pattern)[k] == Components(pattern)[i]
  {
    var raw := Split(pattern);
    var parts := Components(pattern);
    NoBackslash(pattern);
    var deep := FirstDeep(raw);
    var front := Normalize(raw[..deep], []);
    NormalizeSome(raw[..deep], []);
    assert raw == raw[..deep] + raw[deep..];
    NormalizeConcat(raw[..deep], raw[deep..], []);
    if deep == |raw| {
      assert parts == front;
    } else {
      var kept := front + [raw[deep]];
      assert raw[deep..][1..] == raw[deep + 1..];
      assert Normalize(raw[deep..], front) == Normalize(raw[deep + 1..], kept);
      NormalizeKeeps(raw[deep + 1..], kept, 0);
      assert kept[..|kept| - 0] == kept;
      assert parts[|front|] == raw[deep];
      FirstDeepAt(parts, |front|);
      assert parts[i] == kept[i] == front[i];
    }
    assert parts[i] in raw[..deep];
    k :| 0 <= k < deep && raw[k] == parts[i];
  }

  lemma {:induction false} RuleReachAnswered(pattern: string, dir: string)
    requires Prunable(pattern) && Relative(dir) && !OverLimit(pattern, dir)
    ensures ReachAnswer(Components(pattern), Split(dir)).Ok?
  {
    var parts, d := Components(pattern), Split(dir);
    JoinSplit(pattern);
    forall i | 0 <= i < |d| && i < FirstDeep(parts) ensures !OverLimit(parts[i], d[i]) {
      var k := ReadParts(pattern, i);
      PartSmaller(dir, i);
      PartWithinLimit(Split(pattern), k, d[i], dir);
    }
    ReachAnswered(parts, d);
  }

  lemma {:induction false} SourceReachAnswered(source: string, dir: string)
    requires Aligned(SourceParts(source)) && Relative(dir) && !OverLimit(Join(SourceParts(source)), dir)
    ensures ReachAnswer(Components(source), Split(dir)).Ok?
  {
    var parts, d := SourceParts(source), Split(dir);
    SourceComponents(source);
    SourceShape(source);
    forall i | 0 <= i < |d| && i < FirstDeep(parts) ensures !OverLimit(parts[i], d[i]) {
      PartSmaller(dir, i);
      PartWithinLimit(parts, i, d[i], dir);
    }
    ReachAnswered(parts, d);
  }

  lemma {:induction false} NegationsAnswered(rules: seq<Rule>, dir: string)
    requires Relative(dir)
    requires forall i :: 0 <= i < |rules| ==> !OverLimit(rules[i].pattern, dir)
    requires forall i :: 0 <= i < |rules| && rules[i].negated ==> Prunable(rules[i].pattern)
    ensures NegationsAnswer(rules, Split(dir)).Ok?
  {
    if rules != [] {
      var rest := rules[1..];
      assert forall i :: 0 <= i < |rest| ==> rest[i] == rules[i + 1];
      NegationsAnswered(rest, dir);
      if rules[0].negated {
        RuleReachAnswered(rules[0].pattern, dir);
      }
    }
  }

  lemma {:induction false} SourcesAnswered(sources: seq<string>, dir: string)
    requires Relative(dir)
    requires forall i :: 0 <= i < |sources| ==> Aligned(SourceParts(sources[i]))
    requires forall i :: 0 <= i < |sources| ==> !OverLimit(Join(SourceParts(sources[i])), dir)
    ensures SourcesAnswer(sources, Split(dir)).Ok?
  {
    if sources != [] {
      var rest := sources[1..];
      assert forall i :: 0 <= i < |rest| ==> rest[i] == sources[i + 1];
      SourcesAnswered(rest, dir);
      SourceReachAnswered(sources[0], dir);
    }
  }

  /** A directory the whole-path matcher is not refused on is one the pruner is not refused on. */
  lemma {:induction false} PruneAnswered(policy: Policy, dir: string)
    requires PrunablePolicy(policy) && Relative(dir) && Quiet(policy, dir)
    ensures PruneAnswer(policy, dir).Ok?
  {
    PathComponents(dir);
    IgnoredMeaning(policy.rules, dir, false);
    NegationsAnswered(policy.rules, dir);
    SourcesAnswered(policy.sources, dir);
  }

  // ------------------------------------------------ both conditions are needed

  lemma {:induction false} MatchCons(t: Token, ts: seq<Token>, x: string, y: string)
    requires Accepts(t, x) && Matches(ts, y)
    ensures Matches([t] + ts, x + y)
  {
    var all, s := [t] + ts, x + y;
    assert all[0] == t && all[1..] == ts;
    assert s[..|x|] == x && s[|x|..] == y;
    MatchesByCut(all, s, |x|);
  }

  lemma {:induction false} Spliced<T>(a: seq<T>, b: seq<T>, k: nat)
    requires k <= |a|
    ensures a + b == a[..k] + (a[k..] + b)
  {
  }

  lemma {:induction false} MatchConcat(a: seq<Token>, b: seq<Token>, x: string, y: string)
    requires Matches(a, x) && Matches(b, y)
    ensures Matches(a + b, x + y)
  {
    if a == [] {
      assert a + b == b && x + y == y;
    } else {
      var k := CutOf(a, x);
      MatchConcat(a[1..], b, x[k..], y);
      MatchCons(a[0], a[1..] + b, x[..k], x[k..] + y);
      Spliced(a, b, 1);
      Spliced(x, y, k);
      assert a[..1] == [a[0]];
    }
  }

  lemma {:induction false} PlainTokens(p: string, q: string)
    requires !Wild(p)
    ensures Tokens(p + q) == Tokens(p) + Tokens(q)
    decreases |p|
  {
    if p == "" {
      assert p + q == q;
    } else {
      assert p[0] in p;
      assert (p + q)[1..] == p[1..] + q;
      assert NextToken(p) == (Literal(p[0]), 1) && NextToken(p + q) == (Literal(p[0]), 1);
      assert forall c :: c in p[1..] ==> c in p;
      PlainTokens(p[1..], q);
    }
  }

  ghost predicate PlainName(s: string) {
    Normal(s) && !Wild(s) && '/' !in s && '\\' !in s && ':' !in s
  }

  /** `a**` + `/../b`: the rule matches the path `a../b`, but its normalised form is just `b`. */
  lemma {:induction false} EscapingRule(a: string, b: string)
    requires PlainName(a) && PlainName(b) && b != a + ".."
    ensures var pattern := a + "**/../" + b;
            && !Prunable(pattern)
            && Relative(a + "../" + b)
            && Hit(pattern, a + "../" + b)
            && !Reaches(Components(pattern), [a + ".."])
  {
    var pattern := a + "**/../" + b;
    var tail := "../" + b;
    EscapingMatch(a, tail);
    assert pattern == a + ("**/" + tail);
    assert a + tail == a + "../" + b;
    EscapingParts(a, b);
    EscapingRelative(a, b);
    PlainUnreached(b, a + "..");
  }

  lemma {:induction false} EscapingRelative(a: string, b: string)
    requires PlainName(a) && PlainName(b)
    ensures Relative(a + "../" + b)
  {
    SplitHead(a + "..", b);
    SplitAtom(b);
    assert (a + "..") + "/" + b == a + "../" + b;
  }

  lemma {:induction false} PlainUnreached(b: string, dir: string)
    requires PlainName(b) && b != dir
    ensures !Reaches([b], [dir])
  {
    PlainPattern(b, dir);
    assert [b][1..] == [] && [dir][1..] == [];
    assert Reaches([b], [dir]) == (ContainsPair(b, '*') || (Hit(b, dir) && Reaches([], [])));
  }

  lemma {:induction false} EscapingMatch(a: string, tail: string)
    requires !Wild(a) && !Wild(tail)
    ensures Hit(a + ("**/" + tail), a + tail)
  {
    PlainTokens(a, "**/" + tail);
    assert ("**/" + tail)[3..] == tail;
    assert Tokens("**/" + tail) == [DoubleStarSlash] + Tokens(tail);
    PlainPattern(a, a);
    PlainPattern(tail, tail);
    assert tail[0..] == tail && tail[..0] == "";
    var deep := [DoubleStarSlash] + Tokens(tail);
    assert deep[1..] == Tokens(tail);
    MatchesByCut(deep, tail, 0);
    MatchConcat(Tokens(a), deep, a, tail);
  }

  lemma {:induction false} EscapingParts(a: string, b: string)
    requires PlainName(a) && PlainName(b)
    ensures Components(a + "**/../" + b) == [b] && !Prunable(a + "**/../" + b)
  {
    var pattern := a + "**/../" + b;
    EscapingSplit(a, b);
    var deep := a + "**";
    assert ContainsPair(deep, '*') by {
      assert deep[|a|] == '*' && deep[|a| + 1] == '*';
    }
    PopsDeep(deep, b);
  }

  lemma {:induction false} EscapingSplit(a: string, b: string)
    requires PlainName(a) && PlainName(b)
    ensures var pattern := a + "**/../" + b;
            Unbackslash(pattern) == pattern && Split(pattern) == [a + "**", "..", b]
  {
    var pattern := a + "**/../" + b;
    var parts := [a + "**", "..", b];
    assert parts[1..] == ["..", b] && parts[1..][1..] == [b];
    assert Join(["..", b]) == ".." + "/" + b;
    assert Join(parts) == (a + "**") + "/" + (".." + "/" + b);
    assert Join(parts) == pattern;
    SplitJoin(parts);
    NoBackslash(pattern);
  }

  lemma {:induction false} NoBackslash(s: string)
    requires '\\' !in s
    ensures Unbackslash(s) == s
  {
  }

  lemma {:induction false} PopsDeep(deep: string, b: string)
    requires ContainsPair(deep, '*') && Normal(b)
    ensures Normalize([deep, "..", b], []) == [b]
    ensures FirstDeep([deep, "..", b]) == 0 && !StaysAbove([deep, "..", b][1..], 0)
  {
    var parts := [deep, "..", b];
    assert parts[1..] == ["..", b] && ["..", b][1..] == [b] && [b][1..] == [];
    assert Normal(deep);
    assert [deep][..0] == [] && [] + [deep] == [deep] && [] + [b] == [b];
    assert Normalize([b], []) == [b];
    assert Normalize(["..", b], [deep]) == [b];
  }

  /** `[c/x]`: the class spans the slash, matches the path `c`, and neither half does. */
  lemma {:induction false} SpanningClass(c: char, x: string)
    requires c !in "![]/.\\:" && PlainName(x) && ']' !in x
    ensures var pattern := "[" + [c] + "/" + x + "]";
            && !Aligned(Split(pattern))
            && Hit(pattern, [c]) && Relative([c])
            && !Reaches(Split(pattern), [[c]])
  {
    SpanningSplit(c, x);
    SplitAtom([c]);
    SpanningMatch(c, x);
    SpanningUnaligned(c, x);
  }

  lemma {:induction false} SpanningSplit(c: char, x: string)
    requires c !in "![]/.\\:" && PlainName(x)
    ensures Split("[" + [c] + "/" + x + "]") == ["[" + [c], x + "]"]
  {
    var left, right := "[" + [c], x + "]";
    assert left + "/" + right == "[" + [c] + "/" + x + "]";
    SplitHead(left, right);
    SplitAtom(right);
  }

  lemma {:induction false} SpanningUnaligned(c: char, x: string)
    requires c !in "![]/.\\:"
    ensures !Aligned(["[" + [c], x + "]"]) && !Reaches(["[" + [c], x + "]"], [[c]])
  {
    var parts := ["[" + [c], x + "]"];
    assert parts[1..] == [x + "]"];
    assert (x + "]")[|x|] == ']';
    OpenBracket(c);
  }

  /** An unclosed bracket is an ordinary character. */
  lemma {:induction false} OpenBracket(c: char)
    requires c !in "![]/.\\:"
    ensures Unclosed("[" + [c]) && !ContainsPair("[" + [c], '*') && !Hit("[" + [c], [c])
  {
    var left := "[" + [c];
    assert left[1..] == [c];
    IndexOfUnique([c], ']', 1);
    assert NextToken(left) == (Literal('['), 1);
    TakeFirst(Tokens(left), [c]);
  }

  lemma {:induction false} SpanningMatch(c: char, x: string)
    requires c !in "![]/" && ']' !in x
    ensures Hit("[" + [c] + "/" + x + "]", [c])
  {
    var pattern := "[" + [c] + "/" + x + "]";
    var body := [c, '/'] + x;
    assert pattern[1..] == body + "]";
    IndexOfUnique(pattern[1..], ']', |body|);
    assert pattern[1..1 + |body|] == body;
    assert ClassMembers(body)[0] == (c, None);
    assert Hits(ClassMembers(body)[0], c);
    var ts := Tokens(pattern);
    assert NextToken(pattern) == (ClassOf(body), |body| + 2);
    assert pattern[|body| + 2..] == "";
    assert Tokens(pattern[|body| + 2..]) == [];
    assert ts == [ClassOf(body)] + [];
    assert [c][..1] == [c] && [c][1..] == "";
    TakeFirst(ts, [c]);
  }

  /**
   * What goes wrong without the condition: the directory `a..` is pruned although the negation
   * re-includes `a../b`, so the pruned walk loses an entry the plain selector keeps.
   */
  lemma {:induction false} EscapingRuleLosesEntry(a: string, b: string)
    requires PlainName(a) && PlainName(b) && b != a + ".."
    requires Quiet(EscapingPolicy(a, b), a + "..") && !OverLimit(b, a + "..")
    ensures PruneAnswer(EscapingPolicy(a, b), a + "..") == Ok(true)
    ensures Chosen(EscapingPolicy(a, b), a + "../" + b)
  {
    EscapingKept(a, b);
    EscapingPruned(a, b);
  }

  lemma {:induction false} Utf8SizeBound(s: string)
    ensures Utf8Size(s) <= 4 * |s|
  {
    if s != "" {
      Utf8SizeBound(s[1..]);
    }
  }

  /** The matcher's limits are far from ordinary names. */
  lemma {:induction false} ShortWithinLimit(p: string, s: string)
    requires |p| < 900 && |s| < 1000
    ensures !OverLimit(p, s)
  {
    Utf8SizeBound(p);
    Utf8SizeBound(s);
    TokenBudget(p);
    SmallWork(|Tokens(p)| + 1, TotalWeight(Tokens(p)), |s| + 1);
  }

  lemma {:induction false} SmallWork(n: nat, w: nat, width: nat)
    requires n + w <= 900 && width <= 1000
    ensures n * width + w * width <= 1_000_000
  {
    assert n * width + w * width == (n + w) * width;
    ScaleMonotone(width, n + w, 900);
  }

  lemma {:induction false} ShortNamesEscape(a: string, b: string)
    requires |a| < 400 && |b| < 400
    ensures Quiet(EscapingPolicy(a, b), a + "..") && !OverLimit(b, a + "..")
  {
    var policy := EscapingPolicy(a, b);
    RootSource();
    forall i | 0 <= i < |policy.rules| ensures !OverLimit(policy.rules[i].pattern, a + "..") {
      ShortWithinLimit(policy.rules[i].pattern, a + "..");
    }
    ShortWithinLimit(Join(SourceParts(policy.sources[0])), a + "..");
    ShortWithinLimit(b, a + "..");
  }

  lemma {:induction false} EscapingPruned(a: string, b: string)
    requires PlainName(a) && PlainName(b) && b != a + ".."
    requires Quiet(EscapingPolicy(a, b), a + "..") && !OverLimit(b, a + "..")
    ensures PruneAnswer(EscapingPolicy(a, b), a + "..") == Ok(true)
  {
    DottedName(a);
    EscapingIgnored(a, b);
    EscapingUnwanted(a, b);
    EscapingUnprotected(a, b);
    PruneByParts(EscapingPolicy(a, b), a + "..");
  }

  lemma {:induction false} EscapingUnprotected(a: string, b: string)
    ensures !ProtectedBeneath(EscapingPolicy(a, b), a + "..")
  {
    TopLevelProtected(EscapingPolicy(a, b), a + "..");
  }

  lemma {:induction false} EscapingIgnored(a: string, b: string)
    requires PlainName(a) && PlainName(b) && b != a + ".."
    ensures IgnoredBy(EscapingPolicy(a, b).rules, Split(a + ".."))
  {
    DottedName(a);
    EscapingDirectory(a, b);
  }

  lemma {:induction false} EscapingUnwanted(a: string, b: string)
    requires PlainName(a) && PlainName(b) && b != a + ".." && !OverLimit(b, a + "..")
    ensures NegationsAnswer(EscapingPolicy(a, b).rules, Split(a + "..")) == Ok(false)
    ensures SourcesAnswer(EscapingPolicy(a, b).sources, Split(a + "..")) == Ok(false)
  {
    DottedName(a);
    EscapingReach(a, b);
    OnlyRootSource([a + ".."]);
  }

  lemma {:induction false} DottedName(a: string)
    requires PlainName(a)
    ensures Relative(a + "..") && Split(a + "..") == [a + ".."]
  {
    SplitAtom(a + "..");
  }

  lemma {:induction false} PruneByParts(policy: Policy, dir: string)
    requires Relative(dir) && Quiet(policy, dir) && policy.rules != []
    requires IgnoredBy(policy.rules, Split(dir)) && !ProtectedBeneath(policy, dir)
    requires NegationsAnswer(policy.rules, Split(dir)) == Ok(false)
    requires SourcesAnswer(policy.sources, Split(dir)) == Ok(false)
    ensures PruneAnswer(policy, dir) == Ok(true)
  {
    PathComponents(dir);
    IgnoredMeaning(policy.rules, dir, false);
  }

  lemma {:induction false} OnlyRootSource(dir: seq<string>)
    ensures SourcesAnswer(["."], dir) == Ok(false)
  {
    RootSource();
    SourceComponents(".");
    assert ["."][1..] == [];
    assert SourcesAnswer([], dir) == Ok(false);
  }

  lemma {:induction false} TopLevelProtected(policy: Policy, dir: string)
    requires forall i :: 0 <= i < |PrunerProtected(policy)| ==> '/' !in PrunerProtected(policy)[i]
    ensures !ProtectedBeneath(policy, dir)
  {
    var protect := PrunerProtected(policy);
    forall i | 0 <= i < |protect| ensures !(dir + "/" <= protect[i]) {
      if |dir| < |protect[i]| {
        assert protect[i][|dir|] != '/';
        assert (dir + "/")[|dir|] == '/';
      }
    }
  }

  lemma {:induction false} EscapingReach(a: string, b: string)
    requires PlainName(a) && PlainName(b) && b != a + ".." && !OverLimit(b, a + "..")
    ensures NegationsAnswer(EscapingPolicy(a, b).rules, [a + ".."]) == Ok(false)
  {
    var rules := EscapingPolicy(a, b).rules;
    EscapingParts(a, b);
    PlainReach(b, a + "..");
    assert rules[1..] == [rules[1]];
    assert rules[1..][1..] == [];
    assert NegationsAnswer([], [a + ".."]) == Ok(false);
  }

  lemma {:induction false} PlainReach(b: string, dir: string)
    requires !Wild(b) && b != dir && !OverLimit(b, dir)
    ensures ReachAnswer([b], [dir]) == Ok(false)
  {
    PlainPattern(b, dir);
    assert !ContainsPair(b, '*');
  }

  function EscapingPolicy(a: string, b: string): Policy {
    Policy("Dockerfile", Some(".dockerignore"), false, [Rule(a + "..", false), Rule(a + "**/../" + b, true)], ["."], false)
  }

  lemma {:induction false} EscapingKept(a: string, b: string)
    requires PlainName(a) && PlainName(b) && b != a + ".."
    ensures Chosen(EscapingPolicy(a, b), a + "../" + b)
  {
    var policy := EscapingPolicy(a, b);
    var dir, path := a + "..", a + "../" + b;
    EscapingRule(a, b);
    SplitHead(dir, b);
    SplitAtom(b);
    assert dir + "/" + b == path;
    var x := [dir, b];
    assert Split(path) == x && x[..2] == x;
    JoinSplit(path);
    assert Hit(policy.rules[1].pattern, Join(x[..2]));
    assert Decides(policy.rules, x, 1);
    RootSource();
    assert SourceHits(policy.sources[0], x);
  }

  lemma {:induction false} RootSource()
    ensures SourceParts(".") == []
  {
    assert Unbackslash(".") == ".";
    SplitAtom(".");
    assert Split(TrimSlashes(".")) == ["."];
    assert ["."][1..] == [];
    assert Normalize(["."], []) == Normalize([], []);
  }

  lemma {:induction false} EscapingDirectory(a: string, b: string)
    requires PlainName(a) && PlainName(b) && b != a + ".."
    ensures IgnoredBy([Rule(a + "..", false), Rule(a + "**/../" + b, true)], [a + ".."])
  {
    var pattern := a + "**/../" + b;
    var rules := [Rule(a + "..", false), Rule(pattern, true)];
    var dir := a + "..";
    PlainPattern(dir, dir);
    assert [dir][..1] == [dir] && Join([dir]) == dir;
    assert HitsPath(dir, [dir]);
    if Hit(pattern, dir) {
      NeedsSlash(a, b, dir);
    }
    assert forall k :: 1 <= k <= 1 ==> [dir][..k] == [dir];
    assert !HitsPath(pattern, [dir]);
    assert Decides(rules, [dir], 0);
  }

  /** Every match of the escaping rule holds a slash. */
  lemma {:induction false} NeedsSlash(a: string, b: string, s: string)
    requires !Wild(a) && !Wild(b) && Hit(a + "**/../" + b, s)
    ensures '/' in s
  {
    var tail := "../" + b;
    assert a + "**/../" + b == a + ("**/" + tail);
    PlainTokens(a, "**/" + tail);
    var k := SplitMatch(Tokens(a), Tokens("**/" + tail), s);
    DeepNeedsTail(tail, s[k..]);
    assert tail[2] == '/';
  }

  lemma {:induction false} DeepTokens(tail: string)
    ensures Tokens("**/" + tail) == [DoubleStarSlash] + Tokens(tail)
  {
    assert ("**/" + tail)[3..] == tail;
  }

  lemma {:induction false} DeepCut(ts: seq<Token>, s: string) returns (j: nat)
    requires Matches([DoubleStarSlash] + ts, s)
    ensures j <= |s| && Matches(ts, s[j..])
  {
    j := CutOf([DoubleStarSlash] + ts, s);
    assert ([DoubleStarSlash] + ts)[1..] == ts;
  }

  // A pattern that opens with a double star and goes on plainly only matches what ends in its plain part.
  lemma {:induction false} DeepNeedsTail(tail: string, s: string)
    requires !Wild(tail) && Matches(Tokens("**/" + tail), s)
    ensures forall i :: 0 <= i < |tail| ==> tail[i] in s
  {
    DeepTokens(tail);
    var j := DeepCut(Tokens(tail), s);
    PlainPattern(tail, s[j..]);
    forall i | 0 <= i < |tail| ensures tail[i] in s {
      assert s[j..][i] == s[j + i];
    }
  }
}
