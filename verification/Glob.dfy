/** The `.dockerignore` / `COPY` pattern matcher: its meaning, and the bounded table that decides it. */
module GlobMatcher {
  import opened Common

  datatype Token =
    | Star
    | DoubleStar
    | DoubleStarSlash
    | One
    | Class(members: seq<(char, Option<char>)>, negated: bool)
    | Literal(c: char)

  datatype MatchError = ResourceLimit

  type Verdict = Result<bool, MatchError>

  // ---------------------------------------------------------------- tokens

  /** The members of a bracket class body, ranges first where one fits. */
  function ClassMembers(x: string): (m: seq<(char, Option<char>)>)
    ensures |m| <= |x|
    decreases |x|
  {
    if x == "" then []
    else if 2 < |x| && x[1] == '-' then [(x[0], Some(x[2]))] + ClassMembers(x[3..])
    else [(x[0], None)] + ClassMembers(x[1..])
  }

  function ClassOf(body: string): (t: Token)
    ensures t.Class? && |t.members| <= |body|
  {
    if body != "" && body[0] == '!' then Class(ClassMembers(body[1..]), true)
    else Class(ClassMembers(body), false)
  }

  /** The token at the front of a pattern and how many characters it takes. */
  function NextToken(p: string): (r: (Token, nat))
    requires p != ""
    ensures 1 <= r.1 <= |p|
    ensures 1 + Weight(r.0) <= r.1 || r.0.Literal?
  {
    if p[0] == '*' && 1 < |p| && p[1] == '*' then
      if 2 < |p| && p[2] == '/' then (DoubleStarSlash, 3) else (DoubleStar, 2)
    else if p[0] == '*' then (Star, 1)
    else if p[0] == '?' then (One, 1)
    else if p[0] == '[' then
      var end := IndexOf(p[1..], ']');
      if end < |p| - 1 then (ClassOf(p[1..1 + end]), end + 2) else (Literal('['), 1)
    else (Literal(p[0]), 1)
  }

  function Tokens(p: string): seq<Token>
    decreases |p|
  {
    if p == "" then [] else [NextToken(p).0] + Tokens(p[NextToken(p).1..])
  }

  /** Class members one token adds to the work the matcher is charged for. */
  function Weight(t: Token): nat {
    if t.Class? then |t.members| else 0
  }

  function TotalWeight(ts: seq<Token>): nat {
    if ts == [] then 0 else Weight(ts[0]) + TotalWeight(ts[1..])
  }

  /** Tokens and class members together never outnumber the pattern's characters. */
  lemma {:induction false} TokenBudget(p: string)
    ensures |Tokens(p)| + TotalWeight(Tokens(p)) <= |p|
    decreases |p|
  {
    if p != "" {
      var rest := p[NextToken(p).1..];
      TokenBudget(rest);
      assert Tokens(p)[1..] == Tokens(rest);
    }
  }

  /** The tokenizer loop. */
  method GlobTokens(pattern: string) returns (out: seq<Token>)
    ensures out == Tokens(pattern)
    ensures forall s :: Matches(out, s) <==> Denotes(pattern, s)
  {
    out := [];
    var i := 0;
    while i < |pattern|
      invariant 0 <= i <= |pattern|
      invariant Tokens(pattern) == out + Tokens(pattern[i..])
    {
      ghost var front := pattern[i..];
      var token, taken := ReadToken(pattern, i);
      out := out + [token];
      i := i + taken;
      assert pattern[i..] == front[taken..];
    }
    TokensDenote(pattern);
  }

  /** The tokens of a pattern match exactly the texts it denotes. */
  lemma {:induction false} TokensDenote(pattern: string)
    ensures forall s :: Matches(Tokens(pattern), s) <==> Denotes(pattern, s)
  {
    forall s ensures Matches(Tokens(pattern), s) <==> Denotes(pattern, s) {
      PatternMeaning(pattern, s);
    }
  }

  /** One turn of the tokenizer: the token at position `i` and the characters it takes. */
  method ReadToken(pattern: string, i: nat) returns (token: Token, taken: nat)
    requires i < |pattern|
    ensures (token, taken) == NextToken(pattern[i..])
  {
    ghost var front := pattern[i..];
    if pattern[i] == '*' && i + 1 < |pattern| && pattern[i + 1] == '*' {
      if i + 2 < |pattern| && pattern[i + 2] == '/' {
        return DoubleStarSlash, 3;
      }
      return DoubleStar, 2;
    }
    if pattern[i] == '[' {
      var end := IndexOf(pattern[i + 1..], ']');
      assert front[1..] == pattern[i + 1..];
      if end < |pattern| - i - 1 {
        var body := pattern[i + 1..i + 1 + end];
        assert body == front[1..1 + end];
        token := ReadClass(body);
        return token, end + 2;
      }
      return Literal('['), 1;
    }
    token := if pattern[i] == '*' then Star else if pattern[i] == '?' then One else Literal(pattern[i]);
    taken := 1;
  }

  /** The loop over one class body. */
  lemma {:induction false} MembersNext(x: string, k: nat)
    requires k < |x|
    ensures k + 2 < |x| && x[k + 1] == '-' ==> ClassMembers(x[k..]) == [(x[k], Some(x[k + 2]))] + ClassMembers(x[k + 3..])
    ensures !(k + 2 < |x| && x[k + 1] == '-') ==> ClassMembers(x[k..]) == [(x[k], None)] + ClassMembers(x[k + 1..])
  {
    var front := x[k..];
    assert front[1..] == x[k + 1..];
    if k + 2 < |x| {
      assert front[3..] == x[k + 3..];
    }
  }

  lemma {:induction false} Reassociate<T>(a: seq<T>, x: T, b: seq<T>)
    ensures a + ([x] + b) == a + [x] + b
  {
  }

  method ReadClass(body: string) returns (t: Token)
    ensures t == ClassOf(body)
  {
    var negated := body != "" && body[0] == '!';
    var x := if negated then body[1..] else body;
    var members := [];
    var k := 0;
    while k < |x|
      invariant 0 <= k <= |x|
      invariant ClassMembers(x) == members + ClassMembers(x[k..])
    {
      MembersNext(x, k);
      if k + 2 < |x| && x[k + 1] == '-' {
        Reassociate(members, (x[k], Some(x[k + 2])), ClassMembers(x[k + 3..]));
        members := members + [(x[k], Some(x[k + 2]))];
        k := k + 3;
      } else {
        Reassociate(members, (x[k], None), ClassMembers(x[k + 1..]));
        members := members + [(x[k], None)];
        k := k + 1;
      }
    }
    t := Class(members, negated);
  }

  // --------------------------------------------------------------- meaning

  predicate Hits(m: (char, Option<char>), c: char) {
    match m.1
    case Some(z) => m.0 <= c <= z
    case None => m.0 == c
  }

  predicate ClassHit(members: seq<(char, Option<char>)>, c: char) {
    exists i :: 0 <= i < |members| && Hits(members[i], c)
  }

  /** The texts one token stands for. */
  predicate Accepts(t: Token, piece: string) {
    match t
    case Star => '/' !in piece
    case DoubleStar => true
    case DoubleStarSlash => piece == "" || piece[|piece| - 1] == '/'
    case One => |piece| == 1 && piece[0] != '/'
    case Class(members, negated) => |piece| == 1 && piece[0] != '/' && ClassHit(members, piece[0]) != negated
    case Literal(c) => piece == [c]
  }

  /** A token list stands for the concatenations of what its tokens stand for. */
  ghost predicate Matches(ts: seq<Token>, s: string)
    decreases |ts|
  {
    if ts == [] then s == "" else
    exists k :: 0 <= k <= |s| && Accepts(ts[0], s[..k]) && Matches(ts[1..], s[k..])
  }

  ghost predicate Hit(pattern: string, text: string) {
    Matches(Tokens(pattern), text)
  }

  /** The members a class body spells: a range where three characters fit one, else a single character. */
  predicate Listed(body: string, c: char)
    decreases |body|
  {
    && body != ""
    && if 2 < |body| && body[1] == '-' then body[0] <= c <= body[2] || Listed(body[3..], c)
       else c == body[0] || Listed(body[1..], c)
  }

  /** One character, if it is allowed, and then what the rest denotes. */
  ghost predicate OneThen(allowed: bool, rest: string, s: string)
    decreases |rest|, 1
  {
    s != "" && allowed && Denotes(rest, s[1..])
  }

  /** What a pattern says, read off its text: no tokens and no table. */
  ghost predicate Denotes(p: string, s: string)
    decreases |p|, 0
  {
    if p == "" then s == ""
    else if "**/" <= p then Denotes(p[3..], s) || exists k :: 0 < k <= |s| && s[k - 1] == '/' && Denotes(p[3..], s[k..])
    else if "**" <= p then exists k :: 0 <= k <= |s| && Denotes(p[2..], s[k..])
    else if p[0] == '*' then exists k :: 0 <= k <= |s| && '/' !in s[..k] && Denotes(p[1..], s[k..])
    else if p[0] == '?' then OneThen(s != "" && s[0] != '/', p[1..], s)
    else if p[0] == '[' && ']' in p[1..] then
      var body := p[1..1 + IndexOf(p[1..], ']')];
      var rest := p[|body| + 2..];
      if "!" <= body then OneThen(s != "" && s[0] != '/' && !Listed(body[1..], s[0]), rest, s)
      else OneThen(s != "" && s[0] != '/' && Listed(body, s[0]), rest, s)
    else OneThen(s != "" && s[0] == p[0], p[1..], s)
  }

  // ------------------------------------------------- what each way to begin says

  lemma {:induction false} EmptyPattern(s: string)
    ensures Hit("", s) <==> s == ""
  {
  }

  lemma {:induction false} HeadToken(p: string, head: nat, token: Token)
    requires p != "" && NextToken(p) == (token, head)
    ensures head <= |p| && Tokens(p) == [token] + Tokens(p[head..]) && Tokens(p)[1..] == Tokens(p[head..])
  {
  }

  /** `*`: any run of characters but slashes. */
  lemma {:induction false} StarLaw(rest: string, s: string)
    requires rest == "" || rest[0] != '*'
    ensures Hit("*" + rest, s) <==> exists k :: 0 <= k <= |s| && '/' !in s[..k] && Hit(rest, s[k..])
  {
    var p := "*" + rest;
    assert p[1..] == rest;
    HeadToken(p, 1, Star);
    CutLaw(Tokens(p), s);
  }

  /** `**`: anything. */
  lemma {:induction false} DeepLaw(rest: string, s: string)
    requires rest == "" || rest[0] != '/'
    ensures Hit("**" + rest, s) <==> exists k :: 0 <= k <= |s| && Hit(rest, s[k..])
  {
    var p := "**" + rest;
    assert p[2..] == rest && (rest != "" ==> p[2] == rest[0]);
    HeadToken(p, 2, DoubleStar);
    CutLaw(Tokens(p), s);
  }

  /** A `**` with the slash after it: nothing, or everything up to some slash. */
  lemma {:induction false} DeepSlashLaw(rest: string, s: string)
    ensures Hit("**/" + rest, s) <==> Hit(rest, s) || exists k :: 0 < k <= |s| && s[k - 1] == '/' && Hit(rest, s[k..])
  {
    var p := "**/" + rest;
    assert p[3..] == rest;
    HeadToken(p, 3, DoubleStarSlash);
    SlashStep(Tokens(p), s);
  }

  /** `?`: one character but a slash. */
  lemma {:induction false} OneLaw(rest: string, s: string)
    ensures Hit("?" + rest, s) <==> s != "" && s[0] != '/' && Hit(rest, s[1..])
  {
    var p := "?" + rest;
    assert p[1..] == rest;
    HeadToken(p, 1, One);
    TakeFirst(Tokens(p), s);
    assert s != "" ==> s[..1] == [s[0]];
  }

  lemma {:induction false} ListedMembers(body: string, c: char)
    ensures ClassHit(ClassMembers(body), c) <==> Listed(body, c)
    decreases |body|
  {
    if body != "" {
      var k := if 2 < |body| && body[1] == '-' then 3 else 1;
      var ms, rest := ClassMembers(body), ClassMembers(body[k..]);
      ListedMembers(body[k..], c);
      assert ms == [ms[0]] + rest;
      ConsHit(ms[0], rest, c);
    }
  }

  lemma {:induction false} ConsHit(m: (char, Option<char>), rest: seq<(char, Option<char>)>, c: char)
    ensures ClassHit([m] + rest, c) <==> Hits(m, c) || ClassHit(rest, c)
  {
    var ms := [m] + rest;
    assert forall i :: 0 <= i < |rest| ==> ms[i + 1] == rest[i];
    if ClassHit(rest, c) {
      var i :| 0 <= i < |rest| && Hits(rest[i], c);
      assert Hits(ms[i + 1], c);
    }
    assert ms[0] == m;
  }

  /** `[body]`: one character the body lists, but a slash. */
  lemma {:induction false} ClassLaw(body: string, rest: string, s: string)
    requires ']' !in body && !("!" <= body)
    ensures Hit("[" + body + "]" + rest, s) <==> s != "" && s[0] != '/' && Listed(body, s[0]) && Hit(rest, s[1..])
  {
    ClassToken(body, rest);
    var p := "[" + body + "]" + rest;
    TakeFirst(Tokens(p), s);
    if s != "" {
      assert s[..1] == [s[0]];
      ListedMembers(body, s[0]);
    }
  }

  /** `[!body]`: one character the body does not list, but a slash. */
  lemma {:induction false} NegatedLaw(body: string, rest: string, s: string)
    requires ']' !in body
    ensures Hit("[!" + body + "]" + rest, s) <==> s != "" && s[0] != '/' && !Listed(body, s[0]) && Hit(rest, s[1..])
  {
    var inner := "!" + body;
    assert inner[1..] == body;
    ClassToken(inner, rest);
    var p := "[" + inner + "]" + rest;
    assert p == "[!" + body + "]" + rest;
    TakeFirst(Tokens(p), s);
    if s != "" {
      assert s[..1] == [s[0]];
      ListedMembers(body, s[0]);
    }
  }

  lemma {:induction false} ClassToken(body: string, rest: string)
    requires ']' !in body
    ensures var p := "[" + body + "]" + rest; Tokens(p) == [ClassOf(body)] + Tokens(rest) && Tokens(p)[1..] == Tokens(rest)
  {
    var p := "[" + body + "]" + rest;
    assert p[1..] == body + ("]" + rest);
    IndexOfUnique(p[1..], ']', |body|);
    assert p[1..1 + |body|] == body && p[|body| + 2..] == rest;
    HeadToken(p, |body| + 2, ClassOf(body));
  }

  /** A `[` that nothing closes is itself. */
  lemma {:induction false} OpenLaw(rest: string, s: string)
    requires ']' !in rest
    ensures Hit("[" + rest, s) <==> s != "" && s[0] == '[' && Hit(rest, s[1..])
  {
    var p := "[" + rest;
    assert p[1..] == rest;
    IndexOfUnique(rest, ']', |rest|);
    HeadToken(p, 1, Literal('['));
    TakeFirst(Tokens(p), s);
    assert s != "" ==> s[..1] == [s[0]];
  }

  /** Any other character is itself. */
  lemma {:induction false} PlainLaw(c: char, rest: string, s: string)
    requires c != '*' && c != '?' && c != '['
    ensures Hit([c] + rest, s) <==> s != "" && s[0] == c && Hit(rest, s[1..])
  {
    var p := [c] + rest;
    assert p[1..] == rest;
    HeadToken(p, 1, Literal(c));
    TakeFirst(Tokens(p), s);
    assert s != "" ==> s[..1] == [s[0]];
  }

  /** The rest of a pattern means the same on every end of the text. */
  lemma {:induction false} RestDenotes(rest: string, s: string)
    ensures forall k :: 0 <= k <= |s| ==> (Hit(rest, s[k..]) <==> Denotes(rest, s[k..]))
    decreases |rest|, 2
  {
    forall k | 0 <= k <= |s| ensures Hit(rest, s[k..]) <==> Denotes(rest, s[k..]) {
      PatternMeaning(rest, s[k..]);
    }
  }

  /** The matcher's tokens mean what the text of the pattern says. */
  lemma {:induction false} PatternMeaning(p: string, s: string)
    ensures Hit(p, s) <==> Denotes(p, s)
    decreases |p|, 1
  {
    if p == "" {
      EmptyPattern(s);
    } else if p[0] == '*' {
      StarMeaning(p, s);
    } else if p[0] == '[' && ']' in p[1..] {
      ClassMeaning(p, s);
    } else {
      var rest := p[1..];
      assert p == [p[0]] + rest;
      RestDenotes(rest, s);
      if p[0] == '?' {
        OneLaw(rest, s);
      } else if p[0] == '[' {
        OpenLaw(rest, s);
      } else {
        PlainLaw(p[0], rest, s);
      }
    }
  }

  lemma {:induction false} StarMeaning(p: string, s: string)
    requires p != "" && p[0] == '*'
    ensures Hit(p, s) <==> Denotes(p, s)
    decreases |p|, 0
  {
    assert s[0..] == s;
    if "**/" <= p {
      assert p == "**/" + p[3..];
      RestDenotes(p[3..], s);
      DeepSlashLaw(p[3..], s);
    } else if "**" <= p {
      assert p == "**" + p[2..];
      RestDenotes(p[2..], s);
      DeepLaw(p[2..], s);
    } else {
      assert p == "*" + p[1..];
      RestDenotes(p[1..], s);
      StarLaw(p[1..], s);
    }
  }

  lemma {:induction false} ClassMeaning(p: string, s: string)
    requires p != "" && p[0] == '[' && ']' in p[1..]
    ensures Hit(p, s) <==> Denotes(p, s)
    decreases |p|, 0
  {
    var body := p[1..1 + IndexOf(p[1..], ']')];
    var rest := p[|body| + 2..];
    assert p == "[" + body + "]" + rest;
    RestDenotes(rest, s);
    if "!" <= body {
      assert body == "!" + body[1..];
      assert p == "[!" + body[1..] + "]" + rest;
      NegatedLaw(body[1..], rest, s);
    } else {
      ClassLaw(body, rest, s);
    }
  }

  lemma {:induction false} CutLaw(ts: seq<Token>, s: string)
    requires ts != []
    ensures Matches(ts, s) <==> exists k :: 0 <= k <= |s| && Accepts(ts[0], s[..k]) && Matches(ts[1..], s[k..])
  {
  }

  // ------------------------------------------------------------- the limits

  predicate OverLimit(p: string, s: string) {
    || Utf8Size(p) > 4096
    || Utf8Size(s) > 4_000_000
    || (|Tokens(p)| + 1) * (|s| + 1) + TotalWeight(Tokens(p)) * (|s| + 1) > 1_000_000
  }

  /** What the matcher answers: a refusal, or exactly the meaning of the pattern. */
  ghost function GlobAnswer(p: string, s: string): Verdict {
    if OverLimit(p, s) then Err(ResourceLimit) else Ok(Hit(p, s))
  }

  // ------------------------------------------------------ table recurrences

  /** The cut a match is made of. */
  lemma {:induction false} CutOf(ts: seq<Token>, s: string) returns (k: nat)
    requires ts != [] && Matches(ts, s)
    ensures k <= |s| && Accepts(ts[0], s[..k]) && Matches(ts[1..], s[k..])
  {
    k :| 0 <= k <= |s| && Accepts(ts[0], s[..k]) && Matches(ts[1..], s[k..]);
  }

  lemma {:induction false} MatchesByCut(ts: seq<Token>, s: string, k: nat)
    requires ts != [] && k <= |s| && Accepts(ts[0], s[..k]) && Matches(ts[1..], s[k..])
    ensures Matches(ts, s)
  {
  }

  lemma {:induction false} TakeFirst(ts: seq<Token>, s: string)
    requires ts != [] && (ts[0].One? || ts[0].Class? || ts[0].Literal?)
    ensures Matches(ts, s) <==> s != "" && Accepts(ts[0], s[..1]) && Matches(ts[1..], s[1..])
  {
    if Matches(ts, s) {
      var k := CutOf(ts, s);
      assert k == 1;
    }
  }

  /** `*` and `**`: either they stop here, or they take one more character. */
  lemma {:induction false} Extend(ts: seq<Token>, s: string)
    requires ts != [] && (ts[0].Star? || ts[0].DoubleStar?)
    ensures Matches(ts, s) <==>
            Matches(ts[1..], s) || (s != "" && (ts[0].Star? ==> s[0] != '/') && Matches(ts, s[1..]))
  {
    assert s[0..] == s;
    if Matches(ts[1..], s) {
      MatchesByCut(ts, s, 0);
    } else if s != "" && (ts[0].Star? ==> s[0] != '/') && Matches(ts, s[1..]) {
      ExtendLeft(ts, s);
    } else if Matches(ts, s) {
      ExtendRight(ts, s);
    }
  }

  lemma {:induction false} ExtendLeft(ts: seq<Token>, s: string)
    requires ts != [] && (ts[0].Star? || ts[0].DoubleStar?)
    requires s != "" && (ts[0].Star? ==> s[0] != '/') && Matches(ts, s[1..])
    ensures Matches(ts, s)
  {
    var k := CutOf(ts, s[1..]);
    LongerAccepted(ts[0], s, k);
    MatchesByCut(ts, s, k + 1);
  }

  lemma {:induction false} LongerAccepted(t: Token, s: string, k: nat)
    requires (t.Star? || t.DoubleStar?) && k < |s| && (t.Star? ==> s[0] != '/') && Accepts(t, s[1..][..k])
    ensures Accepts(t, s[..k + 1]) && s[k + 1..] == s[1..][k..]
  {
    assert s[..k + 1] == [s[0]] + s[1..][..k];
  }

  lemma {:induction false} ExtendRight(ts: seq<Token>, s: string)
    requires ts != [] && (ts[0].Star? || ts[0].DoubleStar?)
    requires Matches(ts, s) && !Matches(ts[1..], s)
    ensures s != "" && (ts[0].Star? ==> s[0] != '/') && Matches(ts, s[1..])
  {
    var k := CutOf(ts, s);
    CutLater(ts[1..], s, k);
    TailAccepted(ts[0], s, k);
    MatchesByCut(ts, s[1..], k - 1);
  }

  lemma {:induction false} CutLater(ts: seq<Token>, s: string, k: nat)
    requires k <= |s| && Matches(ts, s[k..]) && !Matches(ts, s)
    ensures k > 0
  {
    assert s[0..] == s;
  }

  lemma {:induction false} TailAccepted(t: Token, s: string, k: nat)
    requires (t.Star? || t.DoubleStar?) && 0 < k <= |s| && Accepts(t, s[..k])
    ensures (t.Star? ==> s[0] != '/') && Accepts(t, s[1..][..k - 1]) && s[1..][k - 1..] == s[k..]
  {
    assert s[..k][0] == s[0];
    assert s[..k] == [s[0]] + s[1..][..k - 1];
  }

  /** What the suffix array holds: some later position is preceded by a slash and matches the rest. */
  ghost predicate AfterSomeSlash(ts: seq<Token>, s: string) {
    exists k :: 0 < k <= |s| && s[k - 1] == '/' && Matches(ts, s[k..])
  }

  lemma {:induction false} SuffixStep(ts: seq<Token>, s: string)
    requires s != ""
    ensures AfterSomeSlash(ts, s) <==> AfterSomeSlash(ts, s[1..]) || (s[0] == '/' && Matches(ts, s[1..]))
  {
    if AfterSomeSlash(ts, s[1..]) {
      var k :| 0 < k <= |s[1..]| && s[1..][k - 1] == '/' && Matches(ts, s[1..][k..]);
      assert s[1..][k..] == s[k + 1..];
      assert s[k + 1 - 1] == '/';
    }
    if AfterSomeSlash(ts, s) {
      var k :| 0 < k <= |s| && s[k - 1] == '/' && Matches(ts, s[k..]);
      if k > 1 {
        assert s[1..][k - 2] == '/';
        assert s[1..][k - 1..] == s[k..];
      }
    }
  }

  lemma {:induction false} SlashStep(ts: seq<Token>, s: string)
    requires ts != [] && ts[0].DoubleStarSlash?
    ensures Matches(ts, s) <==> Matches(ts[1..], s) || AfterSomeSlash(ts[1..], s)
  {
    assert s[0..] == s;
    if Matches(ts[1..], s) {
      MatchesByCut(ts, s, 0);
    } else if AfterSomeSlash(ts[1..], s) {
      var k :| 0 < k <= |s| && s[k - 1] == '/' && Matches(ts[1..], s[k..]);
      MatchesByCut(ts, s, k);
    }
    if Matches(ts, s) {
      var k := CutOf(ts, s);
      if k > 0 {
        assert s[..k][k - 1] == s[k - 1];
      }
    }
  }

  // --------------------------------------------------------------- the table

  /** The row of the table at `base` holds, from position `from` on, whether `ts` match the rest of the text. */
  ghost predicate Row(dp: seq<bool>, base: nat, ts: seq<Token>, text: string, from: nat) {
    && base + |text| < |dp|
    && forall j :: from <= j <= |text| ==> dp[base + j] == Matches(ts, text[j..])
  }

  method ClassProbe(members: seq<(char, Option<char>)>, c: char) returns (hit: bool, ghost probes: nat)
    ensures hit == ClassHit(members, c)
    ensures probes <= |members|
  {
    hit := false;
    probes := 0;
    for i := 0 to |members|
      invariant hit == exists k :: 0 <= k < i && Hits(members[k], c)
      invariant probes <= i
    {
      if !hit {
        probes := probes + 1;
        hit := Hits(members[i], c);
      }
    }
  }

  /** The suffix array of one row, filled from the right. */
  method SlashSuffix(dp: array<bool>, base: nat, text: string, ghost rest: seq<Token>) returns (suffix: array<bool>)
    requires Row(dp[..], base, rest, text, 0)
    ensures fresh(suffix) && suffix.Length == |text| + 1
    ensures forall j :: 0 <= j <= |text| ==> suffix[j] == AfterSomeSlash(rest, text[j..])
  {
    var n := |text|;
    suffix := new bool[n + 1](_ => false);
    var j := n;
    assert text[n..] == "";
    while 0 < j
      invariant 0 <= j <= n
      invariant forall k :: j <= k <= n ==> suffix[k] == AfterSomeSlash(rest, text[k..])
    {
      j := j - 1;
      assert text[j..][1..] == text[j + 1..];
      SuffixStep(rest, text[j..]);
      assert dp[base + (j + 1)] == dp[..][base + (j + 1)];
      suffix[j] := suffix[j + 1] || (text[j] == '/' && dp[base + (j + 1)]);
    }
  }

  /** One row of the table from the row above it in index, filled from the right. */
  method FillRow(dp: array<bool>, base: nat, ghost ts: seq<Token>, token: Token, text: string)
    returns (ghost cells: nat, ghost probes: nat)
    requires ts != [] && ts[0] == token
    requires Row(dp[..], base + |text| + 1, ts[1..], text, 0)
    modifies dp
    ensures Row(dp[..], base, ts, text, 0)
    ensures forall x :: 0 <= x < dp.Length && !(base <= x <= base + |text|) ==> dp[x] == old(dp[x])
    ensures cells == |text| + 1
    ensures probes <= Weight(token) * cells
  {
    var n := |text|;
    var next := base + n + 1;
    var suffix := SlashSuffix(dp, next, text, ts[1..]);
    var j := n + 1;
    cells, probes := 0, 0;
    while 0 < j
      invariant 0 <= j <= n + 1
      invariant Row(dp[..], base, ts, text, j) && Row(dp[..], next, ts[1..], text, 0)
      invariant forall k :: 0 <= k <= n ==> suffix[k] == AfterSomeSlash(ts[1..], text[k..])
      invariant forall x :: 0 <= x < dp.Length && !(base <= x < next) ==> dp[x] == old(dp[x])
      invariant cells == n + 1 - j
      invariant probes <= Times(Weight(token), cells)
    {
      j := j - 1;
      ghost var spent := WriteCell(dp, base, ts, token, text, suffix[j], j);
      cells := cells + 1;
      probes := probes + spent;
    }
    TimesIsProduct(Weight(token), cells);
  }

  /** Write one cell of a row whose cells to the right are written. */
  method WriteCell(dp: array<bool>, base: nat, ghost ts: seq<Token>, token: Token, text: string, suffix: bool, j: nat)
    returns (ghost probes: nat)
    requires ts != [] && ts[0] == token && j <= |text|
    requires Row(dp[..], base, ts, text, j + 1) && Row(dp[..], base + |text| + 1, ts[1..], text, 0)
    requires suffix == AfterSomeSlash(ts[1..], text[j..])
    modifies dp
    ensures Row(dp[..], base, ts, text, j) && Row(dp[..], base + |text| + 1, ts[1..], text, 0)
    ensures forall x :: 0 <= x < dp.Length && x != base + j ==> dp[x] == old(dp[x])
    ensures probes <= Weight(token)
  {
    var n, next := |text|, base + |text| + 1;
    ghost var before := dp[..];
    var right, nextRight := j < n && dp[base + (j + 1)], j < n && dp[next + (j + 1)];
    assert before[next + j] == dp[next + j];
    assert j < n ==> before[base + (j + 1)] == right && before[next + (j + 1)] == nextRight;
    var value;
    value, probes := FillCell(ts, token, text, j, right, dp[next + j], nextRight, suffix);
    dp[base + j] := value;
    RowStep(before, dp[..], base, ts, text, j);
  }

  lemma {:induction false} RowStep(dp: seq<bool>, dp': seq<bool>, base: nat, ts: seq<Token>, text: string, j: nat)
    requires ts != [] && j <= |text| && Row(dp, base, ts, text, j + 1) && Row(dp, base + |text| + 1, ts[1..], text, 0)
    requires dp' == dp[base + j := Matches(ts, text[j..])]
    ensures Row(dp', base, ts, text, j) && Row(dp', base + |text| + 1, ts[1..], text, 0)
  {
  }

  ghost function Times(w: nat, n: nat): nat {
    if n == 0 then 0 else Times(w, n - 1) + w
  }

  lemma {:induction false} TimesIsProduct(w: nat, n: nat)
    ensures Times(w, n) == w * n
  {
    if n > 0 {
      TimesIsProduct(w, n - 1);
    }
  }

  /**
   * The value of one cell: `right` is the cell after it in its row, `next` and `nextRight` the cells
   * at its place and after it in the next row.
   */
  method FillCell(ghost ts: seq<Token>, token: Token, text: string, j: nat, right: bool, next: bool, nextRight: bool, suffix: bool)
    returns (value: bool, ghost probes: nat)
    requires ts != [] && ts[0] == token && j <= |text|
    requires next == Matches(ts[1..], text[j..]) && suffix == AfterSomeSlash(ts[1..], text[j..])
    requires j < |text| ==> right == Matches(ts, text[j + 1..]) && nextRight == Matches(ts[1..], text[j + 1..])
    ensures value == Matches(ts, text[j..])
    ensures probes <= Weight(token)
  {
    var n := |text|;
    probes := 0;
    ghost var s := text[j..];
    assert j < n ==> s[0] == text[j] && s[1..] == text[j + 1..] && s[..1] == [text[j]];
    match token {
      case Star =>
        Extend(ts, s);
        value := next || (j < n && text[j] != '/' && right);
      case DoubleStar =>
        Extend(ts, s);
        value := next || (j < n && right);
      case DoubleStarSlash =>
        SlashStep(ts, s);
        value := next || suffix;
      case One =>
        TakeFirst(ts, s);
        value := j < n && text[j] != '/' && nextRight;
      case Class(members, negated) =>
        TakeFirst(ts, s);
        value := false;
        if j < n && text[j] != '/' {
          var hit;
          hit, probes := ClassProbe(members, text[j]);
          value := hit != negated && nextRight;
        }
      case Literal(c) =>
        TakeFirst(ts, s);
        value := j < n && c == text[j] && nextRight;
    }
  }

  /**
   * The matcher: a table of `|tokens| + 1` rows of `|s| + 1` cells in one array, filled from the last row.
   * `cells` and `probes` count the table cells written and the class members compared.
   */
  method Glob(p: string, s: string) returns (answer: Verdict, ghost cells: nat, ghost probes: nat)
    ensures answer == GlobAnswer(p, s)
    ensures answer.Ok? ==> answer.value == Denotes(p, s)
    ensures answer.Err? <==> || Utf8Size(p) > 4096 || Utf8Size(s) > 4_000_000
                             || (|Tokens(p)| + 1) * (|s| + 1) + TotalWeight(Tokens(p)) * (|s| + 1) > 1_000_000
    ensures cells + probes <= 1_000_000
  {
    PatternMeaning(p, s);
    cells, probes := 0, 0;
    if Utf8Size(p) > 4096 || Utf8Size(s) > 4_000_000 {
      return Err(ResourceLimit), 0, 0;
    }
    var tokens := GlobTokens(p);
    var members := TotalWeight(tokens);
    if (|tokens| + 1) * (|s| + 1) + members * (|s| + 1) > 1_000_000 {
      return Err(ResourceLimit), 0, 0;
    }
    answer, cells, probes := FillTable(tokens, s);
  }

  lemma {:induction false} Distribute(a: nat, b: nat, w: nat)
    ensures (a + b) * w == a * w + b * w
  {
  }

  lemma {:induction false} WeightStep(tokens: seq<Token>, i: nat, w: nat)
    requires i < |tokens|
    ensures TotalWeight(tokens[i..]) * w == Weight(tokens[i]) * w + TotalWeight(tokens[i + 1..]) * w
  {
    assert tokens[i..][1..] == tokens[i + 1..];
    Distribute(Weight(tokens[i]), TotalWeight(tokens[i + 1..]), w);
  }

  /** No token left: only the empty rest matches. */
  lemma {:induction false} LastRow(dp: seq<bool>, base: nat, s: string)
    requires base + |s| < |dp| && forall x :: base <= x <= base + |s| ==> dp[x] == (x == base + |s|)
    ensures Row(dp, base, [], s, 0)
  {
    forall j | 0 <= j <= |s| ensures dp[base + j] == Matches([], s[j..]) {
      assert s[j..] == "" <==> j == |s|;
    }
  }

  /** The table loop over the rows, from the last token to the first. */
  method FillTable(tokens: seq<Token>, s: string) returns (answer: Verdict, ghost cells: nat, ghost probes: nat)
    ensures answer == Ok(Matches(tokens, s))
    ensures cells == (|tokens| + 1) * (|s| + 1)
    ensures probes <= TotalWeight(tokens) * (|s| + 1)
  {
    var width := |s| + 1;
    Distribute(|tokens|, 1, width);
    var dp := new bool[(|tokens| + 1) * width](_ => false);
    var base := |tokens| * width;
    dp[base + |s|] := true;
    assert tokens[|tokens|..] == [];
    LastRow(dp[..], base, s);
    var i := |tokens|;
    cells, probes := width, 0;
    while 0 < i
      invariant 0 <= i <= |tokens|
      invariant base == i * width && cells + base == dp.Length
      invariant Row(dp[..], base, tokens[i..], s, 0)
      invariant probes <= TotalWeight(tokens[i..]) * width
    {
      i := i - 1;
      Distribute(i, 1, width);
      base := base - width;
      assert tokens[i..][1..] == tokens[i + 1..];
      ghost var written, spent := FillRow(dp, base, tokens[i..], tokens[i], s);
      WeightStep(tokens, i, width);
      cells := cells + written;
      probes := probes + spent;
    }
    assert tokens[0..] == tokens && s[0..] == s;
    assert dp[..][base + 0] == dp[0];
    answer := Ok(dp[0]);
  }
}
