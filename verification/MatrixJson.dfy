/** Canonical matrix JSON: the printer, its meaning, and the counter that bounds it. */
module MatrixJson {
  import opened Common
  import opened Order

  /**
   * `serde_json::Value`. An object is its members in insertion order with distinct keys; `Float`
   * stands for a number that is neither an `i64` nor a `u64`, with the text it prints as.
   */
  datatype Value =
    | Null
    | Bool(b: bool)
    | Int(n: int)
    | Float(text: string)
    | Str(s: string)
    | Arr(items: seq<Value>)
    | Obj(members: seq<Member<Value>>)

  datatype Member<T> = Member(key: string, value: T)

  /** What a map guarantees: no key twice. */
  ghost predicate DistinctKeys<T>(ms: seq<Member<T>>) {
    forall i, j :: 0 <= i < j < |ms| ==> ms[i].key != ms[j].key
  }

  ghost predicate WellFormed(v: Value) {
    match v
    case Arr(items) => forall i :: 0 <= i < |items| ==> WellFormed(items[i])
    case Obj(ms) => DistinctKeys(ms) && forall i :: 0 <= i < |ms| ==> WellFormed(ms[i].value)
    case _ => true
  }

  ghost predicate FloatFree(v: Value) {
    match v
    case Float(_) => false
    case Arr(items) => forall i :: 0 <= i < |items| ==> FloatFree(items[i])
    case Obj(ms) => forall i :: 0 <= i < |ms| ==> FloatFree(ms[i].value)
    case _ => true
  }

  /** The same value up to the order of object members, at every depth. */
  ghost predicate Equiv(v: Value, w: Value)
    decreases v
  {
    match (v, w)
    case (Arr(a), Arr(b)) => |a| == |b| && forall i :: 0 <= i < |a| ==> Equiv(a[i], b[i])
    case (Obj(a), Obj(b)) => |a| == |b| && forall i :: 0 <= i < |a| ==> HasMember(v, i, b)
    case (Arr(_), _) => false
    case (Obj(_), _) => false
    case (_, _) => v == w
  }

  ghost predicate HasMember(v: Value, i: nat, b: seq<Member<Value>>)
    requires v.Obj? && i < |v.members|
    decreases v, 0
  {
    exists j :: 0 <= j < |b| && b[j].key == v.members[i].key && Equiv(v.members[i].value, b[j].value)
  }

  // ---------------------------------------------------------------- printing

  function HexDigit(n: nat): char
    requires n < 16
  {
    if n < 10 then '0' + n as char else 'a' + (n - 10) as char
  }

  /** Section 7 of RFC 8259: the two-character escapes, `\u00xx` for other controls, else itself. */
  function Escape(c: char): (e: string)
    ensures e != "" && e[0] != '"'
  {
    var v := c as int;
    if c == '"' then ['\\', '"']
    else if c == '\\' then ['\\', '\\']
    else if c == '\n' then ['\\', 'n']
    else if c == '\r' then ['\\', 'r']
    else if c == '\t' then ['\\', 't']
    else if v == 8 then ['\\', 'b']
    else if v == 12 then ['\\', 'f']
    else if v <= 0x1f then ['\\', 'u', '0', '0', HexDigit(v / 16), HexDigit(v % 16)]
    else [c]
  }

  function EscapeAll(s: string): string {
    if s == "" then "" else Escape(s[0]) + EscapeAll(s[1..])
  }

  function PrintString(s: string): string {
    ['"'] + EscapeAll(s) + ['"']
  }

  function Digits(n: nat): (d: string)
    ensures d != "" && forall i :: 0 <= i < |d| ==> '0' <= d[i] <= '9'
  {
    if n < 10 then ['0' + n as char] else Digits(n / 10) + ['0' + (n % 10) as char]
  }

  function PrintInt(n: int): string {
    if n < 0 then "-" + Digits(-n) else Digits(n)
  }

  predicate KeyLe<T>(a: Member<T>, b: Member<T>) {
    StrLe(a.key, b.key)
  }

  function Encode(v: Value): string
    decreases v, 1
  {
    match v
    case Null => "null"
    case Bool(b) => if b then "true" else "false"
    case Int(n) => PrintInt(n)
    case Float(text) => text
    case Str(s) => PrintString(s)
    case Arr(items) => "[" + Commas(EncodeItems(items)) + "]"
    case Obj(ms) => "{" + Commas(PrintMembers(Sort(EncodeMembers(ms), KeyLe))) + "}"
  }

  function EncodeItems(items: seq<Value>): (r: seq<string>)
    ensures |r| == |items| && forall i :: 0 <= i < |r| ==> r[i] == Encode(items[i])
    decreases items, 0
  {
    if items == [] then [] else [Encode(items[0])] + EncodeItems(items[1..])
  }

  function EncodeMembers(ms: seq<Member<Value>>): (r: seq<Member<string>>)
    ensures |r| == |ms| && forall i :: 0 <= i < |r| ==> r[i] == Member(ms[i].key, Encode(ms[i].value))
    decreases ms, 0
  {
    if ms == [] then [] else [Member(ms[0].key, Encode(ms[0].value))] + EncodeMembers(ms[1..])
  }

  function PrintMembers(ps: seq<Member<string>>): (r: seq<string>)
    ensures |r| == |ps| && forall i :: 0 <= i < |r| ==> r[i] == PrintString(ps[i].key) + ":" + ps[i].value
  {
    if ps == [] then [] else [PrintString(ps[0].key) + ":" + ps[0].value] + PrintMembers(ps[1..])
  }

  /** `join(",")`. */
  function Commas(texts: seq<string>): string {
    if texts == [] then ""
    else if |texts| == 1 then texts[0]
    else texts[0] + "," + Commas(texts[1..])
  }

  /** The recursive sort that runs before printing. */
  function Canonical(v: Value): Value
    decreases v, 1
  {
    match v
    case Arr(items) => Arr(CanonicalItems(items))
    case Obj(ms) => Obj(Sort(CanonicalMembers(ms), KeyLe))
    case _ => v
  }

  function CanonicalItems(items: seq<Value>): (r: seq<Value>)
    ensures |r| == |items| && forall i :: 0 <= i < |r| ==> r[i] == Canonical(items[i])
    decreases items, 0
  {
    if items == [] then [] else [Canonical(items[0])] + CanonicalItems(items[1..])
  }

  function CanonicalMembers(ms: seq<Member<Value>>): (r: seq<Member<Value>>)
    ensures |r| == |ms| && forall i :: 0 <= i < |r| ==> r[i] == Member(ms[i].key, Canonical(ms[i].value))
    decreases ms, 0
  {
    if ms == [] then [] else [Member(ms[0].key, Canonical(ms[0].value))] + CanonicalMembers(ms[1..])
  }

  /** `ActMatrixTuple::canonical_json` of the tuple with these axes. */
  function CanonicalJson(axes: seq<Member<Value>>): string {
    Encode(Canonical(Obj(axes)))
  }

  // ------------------------------------------- member order is never visible

  lemma {:induction false} KeyOrder<T(!new)>(ms: seq<Member<T>>)
    ensures Total(KeyLe<T>)
    ensures DistinctKeys(ms) ==> NoDup(ms) && Separates(KeyLe, ms)
  {
    StrLeTotal();
    assert forall a: Member<T>, b: Member<T> :: KeyLe(a, b) || KeyLe(b, a);
    if DistinctKeys(ms) {
      forall x, y | x in ms && y in ms && KeyLe(x, y) && KeyLe(y, x) ensures x == y {
        assert x.key == y.key;
        var i :| 0 <= i < |ms| && ms[i] == x;
        var j :| 0 <= j < |ms| && ms[j] == y;
        assert i == j;
      }
    }
  }

  /** Two member lists with the same members sort to the same list. */
  lemma {:induction false} SortMembersSame<T(!new)>(a: seq<Member<T>>, b: seq<Member<T>>)
    requires DistinctKeys(a) && DistinctKeys(b) && |a| == |b|
    requires forall p :: p in a ==> p in b
    ensures Sort(a, KeyLe) == Sort(b, KeyLe)
  {
    KeyOrder(a);
    KeyOrder(b);
    Pigeonhole(a, b);
    SortForgets(a, b, KeyLe);
  }

  /** Equal up to member order prints equal. */
  lemma {:induction false} EquivEncodesSame(v: Value, w: Value)
    requires WellFormed(v) && WellFormed(w) && Equiv(v, w)
    ensures Encode(v) == Encode(w)
    decreases v
  {
    match v {
      case Arr(a) =>
        var b := w.items;
        forall i | 0 <= i < |a| ensures EncodeItems(a)[i] == EncodeItems(b)[i] {
          EquivEncodesSame(a[i], b[i]);
        }
        assert EncodeItems(a) == EncodeItems(b);
      case Obj(a) =>
        var b := w.members;
        var p, q := EncodeMembers(a), EncodeMembers(b);
        assert DistinctKeys(p) && DistinctKeys(q);
        forall x | x in p ensures x in q {
          var i :| 0 <= i < |p| && p[i] == x;
          assert HasMember(v, i, b);
          var j :| 0 <= j < |b| && b[j].key == a[i].key && Equiv(a[i].value, b[j].value);
          EquivEncodesSame(a[i].value, b[j].value);
          assert q[j] == x;
        }
        SortMembersSame(p, q);
      case _ =>
    }
  }

  lemma {:induction false} CanonicalKeeps(v: Value)
    requires WellFormed(v)
    ensures WellFormed(Canonical(v)) && Equiv(v, Canonical(v))
    decreases v
  {
    match v {
      case Arr(items) =>
        forall i | 0 <= i < |items| ensures WellFormed(Canonical(items[i])) && Equiv(items[i], Canonical(items[i])) {
          CanonicalKeeps(items[i]);
        }
      case Obj(ms) =>
        forall i | 0 <= i < |ms| ensures WellFormed(Canonical(ms[i].value)) && Equiv(ms[i].value, Canonical(ms[i].value)) {
          CanonicalKeeps(ms[i].value);
        }
        CanonicalObject(v);
      case _ =>
    }
  }

  lemma {:induction false} CanonicalObject(v: Value)
    requires WellFormed(v) && v.Obj?
    requires forall i :: 0 <= i < |v.members| ==>
                           WellFormed(Canonical(v.members[i].value)) && Equiv(v.members[i].value, Canonical(v.members[i].value))
    ensures WellFormed(Canonical(v)) && Equiv(v, Canonical(v))
  {
    var ms := v.members;
    var c := CanonicalMembers(ms);
    var s := Sort(c, KeyLe);
    assert DistinctKeys(c);
    SortKeepsKeys(c);
    SortMembers(c, KeyLe);
    forall i | 0 <= i < |ms| ensures HasMember(v, i, s) {
      assert c[i] in c;
      assert c[i] in s;
      var j :| 0 <= j < |s| && s[j] == c[i];
    }
    forall j | 0 <= j < |s| ensures WellFormed(s[j].value) {
      assert s[j] in s;
      assert s[j] in c;
    }
  }

  lemma {:induction false} SortKeepsKeys<T(!new)>(c: seq<Member<T>>)
    requires DistinctKeys(c)
    ensures DistinctKeys(Sort(c, KeyLe)) && |Sort(c, KeyLe)| == |c|
  {
    var s := Sort(c, KeyLe);
    KeyOrder(c);
    SortNoDup(c, KeyLe);
    SortMultiset(c, KeyLe);
    SortMembers(c, KeyLe);
    assert forall x :: x in s ==> x in c;
    forall i, j | 0 <= i < j < |s| ensures s[i].key != s[j].key {
      assert s[i] in s && s[j] in s;
      assert s[i] in c && s[j] in c;
      assert s[i] != s[j];
    }
  }

  /** Printing twice-sorted is printing once-sorted. */
  lemma {:induction false} CanonicalIsEncode(v: Value)
    requires WellFormed(v)
    ensures Encode(Canonical(v)) == Encode(v)
  {
    CanonicalKeeps(v);
    EquivEncodesSame(v, Canonical(v));
  }

  // ------------------------------------------------ the text fixes the value

  /** What may follow a value inside a larger text. */
  predicate Delimited(x: string) {
    x == "" || x[0] == ',' || x[0] == ']' || x[0] == '}'
  }

  predicate IsDigit(c: char) {
    '0' <= c <= '9'
  }

  lemma {:induction false} EscapeCode(c: char, d: char, x: string, y: string)
    requires Escape(c) + x == Escape(d) + y
    ensures c == d && x == y
  {
    var s := Escape(c) + x;
    assert s[0] == Escape(c)[0] == Escape(d)[0];
    assert |Escape(c)| > 1 ==> s[1] == Escape(c)[1];
    assert |Escape(d)| > 1 ==> s[1] == Escape(d)[1];
    assert |Escape(c)| > 2 ==> s[4] == Escape(c)[4] && s[5] == Escape(c)[5];
    assert |Escape(d)| > 2 ==> s[4] == Escape(d)[4] && s[5] == Escape(d)[5];
    if |Escape(c)| > 2 && |Escape(d)| > 2 {
      HexCode(c as int / 16, d as int / 16);
      HexCode(c as int % 16, d as int % 16);
      assert c as int == d as int;
    }
    assert c == d;
    assert x == s[|Escape(c)|..] && y == s[|Escape(d)|..];
  }

  lemma HexCode(a: nat, b: nat)
    requires a < 16 && b < 16 && HexDigit(a) == HexDigit(b)
    ensures a == b
  {
  }

  lemma {:induction false} EscapedStart(s: string, x: string)
    ensures (EscapeAll(s) + ['"'] + x)[0] == '"' <==> s == ""
  {
    if s != "" {
      assert (EscapeAll(s) + ['"'] + x)[0] == Escape(s[0])[0];
    }
  }

  /** A quoted string ends where its closing quote is, and its body decodes one way. */
  lemma {:induction false} EscapedNext(s: string, x: string)
    requires s != ""
    ensures Escape(s[0]) + (EscapeAll(s[1..]) + ['"'] + x) == EscapeAll(s) + ['"'] + x
  {
  }

  lemma {:induction false} EscapedFixes(s: string, t: string, x: string, y: string)
    requires EscapeAll(s) + ['"'] + x == EscapeAll(t) + ['"'] + y
    ensures s == t && x == y
    decreases |s|
  {
    EscapedStart(s, x);
    EscapedStart(t, y);
    if s == "" {
      var whole := EscapeAll(s) + ['"'] + x;
      assert x == whole[1..] && y == whole[1..];
    } else {
      var a, b := EscapeAll(s[1..]) + ['"'] + x, EscapeAll(t[1..]) + ['"'] + y;
      EscapedNext(s, x);
      EscapedNext(t, y);
      EscapeCode(s[0], t[0], a, b);
      EscapedFixes(s[1..], t[1..], x, y);
      assert s == [s[0]] + s[1..] && t == [t[0]] + t[1..];
    }
  }

  lemma {:induction false} StringFixes(s: string, t: string, x: string, y: string)
    requires PrintString(s) + x == PrintString(t) + y
    ensures s == t && x == y
  {
    var a, b := EscapeAll(s) + ['"'] + x, EscapeAll(t) + ['"'] + y;
    assert PrintString(s) + x == ['"'] + a;
    assert PrintString(t) + y == ['"'] + b;
    assert a == (['"'] + a)[1..] && b == (['"'] + b)[1..];
    EscapedFixes(s, t, x, y);
  }

  lemma {:induction false} DigitsFix(n: nat, m: nat)
    requires Digits(n) == Digits(m)
    ensures n == m
    decreases n
  {
    var d := Digits(n);
    DigitsLong(n);
    DigitsLong(m);
    if n < 10 && m < 10 {
      assert d[0] == '0' + n as char == '0' + m as char;
    } else if n >= 10 && m >= 10 {
      assert d[|d| - 1] == '0' + (n % 10) as char == '0' + (m % 10) as char;
      assert d[..|d| - 1] == Digits(n / 10) && d[..|d| - 1] == Digits(m / 10);
      DigitsFix(n / 10, m / 10);
    }
  }

  lemma {:induction false} DigitsLong(n: nat)
    ensures |Digits(n)| == 1 <==> n < 10
  {
  }

  function LeadingDigits(s: string): nat {
    if s == "" || !IsDigit(s[0]) then 0 else 1 + LeadingDigits(s[1..])
  }

  lemma {:induction false} RunLength(a: string, x: string)
    requires (forall i :: 0 <= i < |a| ==> IsDigit(a[i])) && (x == "" || !IsDigit(x[0]))
    ensures LeadingDigits(a + x) == |a|
  {
    if a == "" {
      assert a + x == x;
    } else {
      assert (a + x)[1..] == a[1..] + x;
      RunLength(a[1..], x);
    }
  }

  /** A run of digits ends at the first character that is none. */
  lemma {:induction false} RunFixes(a: string, b: string, x: string, y: string)
    requires (forall i :: 0 <= i < |a| ==> IsDigit(a[i])) && (forall i :: 0 <= i < |b| ==> IsDigit(b[i]))
    requires (x == "" || !IsDigit(x[0])) && (y == "" || !IsDigit(y[0]))
    requires a + x == b + y
    ensures a == b && x == y
  {
    var s := a + x;
    RunLength(a, x);
    RunLength(b, y);
    assert |a| == |b|;
    assert a == s[..|a|] && b == s[..|a|] && x == s[|a|..] && y == s[|a|..];
  }

  lemma {:induction false} IntFixes(n: int, m: int, x: string, y: string)
    requires Delimited(x) && Delimited(y) && PrintInt(n) + x == PrintInt(m) + y
    ensures n == m && x == y
  {
    var s := PrintInt(n) + x;
    SignOf(n);
    SignOf(m);
    assert s[0] == PrintInt(n)[0] && s[0] == PrintInt(m)[0];
    if n < 0 {
      AfterSign(Digits(-n), x);
      AfterSign(Digits(-m), y);
      NatFixes(-n, -m, x, y);
    } else {
      NatFixes(n, m, x, y);
    }
  }

  lemma {:induction false} AfterSign(d: string, x: string)
    ensures ("-" + d + x)[1..] == d + x
  {
  }

  lemma {:induction false} NatFixes(n: nat, m: nat, x: string, y: string)
    requires Delimited(x) && Delimited(y) && Digits(n) + x == Digits(m) + y
    ensures n == m && x == y
  {
    RunFixes(Digits(n), Digits(m), x, y);
    DigitsFix(n, m);
  }

  lemma {:induction false} SignOf(n: int)
    ensures PrintInt(n) != "" && (PrintInt(n)[0] == '-' <==> n < 0)
  {
    if n >= 0 {
      assert IsDigit(Digits(n)[0]);
    }
  }

  /** The first character tells the kind of value. */
  function Lead(v: Value): char
    requires !v.Float?
  {
    match v
    case Null => 'n'
    case Bool(b) => if b then 't' else 'f'
    case Int(n) => PrintInt(n)[0]
    case Str(_) => '"'
    case Arr(_) => '['
    case Obj(_) => '{'
  }

  lemma {:induction false} LeadOf(v: Value)
    requires !v.Float?
    ensures Encode(v) != "" && Encode(v)[0] == Lead(v)
    ensures Lead(v) != ',' && Lead(v) != ']' && Lead(v) != '}'
  {
  }

  lemma {:induction false} SameKind(v: Value, w: Value)
    requires !v.Float? && !w.Float? && Lead(v) == Lead(w)
    ensures v.Null? == w.Null? && v.Bool? == w.Bool? && v.Int? == w.Int? && v.Str? == w.Str?
    ensures v.Arr? == w.Arr? && v.Obj? == w.Obj? && (v.Bool? ==> v == w)
  {
  }

  /** No text of `a` continues into a text of `b`. */
  ghost predicate Separate(a: seq<string>, b: seq<string>) {
    forall i, j, x, y | 0 <= i < |a| && 0 <= j < |b| :: Unmixed(a[i], x, b[j], y)
  }

  ghost predicate Unmixed(a: string, x: string, b: string, y: string) {
    Delimited(x) && Delimited(y) && a + x == b + y ==> a == b && x == y
  }

  ghost predicate Leading(a: seq<string>) {
    forall i :: 0 <= i < |a| ==> a[i] != "" && !Delimited(a[i])
  }

  function Tail(a: seq<string>, close: char, x: string): string
    requires a != []
  {
    (if |a| == 1 then "" else "," + Commas(a[1..])) + [close] + x
  }

  /** A comma-separated list up to its closing bracket reads one way. */
  lemma {:induction false} ListFixes(a: seq<string>, b: seq<string>, close: char, x: string, y: string)
    requires close == ']' || close == '}'
    requires Separate(a, b) && Leading(a) && Leading(b)
    requires Commas(a) + [close] + x == Commas(b) + [close] + y
    ensures a == b && x == y
    decreases |a|
  {
    var s := Commas(a) + [close] + x;
    ListStart(a, close, x);
    ListStart(b, close, y);
    if a == [] {
      assert x == s[1..] && y == s[1..];
    } else {
      assert s == a[0] + Tail(a, close, x);
      assert s == b[0] + Tail(b, close, y);
      assert Delimited(Tail(a, close, x)) && Delimited(Tail(b, close, y));
      assert Unmixed(a[0], Tail(a, close, x), b[0], Tail(b, close, y));
      TailFixes(a, b, close, x, y);
      if |a| > 1 {
        assert Separate(a[1..], b[1..]) by {
          forall i, j, p, q | 0 <= i < |a[1..]| && 0 <= j < |b[1..]| ensures Unmixed(a[1..][i], p, b[1..][j], q) {
            assert Unmixed(a[i + 1], p, b[j + 1], q);
          }
        }
        ListFixes(a[1..], b[1..], close, x, y);
      }
      assert a == [a[0]] + a[1..] && b == [b[0]] + b[1..];
    }
  }

  lemma {:induction false} ListStart(a: seq<string>, close: char, x: string)
    requires (close == ']' || close == '}') && Leading(a)
    ensures (Commas(a) + [close] + x)[0] == close <==> a == []
  {
    if a != [] {
      assert (Commas(a) + [close] + x)[0] == a[0][0];
    }
  }

  lemma {:induction false} TailFixes(a: seq<string>, b: seq<string>, close: char, x: string, y: string)
    requires a != [] && b != [] && close != ',' && Tail(a, close, x) == Tail(b, close, y)
    ensures |a| == 1 <==> |b| == 1
    ensures |a| == 1 ==> x == y && a[1..] == b[1..]
    ensures |a| > 1 ==> Commas(a[1..]) + [close] + x == Commas(b[1..]) + [close] + y
  {
    var t := Tail(a, close, x);
    assert |a| == 1 ==> t == [close] + x && t[0] == close && t[1..] == x;
    assert |b| == 1 ==> t == [close] + y && t[0] == close && t[1..] == y;
    assert |a| > 1 ==> t == "," + (Commas(a[1..]) + [close] + x) && t[0] == ',' && t[1..] == Commas(a[1..]) + [close] + x;
    assert |b| > 1 ==> t == "," + (Commas(b[1..]) + [close] + y) && t[0] == ',' && t[1..] == Commas(b[1..]) + [close] + y;
  }

  /** No value's text continues into another's. */
  lemma {:induction false} PrefixFree(v: Value, w: Value, x: string, y: string)
    requires FloatFree(v) && FloatFree(w) && Delimited(x) && Delimited(y)
    requires Encode(v) + x == Encode(w) + y
    ensures Encode(v) == Encode(w) && x == y
    decreases v, 1
  {
    var s := Encode(v) + x;
    LeadOf(v);
    LeadOf(w);
    assert s[0] == Encode(v)[0] == Encode(w)[0];
    SameKind(v, w);
    match v {
      case Int(n) => IntFixes(n, w.n, x, y);
      case Str(t) => StringFixes(t, w.s, x, y);
      case Arr(_) => ArrayFixes(v, w, x, y);
      case Obj(_) => ObjectFixes(v, w, x, y);
      case _ =>
        assert |Encode(v)| == |Encode(w)|;
        assert Encode(v) == s[..|Encode(v)|] && Encode(w) == s[..|Encode(w)|];
        assert x == s[|Encode(v)|..] && y == s[|Encode(w)|..];
    }
  }

  lemma {:induction false} ArrayFixes(v: Value, w: Value, x: string, y: string)
    requires v.Arr? && w.Arr? && FloatFree(v) && FloatFree(w)
    requires Encode(v) + x == Encode(w) + y
    ensures EncodeItems(v.items) == EncodeItems(w.items) && x == y
    decreases v, 0
  {
    var a, b := EncodeItems(v.items), EncodeItems(w.items);
    forall i, j, p, q | 0 <= i < |a| && 0 <= j < |b| ensures Unmixed(a[i], p, b[j], q) {
      if Delimited(p) && Delimited(q) && a[i] + p == b[j] + q {
        PrefixFree(v.items[i], w.items[j], p, q);
      }
    }
    forall i | 0 <= i < |a| ensures a[i] != "" && !Delimited(a[i]) {
      LeadOf(v.items[i]);
    }
    forall i | 0 <= i < |b| ensures b[i] != "" && !Delimited(b[i]) {
      LeadOf(w.items[i]);
    }
    assert Commas(a) + [']'] + x == (Encode(v) + x)[1..];
    assert Commas(b) + [']'] + y == (Encode(w) + y)[1..];
    ListFixes(a, b, ']', x, y);
  }

  /** The printed pairs of an object, in key order. */
  function Pairs(v: Value): seq<Member<string>>
    requires v.Obj?
  {
    Sort(EncodeMembers(v.members), KeyLe)
  }

  lemma {:induction false} PairOf(v: Value, i: nat) returns (k: nat)
    requires v.Obj? && i < |Pairs(v)|
    ensures k < |v.members| && Pairs(v)[i] == Member(v.members[k].key, Encode(v.members[k].value))
  {
    var e := EncodeMembers(v.members);
    SortMembers(e, KeyLe);
    assert Pairs(v)[i] in Pairs(v);
    assert Pairs(v)[i] in e;
    k :| 0 <= k < |e| && e[k] == Pairs(v)[i];
  }

  lemma {:induction false} PairTexts(v: Value, i: nat)
    requires v.Obj? && i < |Pairs(v)|
    ensures PrintMembers(Pairs(v))[i] != "" && !Delimited(PrintMembers(Pairs(v))[i])
  {
    assert PrintMembers(Pairs(v))[i][0] == '"';
  }

  lemma {:induction false} ObjectFixes(v: Value, w: Value, x: string, y: string)
    requires v.Obj? && w.Obj? && FloatFree(v) && FloatFree(w)
    requires Encode(v) + x == Encode(w) + y
    ensures Pairs(v) == Pairs(w) && x == y
    decreases v, 0, 2
  {
    var p, q := Pairs(v), Pairs(w);
    var a, b := PrintMembers(p), PrintMembers(q);
    forall i, j, c, d | 0 <= i < |a| && 0 <= j < |b| ensures Unmixed(a[i], c, b[j], d) {
      if Delimited(c) && Delimited(d) && a[i] + c == b[j] + d {
        PairFixes(v, w, i, j, c, d);
      }
    }
    forall i | 0 <= i < |a| ensures a[i] != "" && !Delimited(a[i]) {
      PairTexts(v, i);
    }
    forall i | 0 <= i < |b| ensures b[i] != "" && !Delimited(b[i]) {
      PairTexts(w, i);
    }
    assert Commas(a) + ['}'] + x == (Encode(v) + x)[1..];
    assert Commas(b) + ['}'] + y == (Encode(w) + y)[1..];
    ListFixes(a, b, '}', x, y);
    SamePairs(v, w);
  }

  lemma {:induction false} SamePairs(v: Value, w: Value)
    requires v.Obj? && w.Obj? && FloatFree(v) && FloatFree(w) && PrintMembers(Pairs(v)) == PrintMembers(Pairs(w))
    ensures Pairs(v) == Pairs(w)
    decreases v, 0, 1
  {
    var p, q := Pairs(v), Pairs(w);
    var a, b := PrintMembers(p), PrintMembers(q);
    forall i | 0 <= i < |p| ensures p[i] == q[i] {
      assert a[i] + "" == b[i] + "";
      PairFixes(v, w, i, i, "", "");
    }
  }

  lemma {:induction false} PairFixes(v: Value, w: Value, i: nat, j: nat, c: string, d: string)
    requires v.Obj? && w.Obj? && FloatFree(v) && FloatFree(w) && i < |Pairs(v)| && j < |Pairs(w)|
    requires Delimited(c) && Delimited(d) && PrintMembers(Pairs(v))[i] + c == PrintMembers(Pairs(w))[j] + d
    ensures Pairs(v)[i] == Pairs(w)[j] && c == d
    decreases v, 0, 0
  {
    var k := PairOf(v, i);
    var l := PairOf(w, j);
    PairTextFixes(Pairs(v)[i], Pairs(w)[j], c, d);
    PrefixFree(v.members[k].value, w.members[l].value, c, d);
  }

  lemma {:induction false} PairTextFixes(p: Member<string>, q: Member<string>, c: string, d: string)
    requires PrintString(p.key) + ":" + p.value + c == PrintString(q.key) + ":" + q.value + d
    ensures p.key == q.key && p.value + c == q.value + d
  {
    var a, b := ":" + p.value + c, ":" + q.value + d;
    assert PrintString(p.key) + ":" + p.value + c == PrintString(p.key) + a;
    assert PrintString(q.key) + ":" + q.value + d == PrintString(q.key) + b;
    StringFixes(p.key, q.key, a, b);
    assert a[1..] == p.value + c && b[1..] == q.value + d;
  }

  /** Equal texts come from values that are equal up to member order. */
  lemma {:induction false} EncodeFixes(v: Value, w: Value)
    requires FloatFree(v) && FloatFree(w) && Encode(v) == Encode(w)
    ensures Equiv(v, w)
    decreases v
  {
    LeadOf(v);
    LeadOf(w);
    SameKind(v, w);
    assert Encode(v) + "" == Encode(w) + "";
    match v {
      case Int(n) => IntFixes(n, w.n, "", "");
      case Str(t) => StringFixes(t, w.s, "", "");
      case Arr(a) =>
        ArrayFixes(v, w, "", "");
        assert |EncodeItems(a)| == |EncodeItems(w.items)|;
        forall i | 0 <= i < |a| ensures Equiv(a[i], w.items[i]) {
          assert EncodeItems(a)[i] == EncodeItems(w.items)[i];
          EncodeFixes(a[i], w.items[i]);
        }
      case Obj(a) =>
        ObjectFixes(v, w, "", "");
        var e, f := EncodeMembers(a), EncodeMembers(w.members);
        SortMultiset(e, KeyLe);
        SortMultiset(f, KeyLe);
        SortMembers(e, KeyLe);
        SortMembers(f, KeyLe);
        forall i | 0 <= i < |a| ensures HasMember(v, i, w.members) {
          assert e[i] in e;
          assert e[i] in f;
          var j :| 0 <= j < |f| && f[j] == e[i];
          EncodeFixes(a[i].value, w.members[j].value);
        }
      case _ =>
    }
  }

  /** Canonical JSON tells validated tuples apart exactly up to member order. */
  lemma {:induction false} CanonicalJsonExact(a: seq<Member<Value>>, b: seq<Member<Value>>)
    requires WellFormed(Obj(a)) && WellFormed(Obj(b)) && FloatFree(Obj(a)) && FloatFree(Obj(b))
    ensures CanonicalJson(a) == CanonicalJson(b) <==> Equiv(Obj(a), Obj(b))
  {
    CanonicalIsEncode(Obj(a));
    CanonicalIsEncode(Obj(b));
    if Equiv(Obj(a), Obj(b)) {
      EquivEncodesSame(Obj(a), Obj(b));
    }
    if CanonicalJson(a) == CanonicalJson(b) {
      EncodeFixes(Obj(a), Obj(b));
    }
  }

  // -------------------------------------------------------------- validation

  datatype MatrixError = ByteBound | StringBound | UnsafeKey | DepthOrNodeBound | FloatsUnsupported | AxisBound

  function CharSize(c: char): nat {
    var v := c as int;
    if c == '"' || c == '\\' || c == '\n' || c == '\r' || c == '\t' || v == 8 || v == 12 then 2
    else if v <= 0x1f then 6
    else Utf8Len(c)
  }

  function CharSizes(s: string): nat {
    if s == "" then 0 else CharSize(s[0]) + CharSizes(s[1..])
  }

  /** Rust's `char::is_control`: the C0 and C1 blocks and DEL. */
  predicate IsControl(c: char) {
    var v := c as int;
    v <= 0x1f || 0x7f <= v <= 0x9f
  }

  predicate SafeKey(k: string) {
    k != "" && Utf8Size(k) <= 64 && forall i :: 0 <= i < |k| ==> !IsControl(k[i])
  }

  function Nodes(v: Value): nat
    decreases v, 1
  {
    1 + match v
        case Arr(items) => NodesOfItems(items)
        case Obj(ms) => NodesOfMembers(ms)
        case _ => 0
  }

  function NodesOfItems(items: seq<Value>): nat
    decreases items, 0
  {
    if items == [] then 0 else Nodes(items[0]) + NodesOfItems(items[1..])
  }

  function NodesOfMembers(ms: seq<Member<Value>>): nat
    decreases ms, 0
  {
    if ms == [] then 0 else Nodes(ms[0].value) + NodesOfMembers(ms[1..])
  }

  /** Integer numbers only, safe keys, and nothing deeper than eight levels. */
  predicate Shaped(v: Value, depth: nat) {
    && depth <= 8
    && match v
       case Float(_) => false
       case Arr(items) => forall i :: 0 <= i < |items| ==> Shaped(items[i], depth + 1)
       case Obj(ms) => forall i :: 0 <= i < |ms| ==> SafeKey(ms[i].key) && Shaped(ms[i].value, depth + 1)
       case _ => true
  }

  /** How far values are nested in this one. */
  function Height(v: Value): nat
    decreases v, 1
  {
    match v
    case Arr(items) => HeightOfItems(items)
    case Obj(ms) => HeightOfMembers(ms)
    case _ => 0
  }

  function Larger(a: nat, b: nat): nat {
    if a < b then b else a
  }

  function HeightOfItems(items: seq<Value>): nat
    decreases items, 0
  {
    if items == [] then 0 else Larger(1 + Height(items[0]), HeightOfItems(items[1..]))
  }

  function HeightOfMembers(ms: seq<Member<Value>>): nat
    decreases ms, 0
  {
    if ms == [] then 0 else Larger(1 + Height(ms[0].value), HeightOfMembers(ms[1..]))
  }

  /** Every key is between one and 64 bytes long and holds no control character. */
  ghost predicate KeysSafe(v: Value) {
    match v
    case Arr(items) => forall i :: 0 <= i < |items| ==> KeysSafe(items[i])
    case Obj(ms) =>
      forall i :: 0 <= i < |ms| ==>
        && 1 <= Utf8Size(ms[i].key) <= 64
        && (forall k :: 0 <= k < |ms[i].key| ==> 0x20 <= ms[i].key[k] as int < 0x7f || ms[i].key[k] as int > 0x9f)
        && KeysSafe(ms[i].value)
    case _ => true
  }

  lemma {:induction false} ItemsHeight(items: seq<Value>, n: int)
    ensures n >= 0 ==> (HeightOfItems(items) <= n <==> forall i :: 0 <= i < |items| ==> 1 + Height(items[i]) <= n)
  {
    if items != [] {
      ItemsHeight(items[1..], n);
      assert forall i :: 0 < i < |items| ==> items[i] == items[1..][i - 1];
    }
  }

  lemma {:induction false} MembersHeight(ms: seq<Member<Value>>, n: int)
    ensures n >= 0 ==> (HeightOfMembers(ms) <= n <==> forall i :: 0 <= i < |ms| ==> 1 + Height(ms[i].value) <= n)
  {
    if ms != [] {
      MembersHeight(ms[1..], n);
      assert forall i :: 0 < i < |ms| ==> ms[i] == ms[1..][i - 1];
    }
  }

  lemma {:induction false} SafeKeyExact(k: string)
    ensures SafeKey(k) <==>
            1 <= Utf8Size(k) <= 64 && forall i :: 0 <= i < |k| ==> 0x20 <= k[i] as int < 0x7f || k[i] as int > 0x9f
  {
    Utf8SizeAtLeastLength(k);
    if SafeKey(k) {
      forall i | 0 <= i < |k| ensures 0x20 <= k[i] as int < 0x7f || k[i] as int > 0x9f {
        assert !IsControl(k[i]);
      }
    }
  }

  /** What the shape test asks for, one demand at a time: no floats, safe keys, and at most eight levels. */
  lemma {:induction false} ShapedExact(v: Value, depth: nat)
    ensures Shaped(v, depth) <==> depth + Height(v) <= 8 && FloatFree(v) && KeysSafe(v)
    decreases v
  {
    match v {
      case Arr(items) =>
        ItemsHeight(items, 8 - depth);
        forall i | 0 <= i < |items| ensures Shaped(items[i], depth + 1) <==> depth + 1 + Height(items[i]) <= 8 && FloatFree(items[i]) && KeysSafe(items[i]) {
          ShapedExact(items[i], depth + 1);
        }
      case Obj(ms) =>
        MembersHeight(ms, 8 - depth);
        forall i | 0 <= i < |ms| ensures Shaped(ms[i].value, depth + 1) <==> depth + 1 + Height(ms[i].value) <= 8 && FloatFree(ms[i].value) && KeysSafe(ms[i].value) {
          ShapedExact(ms[i].value, depth + 1);
        }
        forall i | 0 <= i < |ms| ensures SafeKey(ms[i].key) <==>
            1 <= Utf8Size(ms[i].key) <= 64 && forall k :: 0 <= k < |ms[i].key| ==> 0x20 <= ms[i].key[k] as int < 0x7f || ms[i].key[k] as int > 0x9f {
          SafeKeyExact(ms[i].key);
        }
      case _ =>
    }
  }

  function Separators(n: nat): nat {
    2 + if n == 0 then 0 else n - 1
  }

  /** What the running counter adds for one value. */
  function Cost(v: Value): nat
    decreases v, 1
  {
    match v
    case Null => 4
    case Bool(b) => if b then 4 else 5
    case Int(n) => |PrintInt(n)|
    case Float(text) => Utf8Size(text)
    case Str(s) => 2 + CharSizes(s)
    case Arr(items) => Separators(|items|) + CostOfItems(items)
    case Obj(ms) => Separators(|ms|) + CostOfMembers(ms)
  }

  function CostOfItems(items: seq<Value>): nat
    decreases items, 0
  {
    if items == [] then 0 else Cost(items[0]) + CostOfItems(items[1..])
  }

  function CostOfMembers(ms: seq<Member<Value>>): nat
    decreases ms, 0
  {
    if ms == [] then 0 else 2 + CharSizes(ms[0].key) + 1 + Cost(ms[0].value) + CostOfMembers(ms[1..])
  }

  // -------------------------------------------- the counter is the text's size

  lemma {:induction false} AsciiSize(s: string)
    requires forall i :: 0 <= i < |s| ==> s[i] as int < 0x80
    ensures Utf8Size(s) == |s|
  {
    if s != "" {
      AsciiSize(s[1..]);
    }
  }

  lemma {:induction false} EscapeSize(c: char)
    ensures Utf8Size(Escape(c)) == CharSize(c) && Utf8Len(c) <= CharSize(c)
  {
    if Escape(c) == [c] {
      assert [c][1..] == "";
      assert Utf8Size([c]) == Utf8Len(c) + Utf8Size("");
    } else {
      AsciiSize(Escape(c));
    }
  }

  lemma {:induction false} EscapeAllSize(s: string)
    ensures Utf8Size(EscapeAll(s)) == CharSizes(s) && Utf8Size(s) <= CharSizes(s)
  {
    if s != "" {
      EscapeSize(s[0]);
      EscapeAllSize(s[1..]);
      Utf8SizeConcat(Escape(s[0]), EscapeAll(s[1..]));
    }
  }

  lemma {:induction false} StringSize(s: string)
    ensures Utf8Size(PrintString(s)) == 2 + CharSizes(s)
  {
    EscapeAllSize(s);
    AsciiSize(['"']);
    Utf8SizeConcat(['"'] + EscapeAll(s), ['"']);
    Utf8SizeConcat(['"'], EscapeAll(s));
  }

  lemma {:induction false} IntSize(n: int)
    ensures Utf8Size(PrintInt(n)) == |PrintInt(n)|
  {
    AsciiSize(PrintInt(n));
  }

  function Sizes(texts: seq<string>): nat {
    if texts == [] then 0 else Utf8Size(texts[0]) + Sizes(texts[1..])
  }

  lemma {:induction false} CommasSize(texts: seq<string>)
    ensures Utf8Size(Commas(texts)) + 2 == Separators(|texts|) + Sizes(texts)
  {
    if |texts| == 1 {
      assert texts[1..] == [];
    } else if |texts| > 1 {
      CommasSize(texts[1..]);
      AsciiSize(",");
      Utf8SizeConcat(texts[0] + ",", Commas(texts[1..]));
      Utf8SizeConcat(texts[0], ",");
    }
  }

  lemma {:induction false} BracketSize(open: char, text: string, close: char)
    requires open as int < 0x80 && close as int < 0x80
    ensures Utf8Size([open] + text + [close]) == Utf8Size(text) + 2
  {
    AsciiSize([open]);
    AsciiSize([close]);
    Utf8SizeConcat([open] + text, [close]);
    Utf8SizeConcat([open], text);
  }

  function PairSizes(ps: seq<Member<string>>): nat {
    if ps == [] then 0 else 2 + CharSizes(ps[0].key) + 1 + Utf8Size(ps[0].value) + PairSizes(ps[1..])
  }

  lemma {:induction false} PairSizesInsert(p: Member<string>, ps: seq<Member<string>>)
    ensures PairSizes(Insert(p, ps, KeyLe)) == 2 + CharSizes(p.key) + 1 + Utf8Size(p.value) + PairSizes(ps)
  {
    if ps == [] || KeyLe(p, ps[0]) {
      assert ([p] + ps)[1..] == ps;
    } else {
      PairSizesInsert(p, ps[1..]);
      assert ([ps[0]] + Insert(p, ps[1..], KeyLe))[1..] == Insert(p, ps[1..], KeyLe);
    }
  }

  lemma {:induction false} PairSizesSort(ps: seq<Member<string>>)
    ensures PairSizes(Sort(ps, KeyLe)) == PairSizes(ps)
  {
    if ps != [] {
      PairSizesSort(ps[1..]);
      PairSizesInsert(ps[0], Sort(ps[1..], KeyLe));
    }
  }

  lemma {:induction false} PrintMembersSize(ps: seq<Member<string>>)
    ensures Sizes(PrintMembers(ps)) == PairSizes(ps)
  {
    if ps != [] {
      PrintMembersSize(ps[1..]);
      StringSize(ps[0].key);
      AsciiSize(":");
      Utf8SizeConcat(PrintString(ps[0].key) + ":", ps[0].value);
      Utf8SizeConcat(PrintString(ps[0].key), ":");
    }
  }

  /** The running counter of `validate` is exactly the size of the printed text. */
  lemma {:induction false} CostIsSize(v: Value)
    ensures Cost(v) == Utf8Size(Encode(v))
    decreases v, 1
  {
    match v {
      case Null => AsciiSize("null");
      case Bool(b) => AsciiSize(Encode(v));
      case Int(n) => IntSize(n);
      case Float(_) =>
      case Str(s) => StringSize(s);
      case Arr(items) =>
        ItemsSize(items);
        CommasSize(EncodeItems(items));
        BracketSize('[', Commas(EncodeItems(items)), ']');
      case Obj(ms) =>
        MembersSize(ms);
        var ps := Sort(EncodeMembers(ms), KeyLe);
        PairSizesSort(EncodeMembers(ms));
        SortMultiset(EncodeMembers(ms), KeyLe);
        PrintMembersSize(ps);
        CommasSize(PrintMembers(ps));
        BracketSize('{', Commas(PrintMembers(ps)), '}');
    }
  }

  lemma {:induction false} ItemsSize(items: seq<Value>)
    ensures CostOfItems(items) == Sizes(EncodeItems(items))
    decreases items, 0
  {
    if items != [] {
      CostIsSize(items[0]);
      ItemsSize(items[1..]);
    }
  }

  lemma {:induction false} MembersSize(ms: seq<Member<Value>>)
    ensures CostOfMembers(ms) == PairSizes(EncodeMembers(ms))
    decreases ms, 0
  {
    if ms != [] {
      CostIsSize(ms[0].value);
      MembersSize(ms[1..]);
    }
  }

  // ------------------------------------------------------------ the validator

  type Counters = Result<(nat, nat), MatrixError>

  /** `add`: the checked running total. */
  function AddBytes(bytes: nat, amount: nat): (r: Result<nat, MatrixError>)
    ensures r.Ok? <==> bytes + amount <= 32768
  {
    if bytes + amount > 32768 then Err(ByteBound) else Ok(bytes + amount)
  }

  /** Whether a value fits on top of the counters so far. */
  ghost predicate Fits(v: Value, depth: nat, nodes: nat, bytes: nat) {
    Shaped(v, depth) && nodes + Nodes(v) <= 1024 && bytes + Cost(v) <= 32768
  }

  /** Accepts exactly the values that fit, and then the counters have moved by exactly their size. */
  method VisitValue(v: Value, depth: nat, nodes: nat, bytes: nat) returns (r: Counters)
    requires bytes <= 32768
    ensures r.Ok? <==> Fits(v, depth, nodes, bytes)
    ensures r.Ok? ==> r.value == (nodes + Nodes(v), bytes + Cost(v))
    decreases v, 1
  {
    if depth > 8 || nodes + 1 > 1024 {
      return Err(DepthOrNodeBound);
    }
    match v {
      case Null => r := Leaf(nodes, bytes, 4);
      case Bool(b) => r := Leaf(nodes, bytes, if b then 4 else 5);
      case Int(n) => r := Leaf(nodes, bytes, |PrintInt(n)|);
      case Float(_) => r := Err(FloatsUnsupported);
      case Str(s) =>
        EscapeAllSize(s);
        if Utf8Size(s) > 32768 {
          return Err(StringBound);
        }
        r := Leaf(nodes, bytes, 2 + CharSizes(s));
      case Arr(items) =>
        var next := AddBytes(bytes, Separators(|items|));
        if next.Err? {
          return Err(next.error);
        }
        r := VisitItems(items, depth + 1, nodes + 1, next.value);
      case Obj(ms) =>
        var next := AddBytes(bytes, Separators(|ms|));
        if next.Err? {
          return Err(next.error);
        }
        r := VisitMembers(ms, depth + 1, nodes + 1, next.value);
    }
  }

  method Leaf(nodes: nat, bytes: nat, amount: nat) returns (r: Counters)
    ensures r.Ok? <==> bytes + amount <= 32768
    ensures r.Ok? ==> r.value == (nodes + 1, bytes + amount)
  {
    var next := AddBytes(bytes, amount);
    r := match next case Err(e) => Err(e) case Ok(b) => Ok((nodes + 1, b));
  }

  method VisitItems(items: seq<Value>, depth: nat, nodes: nat, bytes: nat) returns (r: Counters)
    requires bytes <= 32768 && nodes <= 1024
    ensures r.Ok? <==>
            && (forall i :: 0 <= i < |items| ==> Shaped(items[i], depth))
            && nodes + NodesOfItems(items) <= 1024 && bytes + CostOfItems(items) <= 32768
    ensures r.Ok? ==> r.value == (nodes + NodesOfItems(items), bytes + CostOfItems(items))
    decreases items, 0
  {
    var n: nat, b: nat := nodes, bytes;
    assert items[0..] == items;
    for i := 0 to |items|
      invariant n <= 1024 && b <= 32768
      invariant forall k :: 0 <= k < i ==> Shaped(items[k], depth)
      invariant n + NodesOfItems(items[i..]) == nodes + NodesOfItems(items)
      invariant b + CostOfItems(items[i..]) == bytes + CostOfItems(items)
    {
      assert items[i..][1..] == items[i + 1..];
      var here := VisitValue(items[i], depth, n, b);
      if here.Err? {
        return here;
      }
      n, b := here.value.0, here.value.1;
    }
    r := Ok((n, b));
  }

  method VisitMembers(ms: seq<Member<Value>>, depth: nat, nodes: nat, bytes: nat) returns (r: Counters)
    requires bytes <= 32768 && nodes <= 1024
    ensures r.Ok? <==>
            && (forall i :: 0 <= i < |ms| ==> SafeKey(ms[i].key) && Shaped(ms[i].value, depth))
            && nodes + NodesOfMembers(ms) <= 1024 && bytes + CostOfMembers(ms) <= 32768
    ensures r.Ok? ==> r.value == (nodes + NodesOfMembers(ms), bytes + CostOfMembers(ms))
    decreases ms, 0
  {
    var n: nat, b: nat := nodes, bytes;
    assert ms[0..] == ms;
    for i := 0 to |ms|
      invariant n <= 1024 && b <= 32768
      invariant forall k :: 0 <= k < i ==> SafeKey(ms[k].key) && Shaped(ms[k].value, depth)
      invariant n + NodesOfMembers(ms[i..]) == nodes + NodesOfMembers(ms)
      invariant b + CostOfMembers(ms[i..]) == bytes + CostOfMembers(ms)
    {
      assert ms[i..][1..] == ms[i + 1..];
      if !SafeKey(ms[i].key) {
        return Err(UnsafeKey);
      }
      var next := AddBytes(b, 2 + CharSizes(ms[i].key) + 1);
      if next.Err? {
        return Err(next.error);
      }
      var here := VisitValue(ms[i].value, depth, n, next.value);
      if here.Err? {
        return here;
      }
      n, b := here.value.0, here.value.1;
    }
    r := Ok((n, b));
  }

  /**
   * `ActMatrixTuple::validate` accepts exactly the tuples of at most 32 safe axes, eight levels,
   * 1024 nodes, no floats, and at most 32768 bytes of canonical JSON; it then has counted those bytes.
   */
  method Validate(axes: seq<Member<Value>>) returns (r: Result<nat, MatrixError>)
    requires WellFormed(Obj(axes))
    ensures r.Ok? <==>
            && |axes| <= 32
            && (forall i :: 0 <= i < |axes| ==> SafeKey(axes[i].key) && Shaped(axes[i].value, 1))
            && 1 + NodesOfMembers(axes) <= 1024
            && Utf8Size(CanonicalJson(axes)) <= 32768
    ensures r.Ok? ==> r.value == Utf8Size(CanonicalJson(axes))
  {
    CanonicalIsEncode(Obj(axes));
    CostIsSize(Obj(axes));
    if |axes| > 32 {
      return Err(AxisBound);
    }
    var counted := VisitMembers(axes, 1, 1, Separators(|axes|));
    r := match counted case Err(e) => Err(e) case Ok(c) => Ok(c.1);
  }

  /** A validated tuple is float-free, so its canonical JSON identifies it. */
  lemma {:induction false} ShapedIsFloatFree(v: Value, depth: nat)
    requires Shaped(v, depth)
    ensures FloatFree(v)
    decreases v
  {
    match v {
      case Arr(items) =>
        forall i | 0 <= i < |items| ensures FloatFree(items[i]) {
          ShapedIsFloatFree(items[i], depth + 1);
        }
      case Obj(ms) =>
        forall i | 0 <= i < |ms| ensures FloatFree(ms[i].value) {
          ShapedIsFloatFree(ms[i].value, depth + 1);
        }
      case _ =>
    }
  }
}
