/** A reader for the JSON the printer writes, made from the grammar of RFC 8259, and the round trip. */
module JsonReader {
  import opened Common
  import opened Order
  import opened MatrixJson

  // ------------------------------------------------------------------ the reader

  /** What the decimal digits say, place by place. */
  function NatOf(d: string): nat
    requires forall i :: 0 <= i < |d| ==> IsDigit(d[i])
  {
    if d == "" then 0
    else
      var last := d[|d| - 1];
      assert IsDigit(last);
      10 * NatOf(d[..|d| - 1]) + (last as int - '0' as int)
  }

  predicate IsHex(c: char) {
    '0' <= c <= '9' || 'a' <= c <= 'f' || 'A' <= c <= 'F'
  }

  function HexOf(c: char): (n: nat)
    requires IsHex(c)
    ensures n < 16
  {
    if '0' <= c <= '9' then c as int - '0' as int
    else if 'a' <= c <= 'f' then c as int - 'a' as int + 10
    else c as int - 'A' as int + 10
  }

  /** Section 7 of RFC 8259, the eight two-character escapes. */
  function ShortEscape(c: char): Option<char> {
    if c == '"' then Some('"')
    else if c == '\\' then Some('\\')
    else if c == '/' then Some('/')
    else if c == 'b' then Some('\U{0008}')
    else if c == 'f' then Some('\U{000C}')
    else if c == 'n' then Some('\n')
    else if c == 'r' then Some('\r')
    else if c == 't' then Some('\t')
    else None
  }

  /** `\u` and four hexadecimal digits; surrogates are not read. */
  function LongEscape(s: string): Option<char>
    requires |s| >= 6
  {
    if !(s[1] == 'u' && IsHex(s[2]) && IsHex(s[3]) && IsHex(s[4]) && IsHex(s[5])) then None
    else
      var v := ((HexOf(s[2]) * 16 + HexOf(s[3])) * 16 + HexOf(s[4])) * 16 + HexOf(s[5]);
      if v < 0xD800 then Some(v as char) else None
  }

  /** One character of a string, and how much of the text spells it. */
  function ReadChar(s: string): (r: Option<(char, nat)>)
    ensures r.Some? ==> 0 < r.value.1 <= |s|
  {
    if s == "" || s[0] == '"' || s[0] as int < 0x20 then None
    else if s[0] != '\\' then Some((s[0], 1))
    else if |s| >= 2 && ShortEscape(s[1]).Some? then Some((ShortEscape(s[1]).value, 2))
    else if |s| >= 6 && LongEscape(s).Some? then Some((LongEscape(s).value, 6))
    else None
  }

  /** The rest of a string up to its closing quote, and what follows. */
  function ReadString(s: string): (r: Option<(string, string)>)
    ensures r.Some? ==> |r.value.1| < |s|
    decreases |s|
  {
    if s != "" && s[0] == '"' then Some(("", s[1..]))
    else
      match ReadChar(s)
      case None => None
      case Some((c, n)) =>
        match ReadString(s[n..])
        case None => None
        case Some((text, rest)) => Some(([c] + text, rest))
  }

  /** A run of digits without a needless leading zero, and what follows. */
  function ReadNat(s: string): (r: Option<(nat, string)>)
    ensures r.Some? ==> |r.value.1| < |s|
  {
    var n := LeadingDigits(s);
    RunIsDigits(s);
    if n == 0 || (n > 1 && s[0] == '0') then None else Some((NatOf(s[..n]), s[n..]))
  }

  lemma {:induction false} RunIsDigits(s: string)
    ensures LeadingDigits(s) <= |s| && forall i :: 0 <= i < LeadingDigits(s) ==> IsDigit(s[i])
  {
    if s != "" && IsDigit(s[0]) {
      RunIsDigits(s[1..]);
      assert forall i :: 0 < i < LeadingDigits(s) ==> s[i] == s[1..][i - 1];
    }
  }

  function ReadInt(s: string): (r: Option<(int, string)>)
    ensures r.Some? ==> |r.value.1| < |s|
  {
    if s != "" && s[0] == '-' then
      match ReadNat(s[1..])
      case None => None
      case Some((n, rest)) => Some((-(n as int), rest))
    else
      match ReadNat(s)
      case None => None
      case Some((n, rest)) => Some((n as int, rest))
  }

  predicate Opens(s: string, c: char) {
    s != "" && s[0] == c
  }

  /** One of the three literal names. */
  function ReadName(s: string): (r: Option<(Value, string)>)
    ensures r.Some? ==> |r.value.1| < |s|
  {
    if "null" <= s then Some((Null, s[4..]))
    else if "true" <= s then Some((Bool(true), s[4..]))
    else if "false" <= s then Some((Bool(false), s[5..]))
    else None
  }

  /** One value without white space, and what follows it. */
  function ReadValue(s: string): (r: Option<(Value, string)>)
    ensures r.Some? ==> |r.value.1| < |s|
    decreases |s|, 0
  {
    if Opens(s, '"') then
      match ReadString(s[1..]) { case None => None case Some((text, rest)) => Some((Str(text), rest)) }
    else if Opens(s, '[') then
      if Opens(s[1..], ']') then Some((Arr([]), s[2..]))
      else match ReadItems(s[1..]) { case None => None case Some((items, rest)) => Some((Arr(items), rest)) }
    else if Opens(s, '{') then
      if Opens(s[1..], '}') then Some((Obj([]), s[2..]))
      else match ReadMembers(s[1..]) { case None => None case Some((ms, rest)) => Some((Obj(ms), rest)) }
    else if Opens(s, 'n') || Opens(s, 't') || Opens(s, 'f') then ReadName(s)
    else match ReadInt(s) { case None => None case Some((n, rest)) => Some((Int(n), rest)) }
  }

  /** Values between commas up to the closing bracket. */
  function ReadItems(s: string): (r: Option<(seq<Value>, string)>)
    ensures r.Some? ==> |r.value.1| < |s|
    decreases |s|, 1
  {
    match ReadValue(s)
    case None => None
    case Some((v, rest)) =>
      if Opens(rest, ']') then Some(([v], rest[1..]))
      else if Opens(rest, ',') then
        match ReadItems(rest[1..]) { case None => None case Some((items, after)) => Some(([v] + items, after)) }
      else None
  }

  function ReadMember(s: string): (r: Option<(Member<Value>, string)>)
    ensures r.Some? ==> |r.value.1| < |s|
    decreases |s|, 1
  {
    if !Opens(s, '"') then None
    else
      match ReadString(s[1..])
      case None => None
      case Some((key, rest)) =>
        if !Opens(rest, ':') then None
        else match ReadValue(rest[1..]) { case None => None case Some((v, after)) => Some((Member(key, v), after)) }
  }

  function ReadMembers(s: string): (r: Option<(seq<Member<Value>>, string)>)
    ensures r.Some? ==> |r.value.1| < |s|
    decreases |s|, 2
  {
    match ReadMember(s)
    case None => None
    case Some((m, rest)) =>
      if Opens(rest, '}') then Some(([m], rest[1..]))
      else if Opens(rest, ',') then
        match ReadMembers(rest[1..]) { case None => None case Some((ms, after)) => Some(([m] + ms, after)) }
      else None
  }

  // -------------------------------------------------------------- numbers, strings

  /** The digits of a number say the number, without a needless zero. */
  lemma {:induction false} DigitsSay(n: nat)
    ensures NatOf(Digits(n)) == n
    ensures |Digits(n)| > 1 ==> Digits(n)[0] != '0'
    ensures n > 0 ==> Digits(n)[0] != '0'
  {
    var d := Digits(n);
    if n < 10 {
      assert d[..0] == "" && NatOf("") == 0;
      assert NatOf(d) == d[0] as int - '0' as int;
    } else {
      DigitsSay(n / 10);
      assert d[..|d| - 1] == Digits(n / 10);
      assert d[0] == Digits(n / 10)[0];
    }
  }

  lemma {:induction false} NatRead(n: nat, x: string)
    requires Delimited(x)
    ensures ReadNat(Digits(n) + x) == Some((n, x))
  {
    var d := Digits(n);
    var s := d + x;
    RunLength(d, x);
    DigitsSay(n);
    assert s[..|d|] == d && s[|d|..] == x;
  }

  /** A printed integer reads back as that integer. */
  lemma {:induction false} IntRead(n: int, x: string)
    requires Delimited(x)
    ensures ReadInt(PrintInt(n) + x) == Some((n, x))
  {
    SignOf(n);
    if n < 0 {
      NatRead(-n, x);
      AfterMinus(Digits(-n), -n, x);
    } else {
      NatRead(n, x);
      WithoutMinus(Digits(n), n, x);
    }
  }

  lemma {:induction false} WithoutMinus(d: string, n: nat, x: string)
    requires d != "" && d[0] != '-' && ReadNat(d + x) == Some((n, x))
    ensures ReadInt(d + x) == Some((n as int, x))
  {
    assert (d + x)[0] == d[0];
  }

  lemma {:induction false} AfterMinus(d: string, n: nat, x: string)
    requires ReadNat(d + x) == Some((n, x))
    ensures ReadInt(['-'] + d + x) == Some((-(n as int), x))
  {
    var s := ['-'] + d + x;
    assert s[0] == '-' && s[1..] == d + x;
  }

  lemma {:induction false} HexSays(n: nat)
    requires n < 16
    ensures IsHex(HexDigit(n)) && HexOf(HexDigit(n)) == n
  {
  }

  lemma {:induction false} ControlRead(c: char, x: string)
    requires c as int <= 0x1f && |Escape(c)| == 6
    ensures ReadChar(Escape(c) + x) == Some((c, 6))
  {
    var v := c as int;
    var e := Escape(c);
    var s := e + x;
    assert s[0] == e[0] && s[1] == e[1] && s[2] == e[2] && s[3] == e[3] && s[4] == e[4] && s[5] == e[5];
    HexSays(v / 16);
    HexSays(v % 16);
    assert ShortEscape('u') == None;
    assert LongEscape(s) == Some(c);
  }

  /** An escaped character reads back as that character; hexadecimal digits are written in lower case. */
  lemma {:induction false} CharRead(c: char, x: string)
    ensures ReadChar(Escape(c) + x) == Some((c, |Escape(c)|))
    ensures forall i :: 0 <= i < |Escape(c)| && |Escape(c)| > 2 ==> !('A' <= Escape(c)[i] <= 'F')
  {
    var e := Escape(c);
    var s := e + x;
    assert s[0] == e[0];
    if |e| == 6 {
      ControlRead(c, x);
    } else if |e| == 2 {
      assert s[1] == e[1];
    }
  }

  /** An escaped text reads back as that text. */
  lemma {:induction false} TextRead(t: string, x: string)
    ensures ReadString(EscapeAll(t) + ['"'] + x) == Some((t, x))
    decreases |t|
  {
    var s := EscapeAll(t) + ['"'] + x;
    EscapedStart(t, x);
    if t == "" {
      assert s == ['"'] + x && s[1..] == x;
    } else {
      var rest := EscapeAll(t[1..]) + ['"'] + x;
      EscapedNext(t, x);
      CharRead(t[0], rest);
      TextRead(t[1..], x);
      NextChar(Escape(t[0]), rest, t[0], t[1..], x);
      assert [t[0]] + t[1..] == t;
    }
  }

  lemma {:induction false} NextChar(e: string, rest: string, c: char, t: string, x: string)
    requires e != "" && e[0] != '"' && ReadChar(e + rest) == Some((c, |e|)) && ReadString(rest) == Some((t, x))
    ensures ReadString(e + rest) == Some(([c] + t, x))
  {
    assert (e + rest)[|e|..] == rest && (e + rest)[0] == e[0];
  }

  lemma {:induction false} StringRead(t: string, x: string)
    ensures Opens(PrintString(t) + x, '"') && ReadString((PrintString(t) + x)[1..]) == Some((t, x))
  {
    assert (PrintString(t) + x)[1..] == EscapeAll(t) + ['"'] + x;
    TextRead(t, x);
  }

  // ------------------------------------------------------------------- the round trip

  /** Object members in ascending key order, at every depth. */
  ghost predicate InOrder(v: Value) {
    match v
    case Arr(items) => forall i :: 0 <= i < |items| ==> InOrder(items[i])
    case Obj(ms) =>
      && (forall i, j :: 0 <= i < j < |ms| ==> StrLe(ms[i].key, ms[j].key) && ms[i].key != ms[j].key)
      && forall i :: 0 <= i < |ms| ==> InOrder(ms[i].value)
    case _ => true
  }

  /** This text reads as this value, whatever may follow a value. */
  ghost predicate Spells(text: string, v: Value) {
    forall y :: Delimited(y) ==> ReadValue(text + y) == Some((v, y))
  }

  ghost predicate AllSpell(texts: seq<string>, items: seq<Value>) {
    |texts| == |items| && forall i :: 0 <= i < |items| ==> Spells(texts[i], items[i])
  }

  /** The last value of a list. */
  lemma {:induction false} LastItem(text: string, v: Value, x: string)
    requires Spells(text, v)
    ensures ReadItems(text + ("]" + x)) == Some(([v], x))
  {
    assert Delimited("]" + x) && ("]" + x)[1..] == x;
  }

  /** A value with more to come. */
  lemma {:induction false} NextItem(text: string, v: Value, rest: string, items: seq<Value>, x: string)
    requires Spells(text, v) && ReadItems(rest) == Some((items, x))
    ensures ReadItems(text + ("," + rest)) == Some(([v] + items, x))
  {
    assert Delimited("," + rest) && ("," + rest)[1..] == rest;
  }

  lemma {:induction false} ItemsTail(texts: seq<string>, items: seq<Value>)
    requires items != [] && AllSpell(texts, items)
    ensures Spells(texts[0], items[0]) && AllSpell(texts[1..], items[1..])
  {
  }

  lemma {:induction false} ItemsStep(texts: seq<string>, first: Value, items: seq<Value>, x: string)
    requires |texts| > 1 && Spells(texts[0], first) && ReadItems(Commas(texts[1..]) + "]" + x) == Some((items, x))
    ensures ReadItems(Commas(texts) + "]" + x) == Some(([first] + items, x))
  {
    CommasBegin(texts, "]", x);
    NextItem(texts[0], first, Commas(texts[1..]) + "]" + x, items, x);
  }

  lemma {:induction false} ItemsJoin(texts: seq<string>, items: seq<Value>, x: string)
    requires items != [] && AllSpell(texts, items)
    ensures ReadItems(Commas(texts) + "]" + x) == Some((items, x))
    decreases |items|
  {
    ItemsTail(texts, items);
    if |items| == 1 {
      CommasBegin(texts, "]", x);
      LastItem(texts[0], items[0], x);
      assert items == [items[0]];
    } else {
      ItemsJoin(texts[1..], items[1..], x);
      ItemsStep(texts, items[0], items[1..], x);
      assert [items[0]] + items[1..] == items;
    }
  }

  lemma {:induction false} ItemsRead(items: seq<Value>, x: string)
    requires items != [] && forall i :: 0 <= i < |items| ==> InOrder(items[i]) && FloatFree(items[i])
    ensures ReadItems(Commas(EncodeItems(items)) + "]" + x) == Some((items, x))
    decreases items, 0
  {
    forall i, y | 0 <= i < |items| && Delimited(y) ensures ReadValue(EncodeItems(items)[i] + y) == Some((items[i], y)) {
      ValueRead(items[i], y);
    }
    ItemsJoin(EncodeItems(items), items, x);
  }

  /** A list in commas begins with its first text. */
  lemma {:induction false} CommasBegin(texts: seq<string>, close: string, x: string)
    requires texts != []
    ensures |texts| == 1 ==> Commas(texts) + close + x == texts[0] + (close + x)
    ensures |texts| > 1 ==> Commas(texts) + close + x == texts[0] + ("," + (Commas(texts[1..]) + close + x))
  {
    if |texts| > 1 {
      Grouped(texts[0], Commas(texts[1..]), close, x);
    }
  }

  lemma {:induction false} Grouped(a: string, b: string, close: string, x: string)
    ensures a + "," + b + close + x == a + ("," + (b + close + x))
  {
  }

  /** Keys and values already in order are printed in that order. */
  lemma {:induction false} MembersInOrder(ms: seq<Member<Value>>)
    requires InOrder(Obj(ms))
    ensures Sort(EncodeMembers(ms), KeyLe) == EncodeMembers(ms)
  {
    SortedStays(EncodeMembers(ms));
  }

  lemma {:induction false} SortedStays(ps: seq<Member<string>>)
    requires forall i, j :: 0 <= i < j < |ps| ==> StrLe(ps[i].key, ps[j].key)
    ensures Sort(ps, KeyLe) == ps
  {
    if ps != [] {
      var rest := ps[1..];
      assert forall i :: 0 <= i < |rest| ==> rest[i] == ps[i + 1];
      SortedStays(rest);
      assert rest != [] ==> KeyLe(ps[0], rest[0]);
      assert [ps[0]] + rest == ps;
    }
  }

  lemma {:induction false} MemberParts(s: string, key: string, text: string, v: Value, x: string)
    requires Opens(s, '"') && ReadString(s[1..]) == Some((key, ":" + text)) && ReadValue(text) == Some((v, x))
    ensures ReadMember(s) == Some((Member(key, v), x))
  {
    assert (":" + text)[1..] == text;
  }

  lemma {:induction false} MemberRead(m: Member<Value>, x: string)
    requires InOrder(m.value) && FloatFree(m.value) && Delimited(x)
    ensures ReadMember(PrintString(m.key) + ":" + Encode(m.value) + x) == Some((m, x))
    decreases m, 2
  {
    var text := Encode(m.value) + x;
    var s := PrintString(m.key) + ":" + Encode(m.value) + x;
    assert s == PrintString(m.key) + (":" + text);
    StringRead(m.key, ":" + text);
    ValueRead(m.value, x);
    MemberParts(s, m.key, text, m.value, x);
  }

  ghost predicate SpellsMember(text: string, m: Member<Value>) {
    forall y :: Delimited(y) ==> ReadMember(text + y) == Some((m, y))
  }

  ghost predicate AllSpellMembers(texts: seq<string>, ms: seq<Member<Value>>) {
    |texts| == |ms| && forall i :: 0 <= i < |ms| ==> SpellsMember(texts[i], ms[i])
  }

  lemma {:induction false} LastMember(text: string, m: Member<Value>, x: string)
    requires SpellsMember(text, m)
    ensures ReadMembers(text + ("}" + x)) == Some(([m], x))
  {
    assert Delimited("}" + x) && ("}" + x)[1..] == x;
  }

  lemma {:induction false} NextMember(text: string, m: Member<Value>, rest: string, ms: seq<Member<Value>>, x: string)
    requires SpellsMember(text, m) && ReadMembers(rest) == Some((ms, x))
    ensures ReadMembers(text + ("," + rest)) == Some(([m] + ms, x))
  {
    assert Delimited("," + rest) && ("," + rest)[1..] == rest;
  }

  lemma {:induction false} MembersTail(texts: seq<string>, ms: seq<Member<Value>>)
    requires ms != [] && AllSpellMembers(texts, ms)
    ensures SpellsMember(texts[0], ms[0]) && AllSpellMembers(texts[1..], ms[1..])
  {
  }

  lemma {:induction false} MembersStep(texts: seq<string>, first: Member<Value>, ms: seq<Member<Value>>, x: string)
    requires |texts| > 1 && SpellsMember(texts[0], first) && ReadMembers(Commas(texts[1..]) + "}" + x) == Some((ms, x))
    ensures ReadMembers(Commas(texts) + "}" + x) == Some(([first] + ms, x))
  {
    CommasBegin(texts, "}", x);
    NextMember(texts[0], first, Commas(texts[1..]) + "}" + x, ms, x);
  }

  lemma {:induction false} MembersJoin(texts: seq<string>, ms: seq<Member<Value>>, x: string)
    requires ms != [] && AllSpellMembers(texts, ms)
    ensures ReadMembers(Commas(texts) + "}" + x) == Some((ms, x))
    decreases |ms|
  {
    MembersTail(texts, ms);
    if |ms| == 1 {
      CommasBegin(texts, "}", x);
      LastMember(texts[0], ms[0], x);
      assert ms == [ms[0]];
    } else {
      MembersJoin(texts[1..], ms[1..], x);
      MembersStep(texts, ms[0], ms[1..], x);
      assert [ms[0]] + ms[1..] == ms;
    }
  }

  lemma {:induction false} MembersRead(ms: seq<Member<Value>>, x: string)
    requires ms != [] && forall i :: 0 <= i < |ms| ==> InOrder(ms[i].value) && FloatFree(ms[i].value)
    ensures ReadMembers(Commas(PrintMembers(EncodeMembers(ms))) + "}" + x) == Some((ms, x))
    decreases ms, 0
  {
    var texts := PrintMembers(EncodeMembers(ms));
    forall i, y | 0 <= i < |ms| && Delimited(y) ensures ReadMember(texts[i] + y) == Some((ms[i], y)) {
      MemberRead(ms[i], y);
    }
    MembersJoin(texts, ms, x);
  }

  /** A value in key order reads back as itself, whatever follows it. */
  lemma {:induction false} ValueRead(v: Value, x: string)
    requires InOrder(v) && FloatFree(v) && Delimited(x)
    ensures ReadValue(Encode(v) + x) == Some((v, x))
    decreases v, 1
  {
    var s := Encode(v) + x;
    LeadOf(v);
    assert s[0] == Lead(v);
    match v {
      case Null => assert s[4..] == x;
      case Bool(b) => assert s[if b then 4 else 5..] == x;
      case Int(n) => NumberRead(n, x);
      case Str(t) => StringRead(t, x);
      case Arr(items) => ArrayRead(items, x);
      case Obj(ms) => ObjectRead(ms, x);
    }
  }

  lemma {:induction false} NumberRead(n: int, x: string)
    requires Delimited(x)
    ensures ReadValue(PrintInt(n) + x) == Some((Int(n), x))
  {
    SignOf(n);
    var s := PrintInt(n) + x;
    assert s[0] == PrintInt(n)[0];
    assert s[0] == '-' || IsDigit(s[0]);
    IntRead(n, x);
  }

  lemma {:induction false} ArrayRead(items: seq<Value>, x: string)
    requires forall i :: 0 <= i < |items| ==> InOrder(items[i]) && FloatFree(items[i])
    ensures ReadValue("[" + Commas(EncodeItems(items)) + "]" + x) == Some((Arr(items), x))
    decreases items, 1
  {
    var texts := EncodeItems(items);
    if items == [] {
      var s := "[" + Commas(texts) + "]" + x;
      assert s == "[]" + x && s[2..] == x;
    } else {
      LeadOf(items[0]);
      Bracketed(texts, x);
      ItemsRead(items, x);
    }
  }

  lemma {:induction false} Bracketed(texts: seq<string>, x: string)
    requires texts != [] && texts[0] != "" && texts[0][0] != ']'
    ensures var inner := Commas(texts) + "]" + x;
            ReadValue("[" + Commas(texts) + "]" + x) ==
            match ReadItems(inner) { case None => None case Some((items, rest)) => Some((Arr(items), rest)) }
  {
    var inner := Commas(texts) + "]" + x;
    var s := "[" + Commas(texts) + "]" + x;
    assert s == "[" + inner && s[1..] == inner;
    assert inner[0] == texts[0][0];
    assert s[0] == '[' && s[1] == inner[0];
  }

  lemma {:induction false} ObjectRead(ms: seq<Member<Value>>, x: string)
    requires InOrder(Obj(ms)) && FloatFree(Obj(ms))
    ensures ReadValue(Encode(Obj(ms)) + x) == Some((Obj(ms), x))
    decreases ms, 1
  {
    MembersInOrder(ms);
    var texts := PrintMembers(EncodeMembers(ms));
    if ms == [] {
      var s := Encode(Obj(ms)) + x;
      assert s == "{}" + x && s[2..] == x;
    } else {
      assert texts[0][0] == '"';
      Braced(texts, x);
      MembersRead(ms, x);
      assert Encode(Obj(ms)) + x == "{" + Commas(texts) + "}" + x;
    }
  }

  lemma {:induction false} Braced(texts: seq<string>, x: string)
    requires texts != [] && texts[0] != "" && texts[0][0] == '"'
    ensures var inner := Commas(texts) + "}" + x;
            ReadValue("{" + Commas(texts) + "}" + x) ==
            match ReadMembers(inner) { case None => None case Some((ms, rest)) => Some((Obj(ms), rest)) }
  {
    var inner := Commas(texts) + "}" + x;
    var s := "{" + Commas(texts) + "}" + x;
    assert s == "{" + inner && s[1..] == inner;
    assert inner[0] == texts[0][0];
    assert s[0] == '{' && s[1] == inner[0];
  }

  lemma {:induction false} CanonicalInOrder(v: Value)
    requires WellFormed(v) && FloatFree(v)
    ensures InOrder(Canonical(v)) && FloatFree(Canonical(v))
    decreases v
  {
    match v {
      case Arr(items) =>
        forall i | 0 <= i < |items| ensures InOrder(Canonical(items[i])) && FloatFree(Canonical(items[i])) {
          CanonicalInOrder(items[i]);
        }
      case Obj(ms) =>
        var c := CanonicalMembers(ms);
        var sorted := Sort(c, KeyLe);
        forall i | 0 <= i < |ms| ensures InOrder(c[i].value) && FloatFree(c[i].value) {
          CanonicalInOrder(ms[i].value);
        }
        assert DistinctKeys(c);
        SortKeepsKeys(c);
        KeyOrder(c);
        SortSorted(c, KeyLe);
        SortMembers(c, KeyLe);
        forall i | 0 <= i < |sorted| ensures InOrder(sorted[i].value) && FloatFree(sorted[i].value) {
          assert sorted[i] in sorted;
          assert sorted[i] in c;
        }
        assert forall i, j :: 0 <= i < j < |sorted| ==> KeyLe(sorted[i], sorted[j]);
      case _ =>
    }
  }

  /** What is printed denotes the value: it reads back as the same value, with keys in order at every depth. */
  lemma {:induction false} EncodeSays(v: Value, x: string)
    requires WellFormed(v) && FloatFree(v) && Delimited(x)
    ensures ReadValue(Encode(v) + x) == Some((Canonical(v), x))
    ensures Equiv(v, Canonical(v)) && InOrder(Canonical(v))
  {
    CanonicalIsEncode(v);
    CanonicalKeeps(v);
    CanonicalInOrder(v);
    ValueRead(Canonical(v), x);
  }

  /** Reading the canonical JSON of a tuple gives its axes back, and nothing else. */
  lemma {:induction false} CanonicalJsonSays(axes: seq<Member<Value>>) returns (w: Value)
    requires WellFormed(Obj(axes)) && FloatFree(Obj(axes))
    ensures ReadValue(CanonicalJson(axes)) == Some((w, "")) && Equiv(Obj(axes), w) && InOrder(w)
  {
    var v := Obj(axes);
    w := Canonical(v);
    CanonicalKeeps(v);
    CanonicalInOrder(v);
    ValueRead(w, "");
    assert Encode(w) + "" == Encode(w);
  }
}
