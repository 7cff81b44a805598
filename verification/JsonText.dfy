/** JSON text: the plain printer, and a parser for the grammar of RFC 8259.

    `Print` is the reference against which the bounded encoder of the sandbox is
    proved (module BoundedJson).  `Parse` follows sections 2 to 7 of RFC 8259, with
    number tokens kept as text, and undoes `Print` on every tree. */
module JsonText {
  import opened Options

  /** A finite JSON value.  Numbers are opaque tokens; objects keep member order. */
  datatype Json =
    | JNull
    | JBool(b: bool)
    | JNum(token: string)
    | JStr(s: string)
    | JArr(elems: seq<Json>)
    | JObj(members: seq<Member>)

  datatype Member = Member(key: string, value: Json)

  /** The result of reading one construct: a value and the text after it. */
  datatype Read<+T> = Bad | Got(value: T, rest: string)

  // ---------------------------------------------------------------- numbers

  predicate Digit(c: char) { '0' <= c <= '9' }

  predicate NumberChar(c: char) { Digit(c) || c in "+-.eE" }

  function DropDigits(s: string): (r: string)
    ensures |r| <= |s|
  {
    if s != "" && Digit(s[0]) then DropDigits(s[1..]) else s
  }

  function AfterInt(s: string): Option<string> {
    var t := if s != "" && s[0] == '-' then s[1..] else s;
    if t == "" || !Digit(t[0]) then None
    else if t[0] == '0' then Some(t[1..])
    else Some(DropDigits(t))
  }

  function AfterFraction(s: string): Option<string> {
    if s == "" || s[0] != '.' then Some(s)
    else if |s| > 1 && Digit(s[1]) then Some(DropDigits(s[1..]))
    else None
  }

  function AfterExponent(s: string): Option<string> {
    if s == "" || s[0] !in "eE" then Some(s)
    else
      var t := if |s| > 1 && s[1] in "+-" then s[2..] else s[1..];
      if t != "" && Digit(t[0]) then Some(DropDigits(t)) else None
  }

  /** Section 6 of RFC 8259: an optional minus, an integer part, then an optional
      fraction and an optional exponent, and nothing after them. */
  predicate ValidNumber(t: string) {
    && (forall c | c in t :: NumberChar(c))
    && AfterInt(t).Some?
    && AfterFraction(AfterInt(t).value).Some?
    && AfterExponent(AfterFraction(AfterInt(t).value).value) == Some("")
  }

  /** Every number token in the tree is a JSON number. */
  predicate WellFormed(j: Json) {
    match j
    case JNum(t) => ValidNumber(t)
    case JArr(es) => forall i | 0 <= i < |es| :: WellFormed(es[i])
    case JObj(ms) => forall i | 0 <= i < |ms| :: WellFormed(ms[i].value)
    case _ => true
  }

  /** A member by name; as in JavaScript, the last one of a name counts. */
  function Lookup(ms: seq<Member>, key: string): Option<Json> {
    if ms == [] then None
    else if ms[|ms| - 1].key == key then Some(ms[|ms| - 1].value)
    else Lookup(ms[..|ms| - 1], key)
  }

  // ---------------------------------------------------------------- printing

  function HexDigit(n: nat): char
    requires n < 16
  {
    "0123456789abcdef"[n]
  }

  /** One character inside quotes: the short escapes, \u00xx for the other control
      characters, everything else as itself. */
  function EscapeChar(c: char): string {
    if c == '\"' then "\\\""
    else if c == '\\' then "\\\\"
    else if c == '\U{0008}' then "\\b"
    else if c == '\U{000C}' then "\\f"
    else if c == '\n' then "\\n"
    else if c == '\r' then "\\r"
    else if c == '\t' then "\\t"
    else if c as int < 0x20 then "\\u00" + [HexDigit(c as int / 16), HexDigit(c as int % 16)]
    else [c]
  }

  function Escape(s: string): string {
    if s == "" then "" else EscapeChar(s[0]) + Escape(s[1..])
  }

  function Quote(s: string): string { "\"" + Escape(s) + "\"" }

  /** The plain, unbounded recursive print: no white space, members in order. */
  function Print(j: Json): string
    decreases j, 0
  {
    match j
    case JNull => "null"
    case JBool(b) => if b then "true" else "false"
    case JNum(t) => t
    case JStr(s) => Quote(s)
    case JArr(es) => "[" + PrintElems(es) + "]"
    case JObj(ms) => "{" + PrintMembers(ms) + "}"
  }

  function PrintElems(es: seq<Json>): string
    decreases es, 0
  {
    if es == [] then ""
    else if |es| == 1 then Print(es[0])
    else Print(es[0]) + "," + PrintElems(es[1..])
  }

  function PrintMembers(ms: seq<Member>): string
    decreases ms, 0
  {
    if ms == [] then ""
    else if |ms| == 1 then PrintMember(ms[0])
    else PrintMember(ms[0]) + "," + PrintMembers(ms[1..])
  }

  function PrintMember(m: Member): string
    decreases m, 1
  {
    Quote(m.key) + ":" + Print(m.value)
  }

  // ---------------------------------------------------------------- parsing

  predicate Space(c: char) { c == ' ' || c == '\t' || c == '\n' || c == '\r' }

  function SkipSpace(s: string): (r: string)
    ensures |r| <= |s|
  {
    if s != "" && Space(s[0]) then SkipSpace(s[1..]) else s
  }

  function HexValue(c: char): int {
    if '0' <= c <= '9' then c as int - '0' as int
    else if 'a' <= c <= 'f' then c as int - 'a' as int + 10
    else if 'A' <= c <= 'F' then c as int - 'A' as int + 10
    else -1
  }

  /** Four hexadecimal digits, or -1. */
  function Hex4(s: string): (n: int)
    ensures -1 <= n < 0x10000
    ensures n >= 0 ==> |s| >= 4
  {
    if |s| < 4 then -1
    else
      var a, b, c, d := HexValue(s[0]), HexValue(s[1]), HexValue(s[2]), HexValue(s[3]);
      if a < 0 || b < 0 || c < 0 || d < 0 then -1 else 4096 * a + 256 * b + 16 * c + d
  }

  /** The escape after a backslash (section 7).  A surrogate that is not half of a
      pair has no scalar value and is refused here. */
  function ReadEscape(s: string): (r: Read<char>)
    ensures r.Got? ==> |r.rest| < |s|
  {
    if s == "" then Bad
    else if s[0] in "\"\\/" then Got(s[0], s[1..])
    else if s[0] == 'b' then Got('\U{0008}', s[1..])
    else if s[0] == 'f' then Got('\U{000C}', s[1..])
    else if s[0] == 'n' then Got('\n', s[1..])
    else if s[0] == 'r' then Got('\r', s[1..])
    else if s[0] == 't' then Got('\t', s[1..])
    else if s[0] != 'u' then Bad
    else
      var n := Hex4(s[1..]);
      if n < 0 then Bad
      else if n < 0xD800 || n >= 0xE000 then Got(n as char, s[5..])
      else if n < 0xDC00 && |s| > 7 && s[5] == '\\' && s[6] == 'u' then
        var m := Hex4(s[7..]);
        if 0xDC00 <= m < 0xE000 then
          Got((0x10000 + (n - 0xD800) * 0x400 + (m - 0xDC00)) as char, s[11..])
        else Bad
      else Bad
  }

  /** The characters of a string up to its closing quote. */
  function ReadChars(s: string): (r: Read<string>)
    ensures r.Got? ==> |r.rest| < |s|
    decreases |s|
  {
    if s == "" then Bad
    else if s[0] == '\"' then Got("", s[1..])
    else if s[0] == '\\' then
      (match ReadEscape(s[1..])
       case Bad => Bad
       case Got(c, rest) =>
         match ReadChars(rest)
         case Bad => Bad
         case Got(cs, end) => Got([c] + cs, end))
    else if s[0] as int < 0x20 then Bad
    else
      match ReadChars(s[1..])
      case Bad => Bad
      case Got(cs, end) => Got([s[0]] + cs, end)
  }

  function NumberPrefix(s: string): (n: nat)
    ensures n <= |s|
    ensures forall i | 0 <= i < n :: NumberChar(s[i])
    ensures n < |s| ==> !NumberChar(s[n])
  {
    if s != "" && NumberChar(s[0]) then 1 + NumberPrefix(s[1..]) else 0
  }

  function ReadWord(s: string, word: string, j: Json): (r: Read<Json>)
    requires word != ""
    ensures r.Got? ==> |r.rest| < |s|
  {
    if word <= s then Got(j, s[|word|..]) else Bad
  }

  function ReadValue(s0: string): (r: Read<Json>)
    ensures r.Got? ==> |r.rest| < |s0|
    decreases |s0|, 1
  {
    var s := SkipSpace(s0);
    if s == "" then Bad
    else if s[0] == 'n' then ReadWord(s, "null", JNull)
    else if s[0] == 't' then ReadWord(s, "true", JBool(true))
    else if s[0] == 'f' then ReadWord(s, "false", JBool(false))
    else if s[0] == '\"' then
      (match ReadChars(s[1..])
       case Bad => Bad
       case Got(cs, rest) => Got(JStr(cs), rest))
    else if s[0] == '[' then
      var t := SkipSpace(s[1..]);
      if t != "" && t[0] == ']' then Got(JArr([]), t[1..])
      else
        (match ReadElems(t)
         case Bad => Bad
         case Got(es, rest) => Got(JArr(es), rest))
    else if s[0] == '{' then
      var t := SkipSpace(s[1..]);
      if t != "" && t[0] == '}' then Got(JObj([]), t[1..])
      else
        (match ReadMembers(t)
         case Bad => Bad
         case Got(ms, rest) => Got(JObj(ms), rest))
    else
      var n := NumberPrefix(s);
      if n > 0 && ValidNumber(s[..n]) then Got(JNum(s[..n]), s[n..]) else Bad
  }

  /** One or more elements and the closing bracket. */
  function ReadElems(s: string): (r: Read<seq<Json>>)
    ensures r.Got? ==> |r.rest| < |s|
    decreases |s|, 2
  {
    match ReadValue(s)
    case Bad => Bad
    case Got(e, rest) =>
      var t := SkipSpace(rest);
      if t == "" then Bad
      else if t[0] == ']' then Got([e], t[1..])
      else if t[0] != ',' then Bad
      else
        match ReadElems(t[1..])
        case Bad => Bad
        case Got(es, end) => Got([e] + es, end)
  }

  function ReadMember(s0: string): (r: Read<Member>)
    ensures r.Got? ==> |r.rest| < |s0|
    decreases |s0|, 2
  {
    var s := SkipSpace(s0);
    if s == "" || s[0] != '\"' then Bad
    else
      match ReadChars(s[1..])
      case Bad => Bad
      case Got(key, rest) =>
        var t := SkipSpace(rest);
        if t == "" || t[0] != ':' then Bad
        else
          match ReadValue(t[1..])
          case Bad => Bad
          case Got(v, end) => Got(Member(key, v), end)
  }

  /** One or more members and the closing brace. */
  function ReadMembers(s: string): (r: Read<seq<Member>>)
    ensures r.Got? ==> |r.rest| < |s|
    decreases |s|, 3
  {
    match ReadMember(s)
    case Bad => Bad
    case Got(m, rest) =>
      var t := SkipSpace(rest);
      if t == "" then Bad
      else if t[0] == '}' then Got([m], t[1..])
      else if t[0] != ',' then Bad
      else
        match ReadMembers(t[1..])
        case Bad => Bad
        case Got(ms, end) => Got([m] + ms, end)
  }

  /** A whole JSON text: one value, and only white space after it. */
  function Parse(s: string): Option<Json> {
    match ReadValue(s)
    case Bad => None
    case Got(j, rest) => if SkipSpace(rest) == "" then Some(j) else None
  }

  // ---------------------------------------------------------------- Parse undoes Print

  lemma HexRoundTrip(n: nat)
    requires n < 16
    ensures HexValue(HexDigit(n)) == n
  {
  }

  lemma ReadControl(c: char, rest: string)
    requires c as int < 0x20
    ensures ReadEscape("u00" + [HexDigit(c as int / 16), HexDigit(c as int % 16)] + rest) == Got(c, rest)
  {
    assert HexDigit(0) == '0';
    hide HexValue, HexDigit;
    var n := c as int;
    var e := "u00" + [HexDigit(n / 16), HexDigit(n % 16)] + rest;
    HexRoundTrip(0);
    HexRoundTrip(n / 16);
    HexRoundTrip(n % 16);
    assert e[1..] == ['0', '0', HexDigit(n / 16), HexDigit(n % 16)] + rest;
    assert Hex4(e[1..]) == 16 * (n / 16) + n % 16;
    assert e[5..] == rest;
  }

  lemma ReadEscapeChar(c: char, rest: string)
    requires |EscapeChar(c)| > 1
    ensures EscapeChar(c)[0] == '\\'
    ensures ReadEscape(EscapeChar(c)[1..] + rest) == Got(c, rest)
  {
    hide Hex4, HexDigit;
    var e := EscapeChar(c)[1..] + rest;
    if e[0] == 'u' {
      ReadControl(c, rest);
      assert EscapeChar(c)[1..] == "u00" + [HexDigit(c as int / 16), HexDigit(c as int % 16)];
    } else {
      assert e[1..] == rest;
    }
  }

  lemma PlainChar(c: char)
    ensures EscapeChar(c) != ""
    ensures |EscapeChar(c)| == 1 ==> EscapeChar(c) == [c] && c != '\"' && c != '\\' && c as int >= 0x20
  {
  }

  lemma {:induction false} ReadQuoted(s: string, rest: string)
    ensures ReadChars(Escape(s) + "\"" + rest) == Got(s, rest)
  {
    hide EscapeChar, ReadEscape;
    var text := Escape(s) + "\"" + rest;
    if s == "" {
      assert text[1..] == rest;
    } else {
      var e, tail := EscapeChar(s[0]), Escape(s[1..]) + "\"" + rest;
      ReadQuoted(s[1..], rest);
      assert text == e + tail;
      assert [s[0]] + s[1..] == s;
      PlainChar(s[0]);
      if |e| > 1 {
        ReadEscapeChar(s[0], tail);
        assert text[1..] == e[1..] + tail;
      } else {
        assert text[1..] == tail;
      }
    }
  }

  predicate Delimited(rest: string) { rest == "" || !NumberChar(rest[0]) }

  lemma {:induction false} NumberPrefixOf(t: string, rest: string)
    requires forall c | c in t :: NumberChar(c)
    requires Delimited(rest)
    ensures NumberPrefix(t + rest) == |t|
  {
    if t != "" {
      assert (t + rest)[1..] == t[1..] + rest;
      NumberPrefixOf(t[1..], rest);
    } else {
      assert t + rest == rest;
    }
  }

  lemma PrintStart(j: Json)
    requires WellFormed(j)
    ensures Print(j) != "" && !Space(Print(j)[0]) && Print(j)[0] !in ",:]}"
  {
    if j.JNum? { assert j.token[0] == '-' || Digit(j.token[0]); }
  }

  lemma ReadLiteral(s: string)
    requires s != "" && !Space(s[0]) && s[0] in "ntf"
    ensures ReadValue(s) == if s[0] == 'n' then ReadWord(s, "null", JNull)
                            else if s[0] == 't' then ReadWord(s, "true", JBool(true))
                            else ReadWord(s, "false", JBool(false))
  {
  }

  lemma ReadNumber(t: string, rest: string)
    requires ValidNumber(t) && Delimited(rest)
    ensures ReadValue(t + rest) == Got(JNum(t), rest)
  {
    var s := t + rest;
    assert t[0] == '-' || Digit(t[0]);
    NumberPrefixOf(t, rest);
    assert s[..|t|] == t && s[|t|..] == rest;
    assert SkipSpace(s) == s;
  }

  lemma ReadString(x: string, rest: string)
    ensures ReadValue(Quote(x) + rest) == Got(JStr(x), rest)
  {
    var s := Quote(x) + rest;
    ReadQuoted(x, rest);
    assert s[1..] == Escape(x) + "\"" + rest;
    assert SkipSpace(s) == s;
  }

  lemma ReadArray(t: string)
    requires t != "" && !Space(t[0])
    ensures ReadValue("[" + t) ==
      if t[0] == ']' then Got(JArr([]), t[1..])
      else match ReadElems(t) case Bad => Bad case Got(es, rest) => Got(JArr(es), rest)
  {
    var s := "[" + t;
    assert s[1..] == t;
    assert SkipSpace(s) == s && SkipSpace(t) == t;
  }

  lemma ReadObject(t: string)
    requires t != "" && !Space(t[0])
    ensures ReadValue("{" + t) ==
      if t[0] == '}' then Got(JObj([]), t[1..])
      else match ReadMembers(t) case Bad => Bad case Got(ms, rest) => Got(JObj(ms), rest)
  {
    var s := "{" + t;
    assert s[1..] == t;
    assert SkipSpace(s) == s && SkipSpace(t) == t;
  }

  /** How a list of elements continues after its first one. */
  lemma ReadElemsStep(s: string, e: Json, c: char, tail: string)
    requires ReadValue(s) == Got(e, [c] + tail) && c in ",]"
    ensures ReadElems(s) ==
      if c == ']' then Got([e], tail)
      else match ReadElems(tail) case Bad => Bad case Got(es, rest) => Got([e] + es, rest)
  {
    var t := [c] + tail;
    assert SkipSpace(t) == t && t[1..] == tail;
  }

  lemma ReadMembersStep(s: string, m: Member, c: char, tail: string)
    requires ReadMember(s) == Got(m, [c] + tail) && c in ",}"
    ensures ReadMembers(s) ==
      if c == '}' then Got([m], tail)
      else match ReadMembers(tail) case Bad => Bad case Got(ms, rest) => Got([m] + ms, rest)
  {
    var t := [c] + tail;
    assert SkipSpace(t) == t && t[1..] == tail;
  }

  lemma ReadMemberStep(key: string, after: string)
    ensures ReadMember(Quote(key) + ":" + after) ==
      match ReadValue(after) case Bad => Bad case Got(v, rest) => Got(Member(key, v), rest)
  {
    var s, t := Quote(key) + ":" + after, ":" + after;
    assert s[1..] == Escape(key) + "\"" + t;
    ReadQuoted(key, t);
    assert t[1..] == after;
    assert SkipSpace(s) == s && SkipSpace(t) == t;
  }

  /** Reading a printed value gives the value back and stops exactly after it. */
  lemma {:induction false} ReadPrinted(j: Json, rest: string)
    requires WellFormed(j) && Delimited(rest)
    ensures ReadValue(Print(j) + rest) == Got(j, rest)
    decreases j, 0
  {
    hide ReadValue, ReadElems, ReadMembers, SkipSpace, Escape, ValidNumber;
    var s := Print(j) + rest;
    match j
    case JNull =>
      ReadLiteral(s);
      assert s[4..] == rest;
    case JBool(b) =>
      ReadLiteral(s);
      assert s[if b then 4 else 5..] == rest;
    case JNum(t) => ReadNumber(t, rest);
    case JStr(x) => ReadString(x, rest);
    case JArr(es) =>
      var t := PrintElems(es) + "]" + rest;
      assert s == "[" + t;
      if es == [] {
        assert t == "]" + rest && t[1..] == rest;
      } else {
        PrintStart(es[0]);
        assert t[0] == Print(es[0])[0];
        ReadPrintedElems(es, rest);
      }
      ReadArray(t);
    case JObj(ms) =>
      var t := PrintMembers(ms) + "}" + rest;
      assert s == "{" + t;
      if ms == [] {
        assert t == "}" + rest && t[1..] == rest;
      } else {
        MembersText(ms, rest);
        ReadPrintedMembers(ms, rest);
      }
      ReadObject(t);
  }

  lemma {:induction false} ReadPrintedElems(es: seq<Json>, rest: string)
    requires es != [] && forall i | 0 <= i < |es| :: WellFormed(es[i])
    ensures ReadElems(PrintElems(es) + "]" + rest) == Got(es, rest)
    decreases es, 0
  {
    hide ReadValue, ReadElems, SkipSpace, Print, WellFormed;
    var s := PrintElems(es) + "]" + rest;
    var last := |es| == 1;
    var tail := if last then rest else PrintElems(es[1..]) + "]" + rest;
    var c := if last then ']' else ',';
    assert s == Print(es[0]) + ([c] + tail);
    ReadPrinted(es[0], [c] + tail);
    ReadElemsStep(s, es[0], c, tail);
    if last {
      assert es == [es[0]];
    } else {
      ReadPrintedElems(es[1..], rest);
      assert es == [es[0]] + es[1..];
    }
  }

  /** The text after a list's first member: the separator, then what follows it. */
  function AfterMember(ms: seq<Member>, rest: string): (string, string)
    requires ms != []
  {
    if |ms| == 1 then ("}", rest) else (",", PrintMembers(ms[1..]) + "}" + rest)
  }

  lemma MembersText(ms: seq<Member>, rest: string)
    requires ms != []
    ensures PrintMembers(ms) + "}" + rest ==
      Quote(ms[0].key) + ":" + (Print(ms[0].value) + (AfterMember(ms, rest).0 + AfterMember(ms, rest).1))
  {
    hide Print, Quote;
    var q, p := Quote(ms[0].key), Print(ms[0].value);
    if |ms| == 1 {
      assert PrintMembers(ms) == q + ":" + p;
      Regrouped(q, p, "}", rest);
    } else {
      var more := PrintMembers(ms[1..]);
      assert PrintMembers(ms) == q + ":" + p + "," + more;
      hide PrintMembers;
      Regrouped(q, p, ",", more + "}" + rest);
      assert (q + ":" + p + "," + more) + "}" + rest == q + ":" + p + "," + (more + "}" + rest);
    }
  }

  lemma Regrouped(q: string, p: string, c: string, tail: string)
    ensures q + ":" + p + c + tail == q + ":" + (p + (c + tail))
  {
  }

  lemma {:induction false} ReadPrintedMembers(ms: seq<Member>, rest: string)
    requires ms != [] && forall i | 0 <= i < |ms| :: WellFormed(ms[i].value)
    ensures ReadMembers(PrintMembers(ms) + "}" + rest) == Got(ms, rest)
    decreases ms, 0
  {
    hide ReadValue, ReadMember, ReadMembers, SkipSpace, Print, PrintMembers, Escape, WellFormed;
    var (c, tail) := AfterMember(ms, rest);
    MembersText(ms, rest);
    ReadPrinted(ms[0].value, c + tail);
    ReadMemberStep(ms[0].key, Print(ms[0].value) + (c + tail));
    var m := ms[0];
    assert m == Member(m.key, m.value);
    ReadMembersStep(PrintMembers(ms) + "}" + rest, m, c[0], tail);
    if |ms| == 1 {
      assert ms == [m];
    } else {
      ReadPrintedMembers(ms[1..], rest);
      assert ms == [m] + ms[1..];
    }
  }

  /** Parsing undoes printing on every tree. */
  lemma ParsePrint(j: Json)
    requires WellFormed(j)
    ensures Parse(Print(j)) == Some(j)
  {
    ReadPrinted(j, "");
    assert Print(j) + "" == Print(j);
  }

  /** So two trees with the same text are the same tree. */
  lemma PrintInjective(j: Json, k: Json)
    requires WellFormed(j) && WellFormed(k) && Print(j) == Print(k)
    ensures j == k
  {
    ParsePrint(j);
    ParsePrint(k);
  }

  // ---------------------------------------------------------------- one line

  lemma {:induction false} EscapeOneLine(s: string)
    ensures '\n' !in Escape(s)
  {
    if s != "" {
      EscapeOneLine(s[1..]);
      assert '\n' !in EscapeChar(s[0]);
    }
  }

  lemma QuoteOneLine(s: string)
    ensures '\n' !in Quote(s)
  {
    EscapeOneLine(s);
  }

  /** A printed value has no line break in it. */
  lemma {:induction false} PrintOneLine(j: Json)
    requires WellFormed(j)
    ensures '\n' !in Print(j)
    decreases j, 0
  {
    match j
    case JStr(s) => QuoteOneLine(s);
    case JArr(es) => ElemsOneLine(es);
    case JObj(ms) => MembersOneLine(ms);
    case _ =>
  }

  lemma {:induction false} ElemsOneLine(es: seq<Json>)
    requires forall i | 0 <= i < |es| :: WellFormed(es[i])
    ensures '\n' !in PrintElems(es)
    decreases es, 0
  {
    if es != [] {
      PrintOneLine(es[0]);
      ElemsOneLine(es[1..]);
    }
  }

  lemma {:induction false} MembersOneLine(ms: seq<Member>)
    requires forall i | 0 <= i < |ms| :: WellFormed(ms[i].value)
    ensures '\n' !in PrintMembers(ms)
    decreases ms, 0
  {
    if ms != [] {
      hide Quote;
      QuoteOneLine(ms[0].key);
      PrintOneLine(ms[0].value);
      MembersOneLine(ms[1..]);
    }
  }
}
