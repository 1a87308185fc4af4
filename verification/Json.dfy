/** The JSON text that src/dem/config.c prints without escapes, and the reader that the endpoint
    takes it apart with (json_loads of jansson, RFC 8259). */
module Json {
  import opened Decimal

  /** A member's value. Of anything but a string or an integer the endpoint takes nothing. */
  datatype Json = Str(s: string) | Int(n: int) | Other

  type Members = seq<(string, Json)>

  // Printing: the formats JSSTR and JSINDX.

  function Quoted(s: string): string {
    "\"" + s + "\""
  }

  function ValueText(v: Json): string {
    match v
    case Str(s) => Quoted(s)
    case Int(n) => Format(n)
    case Other => "null"
  }

  function MemberText(m: (string, Json)): string {
    Quoted(m.0) + ":" + ValueText(m.1)
  }

  function MembersText(ms: Members): string
    requires ms != []
  {
    if |ms| == 1 then MemberText(ms[0]) else MemberText(ms[0]) + "," + MembersText(ms[1..])
  }

  function Print(ms: Members): string
    requires ms != []
  {
    "{" + MembersText(ms) + "}"
  }

  // What a text costs to read.

  /** A character that cannot stand for itself in a string. */
  predicate Special(c: char) {
    c == '"' || c == '\\' || c < ' '
  }

  predicate Clean(s: string) {
    forall c <- s :: !Special(c)
  }

  /** The characters of which every escape needs one, and an escaped backslash two. */
  function Weight(s: string): nat {
    if s == "" then 0 else (if s[0] == '\\' || s[0] == 'u' then 1 else 0) + Weight(s[1..])
  }

  /** The weight of any text that a string can be read from. */
  function Load(s: string): nat {
    if s == "" then 0
    else (if Special(s[0]) then 1 else 0) + (if s[0] == '\\' || s[0] == 'u' then 1 else 0) + Load(s[1..])
  }

  function ValueLoad(v: Json): nat {
    if v.Str? then Load(v.s) else 0
  }

  function Loads(ms: Members): nat {
    if ms == [] then 0 else Load(ms[0].0) + ValueLoad(ms[0].1) + Loads(ms[1..])
  }

  // Reading. Every reader takes its part off the front, and says that it cost what it holds.

  datatype Read<T> = Fail | Got(value: T, rest: string)

  /** A step of the reading, from one text to the next. */
  predicate Costs(s: string, rest: string, load: nat) {
    |rest| < |s| && load + Weight(rest) <= Weight(s)
  }

  function Blanks(s: string): (r: string)
    ensures |r| <= |s| && Weight(r) <= Weight(s)
  {
    if s != "" && (s[0] == ' ' || s[0] == '\t' || s[0] == '\n' || s[0] == '\r') then Blanks(s[1..]) else s
  }

  predicate Starts(s: string, c: char) {
    s != "" && s[0] == c
  }

  function HexDigit(c: char): int {
    if '0' <= c <= '9' then c as int - '0' as int
    else if 'a' <= c <= 'f' then c as int - 'a' as int + 10
    else if 'A' <= c <= 'F' then c as int - 'A' as int + 10
    else -1
  }

  function ReadHex(s: string): (r: Read<nat>)
    ensures r.Got? ==> Costs(s, r.rest, 0) && r.value < 0x1_0000
  {
    if |s| < 4 || exists i :: 0 <= i < 4 && HexDigit(s[i]) < 0 then Fail
    else
      assert Weight(s) >= Weight(s[1..]) >= Weight(s[1..][1..]) >= Weight(s[1..][1..][1..]) >= Weight(s[1..][1..][1..][1..]);
      assert s[1..][1..][1..][1..] == s[4..];
      Got(0x1000 * HexDigit(s[0]) + 0x100 * HexDigit(s[1]) + 0x10 * HexDigit(s[2]) + HexDigit(s[3]), s[4..])
  }

  /** After "\u": a character, or the first half of one, whose second half must follow. NUL and
      a half alone are refused. */
  function ReadUnicode(s: string): (r: Read<char>)
    ensures r.Got? ==> Costs(s, r.rest, 0)
  {
    match ReadHex(s)
    case Fail => Fail
    case Got(n, rest) =>
      if n == 0 || 0xdc00 <= n <= 0xdfff then Fail
      else if n < 0xd800 || n > 0xdfff then Got(n as char, rest)
      else if |rest| < 2 || rest[0] != '\\' || rest[1] != 'u' then Fail
      else
        assert Weight(rest) >= Weight(rest[1..]) >= Weight(rest[1..][1..]);
        assert rest[1..][1..] == rest[2..];
        match ReadHex(rest[2..])
        case Fail => Fail
        case Got(m, last) =>
          if 0xdc00 <= m <= 0xdfff then Got((0x1_0000 + 0x400 * (n - 0xd800) + (m - 0xdc00)) as char, last) else Fail
  }

  /** After a backslash. */
  function ReadEscape(s: string): (r: Read<char>)
    ensures r.Got? ==> Costs(s, r.rest, if r.value == '\\' || r.value == 'u' then 1 else 0)
  {
    if s == "" then Fail
    else if s[0] == '"' || s[0] == '\\' || s[0] == '/' then Got(s[0], s[1..])
    else if s[0] == 'b' then Got(8 as char, s[1..])
    else if s[0] == 'f' then Got(12 as char, s[1..])
    else if s[0] == 'n' then Got('\n', s[1..])
    else if s[0] == 'r' then Got('\r', s[1..])
    else if s[0] == 't' then Got('\t', s[1..])
    else if s[0] == 'u' then ReadUnicode(s[1..])
    else Fail
  }

  lemma LoadCons(c: char, s: string)
    ensures Load([c] + s) == (if Special(c) then 1 else 0) + (if c == '\\' || c == 'u' then 1 else 0) + Load(s)
  {
    assert ([c] + s)[1..] == s;
  }

  /** After the opening quote, through the closing one. */
  function ReadString(s: string): (r: Read<string>)
    ensures r.Got? ==> Costs(s, r.rest, Load(r.value))
  {
    if s == "" || s[0] < ' ' then Fail
    else if s[0] == '"' then Got("", s[1..])
    else
      var c := if s[0] == '\\' then ReadEscape(s[1..]) else Got(s[0], s[1..]);
      match c
      case Fail => Fail
      case Got(c, rest) =>
        match ReadString(rest)
        case Fail => Fail
        case Got(more, last) =>
          LoadCons(c, more);
          Got([c] + more, last)
  }

  /** The digits at the front, and the number that they are, from what was read before. */
  function TakeDigits(s: string, acc: nat): (r: (nat, string))
    ensures |r.1| <= |s| && Weight(r.1) <= Weight(s)
    ensures s != "" && IsDigit(s[0]) ==> |r.1| < |s|
  {
    if s == "" || !IsDigit(s[0]) then (acc, s)
    else TakeDigits(s[1..], 10 * acc + (s[0] as int - '0' as int))
  }

  function ReadDigits(s: string): (r: Read<nat>)
    ensures r.Got? ==> Costs(s, r.rest, 0)
  {
    if s == "" || !IsDigit(s[0]) then Fail else Got(TakeDigits(s, 0).0, TakeDigits(s, 0).1)
  }

  /** After the letter of an exponent. */
  function ReadExponent(s: string): (r: Read<nat>)
    ensures r.Got? ==> Costs(s, r.rest, 0)
  {
    if Starts(s, '+') || Starts(s, '-') then ReadDigits(s[1..]) else ReadDigits(s)
  }

  predicate StartsExponent(s: string) {
    Starts(s, 'e') || Starts(s, 'E')
  }

  /** The rest of a real number: a fraction, an exponent, or both. */
  function ReadReal(s: string): (r: Read<Json>)
    requires Starts(s, '.') || StartsExponent(s)
    ensures r.Got? ==> Costs(s, r.rest, 0) && r.value == Other
  {
    var fraction := if s[0] == '.' then ReadDigits(s[1..]) else Got(0, s);
    if fraction.Fail? then Fail
    else if !StartsExponent(fraction.rest) then Got(Other, fraction.rest)
    else match ReadExponent(fraction.rest[1..])
      case Fail => Fail
      case Got(_, rest) => Got(Other, rest)
  }

  predicate Fits64(n: int) {
    -0x8000_0000_0000_0000 <= n < 0x8000_0000_0000_0000
  }

  function ReadNumber(s: string): (r: Read<Json>)
    ensures r.Got? ==> Costs(s, r.rest, ValueLoad(r.value))
  {
    var minus := Starts(s, '-');
    var t := if minus then s[1..] else s;
    if t == "" || !IsDigit(t[0]) then Fail
    else if t[0] == '0' && |t| > 1 && IsDigit(t[1]) then Fail
    else
      var (digits, rest) := TakeDigits(t, 0);
      var n: int := if minus then 0 - digits else digits;
      if Starts(rest, '.') || StartsExponent(rest) then ReadReal(rest)
      else if Fits64(n) then Got(Int(n), rest)
      else Fail
  }

  predicate IsLetter(c: char) {
    'a' <= c <= 'z' || 'A' <= c <= 'Z'
  }

  function Letters(s: string): (n: nat)
    ensures n <= |s| && Weight(s[n..]) <= Weight(s)
    ensures n == 0 ==> s[n..] == s
  {
    if s == "" || !IsLetter(s[0]) then 0
    else
      var n := Letters(s[1..]);
      assert s[1..][n..] == s[1 + n..];
      1 + n
  }

  function ReadWord(s: string): (r: Read<Json>)
    ensures r.Got? ==> Costs(s, r.rest, ValueLoad(r.value))
  {
    var n := Letters(s);
    if s[..n] == "true" || s[..n] == "false" || s[..n] == "null" then Got(Other, s[n..]) else Fail
  }

  function ReadValue(s: string): (r: Read<Json>)
    ensures r.Got? ==> Costs(s, r.rest, ValueLoad(r.value))
    decreases |s|, 1
  {
    var t := Blanks(s);
    if t == "" then Fail
    else if t[0] == '"' then
      match ReadString(t[1..])
      case Fail => Fail
      case Got(v, rest) => Got(Str(v), rest)
    else if t[0] == '{' then
      match ReadObject(t[1..])
      case Fail => Fail
      case Got(_, rest) => Got(Other, rest)
    else if t[0] == '[' then
      if Starts(Blanks(t[1..]), ']') then Got(Other, Blanks(t[1..])[1..]) else ReadElements(t[1..])
    else if t[0] == '-' || IsDigit(t[0]) then ReadNumber(t)
    else ReadWord(t)
  }

  /** After the opening bracket or a comma, through the closing bracket. */
  function ReadElements(s: string): (r: Read<Json>)
    ensures r.Got? ==> Costs(s, r.rest, ValueLoad(r.value))
    decreases |s|, 2
  {
    match ReadValue(s)
    case Fail => Fail
    case Got(_, rest) =>
      var t := Blanks(rest);
      if Starts(t, ']') then Got(Other, t[1..])
      else if Starts(t, ',') then ReadElements(t[1..])
      else Fail
  }

  /** After the opening brace, through the closing one. */
  function ReadObject(s: string): (r: Read<Members>)
    ensures r.Got? ==> Costs(s, r.rest, Loads(r.value))
    decreases |s|, 4
  {
    if Starts(Blanks(s), '}') then Got([], Blanks(s)[1..]) else ReadMembers(s)
  }

  /** A name, a colon and a value. */
  function ReadMember(s: string): (r: Read<(string, Json)>)
    ensures r.Got? ==> Costs(s, r.rest, Load(r.value.0) + ValueLoad(r.value.1))
    decreases |s|, 2
  {
    var t := Blanks(s);
    if !Starts(t, '"') then Fail
    else
      match ReadString(t[1..])
      case Fail => Fail
      case Got(k, after) =>
        var u := Blanks(after);
        if !Starts(u, ':') then Fail
        else
          match ReadValue(u[1..])
          case Fail => Fail
          case Got(v, rest) => Got((k, v), rest)
  }

  /** After the opening brace or a comma. */
  function ReadMembers(s: string): (r: Read<Members>)
    ensures r.Got? ==> Costs(s, r.rest, Loads(r.value)) && r.value != []
    decreases |s|, 3
  {
    match ReadMember(s)
    case Fail => Fail
    case Got(m, rest) =>
      var w := Blanks(rest);
      if Starts(w, '}') then Got([m], w[1..])
      else if !Starts(w, ',') then Fail
      else
        match ReadMembers(w[1..])
        case Fail => Fail
        case Got(more, last) => Got([m] + more, last)
  }

  /** The members in the order of the text. A text that is not an object has none. */
  function Parse(text: string): (r: Read<Members>)
    ensures r.Got? ==> Loads(r.value) <= Weight(text)
  {
    var t := Blanks(text);
    var r := if Starts(t, '{') then ReadObject(t[1..])
      else match ReadValue(t) { case Fail => Fail case Got(_, rest) => Got([], rest) };
    if r.Got? && Blanks(r.rest) == "" then r else Fail
  }

  type Body = map<string, Json>

  /** The last member of a name counts. */
  function ToMap(ms: Members): Body {
    if ms == [] then map[] else ToMap(ms[..|ms| - 1])[ms[|ms| - 1].0 := ms[|ms| - 1].1]
  }

  // What is printed clean reads back.

  /** No value of the printer's is anything else, and an integer is a C int. */
  predicate Printable(ms: Members) {
    forall m <- ms :: !m.1.Other? && (m.1.Int? ==> Fits64(m.1.n))
  }

  predicate AllClean(ms: Members) {
    forall m <- ms :: m.1.Str? ==> Clean(m.1.s)
  }

  predicate KeysClean(ms: Members) {
    forall m <- ms :: Clean(m.0)
  }

  lemma {:induction false} StringBack(s: string, rest: string)
    requires Clean(s)
    ensures ReadString(s + "\"" + rest) == Got(s, rest)
  {
    var t := s + "\"" + rest;
    if s == "" {
      assert t == "\"" + rest;
      assert t[1..] == rest;
    } else {
      StringBack(s[1..], rest);
      assert t[1..] == s[1..] + "\"" + rest;
      assert !Special(s[0]) && t[0] == s[0];
      assert [s[0]] + s[1..] == s;
    }
  }

  lemma {:induction false} DigitsBack(n: nat, rest: string)
    requires rest == "" || !IsDigit(rest[0])
    ensures TakeDigits(Digits(n) + rest, 0) == (n, rest)
    ensures n > 0 ==> Digits(n)[0] != '0'
    ensures n == 0 ==> Digits(n) == "0"
  {
    DigitsSuffice(n);
    DigitsTaken(n, rest);
    assert TakeDigits(rest, n) == (n, rest);
  }

  lemma {:induction false} DigitsTaken(n: nat, rest: string)
    ensures TakeDigits(Digits(n) + rest, 0) == TakeDigits(rest, n)
    decreases n
  {
    var last := [('0' as int + n % 10) as char];
    assert (last + rest)[1..] == rest;
    if n < 10 {
      assert Digits(n) + rest == last + rest;
    } else {
      assert Digits(n) + rest == Digits(n / 10) + (last + rest);
      DigitsTaken(n / 10, last + rest);
    }
  }

  lemma NumberBack(n: int, rest: string)
    requires Fits64(n) && (Starts(rest, ',') || Starts(rest, '}'))
    ensures ReadNumber(Format(n) + rest) == Got(Int(n), rest)
  {
    var m: nat := if n < 0 then -n else n;
    var text := Format(n) + rest;
    DigitsBack(m, rest);
    var t := Digits(m) + rest;
    assert IsDigit(Digits(m)[0]) && t[0] == Digits(m)[0];
    if n < 0 {
      assert text == "-" + t;
      assert text[1..] == t;
    } else {
      assert text == t;
    }
    if m == 0 {
      assert t == "0" + rest;
    }
  }

  lemma ValueBack(v: Json, rest: string)
    requires !v.Other? && (v.Int? ==> Fits64(v.n)) && (v.Str? ==> Clean(v.s))
    requires Starts(rest, ',') || Starts(rest, '}')
    ensures ReadValue(ValueText(v) + rest) == Got(v, rest)
  {
    var t := ValueText(v) + rest;
    match v
    case Str(s) =>
      assert t == "\"" + (s + "\"" + rest);
      assert t[1..] == s + "\"" + rest;
      StringBack(s, rest);
    case Int(n) =>
      assert t[0] == Format(n)[0];
      NumberBack(n, rest);
  }

  lemma MemberReads(k: string, v: Json, u: string, rest: string)
    requires Clean(k) && ReadValue(u) == Got(v, rest)
    ensures ReadMember(Quoted(k) + ":" + u) == Got((k, v), rest)
  {
    var s := Quoted(k) + ":" + u;
    assert s == "\"" + (k + "\"" + (":" + u));
    assert s[1..] == k + "\"" + (":" + u);
    StringBack(k, ":" + u);
    assert (":" + u)[1..] == u;
  }

  lemma MemberTextThen(m: (string, Json), rest: string)
    ensures MemberText(m) + rest == Quoted(m.0) + ":" + (ValueText(m.1) + rest)
  {
  }

  /** A string ends at its quote, whatever comes after. */
  lemma StringMemberBack(k: string, v: string, rest: string)
    requires Clean(k) && Clean(v)
    ensures ReadMember(MemberText((k, Str(v))) + rest) == Got((k, Str(v)), rest)
  {
    var u := Quoted(v) + rest;
    assert u == "\"" + (v + "\"" + rest);
    assert u[1..] == v + "\"" + rest;
    StringBack(v, rest);
    MemberReads(k, Str(v), u, rest);
    MemberTextThen((k, Str(v)), rest);
  }

  lemma MemberBack(m: (string, Json), rest: string)
    requires !m.1.Other? && (m.1.Int? ==> Fits64(m.1.n)) && (m.1.Str? ==> Clean(m.1.s)) && Clean(m.0)
    requires Starts(rest, ',') || Starts(rest, '}')
    ensures ReadMember(MemberText(m) + rest) == Got(m, rest)
  {
    ValueBack(m.1, rest);
    MemberReads(m.0, m.1, ValueText(m.1) + rest, rest);
    MemberTextThen(m, rest);
  }

  /** What may come after a value. */
  predicate MayFollow(c: char) {
    c == ' ' || c == '\t' || c == '\n' || c == '\r' || c == ',' || c == '}'
  }

  lemma MemberRefused(s: string)
    requires Starts(s, '"') && ReadMember(s).Got? && ReadMember(s).rest != "" && !MayFollow(ReadMember(s).rest[0])
    ensures Parse("{" + s) == Fail
  {
    var text := "{" + s;
    assert Blanks(text) == text && text[1..] == s && Blanks(s) == s;
    assert ReadMembers(s) == Fail;
  }

  /** A string with a quote inside, which nothing of an object follows. */
  lemma QuoteRefused(k: string, v: string, c: char, more: string)
    requires Clean(k) && Clean(v) && !MayFollow(c)
    ensures Arrived(Print([(k, Str(v + "\"" + ([c] + more)))])) == Fail
  {
    var s := MemberText((k, Str(v))) + ([c] + more + "\"}");
    QuoteSplits(k, v, [c] + more);
    StringMemberBack(k, v, [c] + more + "\"}");
    MemberRefused(s);
  }

  lemma QuoteSplits(k: string, v: string, more: string)
    ensures Print([(k, Str(v + "\"" + more))]) == "{" + (MemberText((k, Str(v))) + (more + "\"}"))
    ensures v + "\"" + more == v + ("\"" + more)
  {
    assert Quoted(k) + ":" + ("\"" + (v + "\"" + more) + "\"") == Quoted(k) + ":" + ("\"" + v + "\"") + more + "\"";
  }

  /** A string that ends itself and goes on with a member of its own. */
  lemma QuoteAdds(k: string, v: string, w: string)
    ensures Print([(k, Str(v + "\"" + ("," + (Quoted(k) + ":" + ("\"" + w)))))]) == Print([(k, Str(v)), (k, Str(w))])
  {
    var more := "," + (Quoted(k) + ":" + ("\"" + w));
    QuoteSplits(k, v, more);
    var ms := [(k, Str(v)), (k, Str(w))];
    MembersSplit(ms);
    assert ms[1..] == [(k, Str(w))];
    assert more + "\"}" == "," + (MemberText((k, Str(w))) + "}");
    assert Print(ms) == "{" + (MembersText(ms) + "}");
  }

  lemma MembersRead(s: string, m: (string, Json), rest: string, more: Members)
    requires ReadMember(s) == Got(m, rest)
    requires (rest == "}" && more == []) || (Starts(rest, ',') && ReadMembers(rest[1..]) == Got(more, ""))
    ensures ReadMembers(s) == Got([m] + more, "")
  {
    assert Blanks(rest) == rest;
    assert rest == "}" ==> rest[1..] == "" && [m] + more == [m];
  }

  lemma {:induction false} MembersBack(ms: Members)
    requires ms != [] && Printable(ms) && AllClean(ms) && KeysClean(ms)
    ensures ReadMembers(MembersText(ms) + "}") == Got(ms, "")
    decreases |ms|
  {
    assert ms[0] in ms;
    assert ms == [ms[0]] + ms[1..];
    if |ms| == 1 {
      MemberBack(ms[0], "}");
      MembersRead(MembersText(ms) + "}", ms[0], "}", []);
    } else {
      var tail := MembersText(ms[1..]) + "}";
      MembersBack(ms[1..]);
      MembersSplit(ms);
      MemberBack(ms[0], "," + tail);
      assert ("," + tail)[1..] == tail;
      MembersRead(MembersText(ms) + "}", ms[0], "," + tail, ms[1..]);
    }
  }

  lemma MembersSplit(ms: Members)
    requires |ms| > 1
    ensures MembersText(ms) + "}" == MemberText(ms[0]) + ("," + (MembersText(ms[1..]) + "}"))
  {
    Joined(MemberText(ms[0]), ",", MembersText(ms[1..]), "}");
  }

  lemma Joined(a: string, b: string, c: string, d: string)
    ensures a + b + c + d == a + (b + (c + d))
  {
  }

  lemma PrintedBack(ms: Members)
    requires ms != [] && Printable(ms) && AllClean(ms) && KeysClean(ms)
    ensures Parse(Print(ms)) == Got(ms, "")
  {
    var t := Print(ms);
    assert t == "{" + (MembersText(ms) + "}");
    assert t[1..] == MembersText(ms) + "}";
    MembersBack(ms);
    assert t[1..][0] == '"';
  }

  // What a printer with escapes could have sent.

  function HexChar(d: nat): char
    requires d < 16
  {
    if d < 10 then ('0' as int + d) as char else ('a' as int + d - 10) as char
  }

  function Hex4(n: nat): (s: string)
    requires n < 0x1_0000
    ensures |s| == 4
  {
    var m := n / 0x10;
    var l := m / 0x10;
    [HexChar(l / 0x10), HexChar(l % 0x10), HexChar(m % 0x10), HexChar(n % 0x10)]
  }

  /** The escape of a character: by letter, by its four hexadecimal digits, or by the eight of
      its two halves (RFC 8259, section 7). */
  function Escape(c: char): string {
    var n := c as int;
    if c == '"' || c == '\\' || c == '/' then ['\\', c]
    else if n == 8 then "\\b"
    else if n == 9 then "\\t"
    else if n == 10 then "\\n"
    else if n == 12 then "\\f"
    else if n == 13 then "\\r"
    else if n < 0x1_0000 then "\\u" + Hex4(n)
    else "\\u" + Hex4(0xd800 + (n - 0x1_0000) / 0x400) + "\\u" + Hex4(0xdc00 + (n - 0x1_0000) % 0x400)
  }

  /** Any spelling of a string: each character is escaped or, where it may, stands for itself. */
  function Spelled(s: string, escaped: seq<bool>): string
    requires |s| == |escaped|
  {
    if s == "" then ""
    else (if escaped[0] || Special(s[0]) then Escape(s[0]) else [s[0]]) + Spelled(s[1..], escaped[1..])
  }

  lemma HexCharBack(d: nat)
    requires d < 16
    ensures HexDigit(HexChar(d)) == d
  {
  }

  lemma HexIs(s: string, a: nat, b: nat, c: nat, d: nat, rest: string)
    requires a < 16 && b < 16 && c < 16 && d < 16
    requires s == [HexChar(a), HexChar(b), HexChar(c), HexChar(d)] + rest
    ensures ReadHex(s) == Got(0x1000 * a + 0x100 * b + 0x10 * c + d, rest)
  {
    HexCharBack(a);
    HexCharBack(b);
    HexCharBack(c);
    HexCharBack(d);
    var h := [a, b, c, d];
    assert forall i :: 0 <= i < 4 ==> HexDigit(s[i]) == h[i];
    assert s[4..] == rest;
  }

  lemma HexBack(n: nat, rest: string)
    requires n < 0x1_0000
    ensures ReadHex(Hex4(n) + rest) == Got(n, rest)
  {
    var m := n / 0x10;
    var l := m / 0x10;
    HexIs(Hex4(n) + rest, l / 0x10, l % 0x10, m % 0x10, n % 0x10, rest);
  }

  lemma UnicodeBack(c: char, rest: string)
    requires 0 < c as int < 0x1_0000
    ensures ReadUnicode(Hex4(c as int) + rest) == Got(c, rest)
  {
    HexBack(c as int, rest);
  }

  lemma PairBack(c: char, rest: string)
    requires c as int >= 0x1_0000
    ensures var n := c as int - 0x1_0000;
      ReadUnicode(Hex4(0xd800 + n / 0x400) + ("\\u" + (Hex4(0xdc00 + n % 0x400) + rest))) == Got(c, rest)
  {
    var n := c as int - 0x1_0000;
    var high, low := 0xd800 + n / 0x400, 0xdc00 + n % 0x400;
    var last := Hex4(low) + rest;
    HexBack(high, "\\u" + last);
    assert ("\\u" + last)[2..] == last;
    HexBack(low, rest);
    assert 0x400 * (high - 0xd800) + (low - 0xdc00) == n;
  }

  lemma LetterBack(c: char, rest: string)
    requires c as int != 0 && Escape(c)[1] != 'u'
    ensures ReadEscape([Escape(c)[1]] + rest) == Got(c, rest)
  {
    assert ([Escape(c)[1]] + rest)[1..] == rest;
  }

  lemma EscapeBack(c: char, rest: string)
    requires c as int != 0
    ensures Escape(c)[0] == '\\' && ReadEscape(Escape(c)[1..] + rest) == Got(c, rest)
  {
    if Escape(c)[1] != 'u' {
      assert Escape(c)[1..] == [Escape(c)[1]];
      LetterBack(c, rest);
    } else if c as int < 0x1_0000 {
      UnicodeEscapeBack(c, rest);
    } else {
      PairEscapeBack(c, rest);
    }
  }

  lemma UnicodeEscapeBack(c: char, rest: string)
    requires 0 < c as int < 0x1_0000 && Escape(c)[1] == 'u'
    ensures ReadEscape(Escape(c)[1..] + rest) == Got(c, rest)
  {
    var hex := Hex4(c as int);
    assert ("\\u" + hex)[1..] + rest == "u" + (hex + rest);
    UnicodeBack(c, rest);
    UnicodeEscape(Escape(c)[1..] + rest, hex + rest);
  }

  lemma PairEscapeBack(c: char, rest: string)
    requires c as int >= 0x1_0000
    ensures ReadEscape(Escape(c)[1..] + rest) == Got(c, rest)
  {
    var n := c as int - 0x1_0000;
    var high, low := Hex4(0xd800 + n / 0x400), Hex4(0xdc00 + n % 0x400);
    var s := Escape(c)[1..] + rest;
    PairSplit(high, low, rest);
    assert s == "u" + (high + ("\\u" + (low + rest)));
    PairBack(c, rest);
    UnicodeEscape(s, high + ("\\u" + (low + rest)));
  }

  lemma PairSplit(high: string, low: string, rest: string)
    ensures ("\\u" + high + "\\u" + low)[1..] + rest == "u" + (high + ("\\u" + (low + rest)))
  {
  }

  lemma UnicodeEscape(s: string, t: string)
    requires s == "u" + t
    ensures ReadEscape(s) == ReadUnicode(t)
  {
    assert s[1..] == t;
  }

  lemma StringStep(t: string, c: char, next: string, s: string, rest: string)
    requires t != "" && ReadString(next) == Got(s, rest)
    requires if t[0] == '\\' then ReadEscape(t[1..]) == Got(c, next) else !Special(t[0]) && t[0] == c && t[1..] == next
    ensures ReadString(t) == Got([c] + s, rest)
  {
  }

  /** However its characters are spelled, a string is read as itself: with escapes, every
      string without a NUL could be sent. */
  lemma {:induction false} SpelledBack(s: string, escaped: seq<bool>, rest: string)
    requires |s| == |escaped| && forall c <- s :: c as int != 0
    ensures ReadString(Spelled(s, escaped) + ("\"" + rest)) == Got(s, rest)
  {
    var t := Spelled(s, escaped) + ("\"" + rest);
    if s == "" {
      assert t == "\"" + rest;
      assert t[1..] == rest;
    } else {
      var next := Spelled(s[1..], escaped[1..]) + ("\"" + rest);
      assert s[0] in s && forall c <- s[1..] :: c in s;
      SpelledBack(s[1..], escaped[1..], rest);
      SpelledStep(s, escaped, "\"" + rest);
      StringStep(t, s[0], next, s[1..], rest);
      assert [s[0]] + s[1..] == s;
    }
  }

  lemma SpelledStep(s: string, escaped: seq<bool>, tail: string)
    requires |s| == |escaped| && s != "" && s[0] as int != 0
    ensures var t, next := Spelled(s, escaped) + tail, Spelled(s[1..], escaped[1..]) + tail;
      t != "" &&
      if t[0] == '\\' then ReadEscape(t[1..]) == Got(s[0], next) else !Special(t[0]) && t[0] == s[0] && t[1..] == next
  {
    var c, more := s[0], Spelled(s[1..], escaped[1..]);
    if escaped[0] || Special(c) {
      Behind(Escape(c), more, tail);
      EscapeBack(c, more + tail);
    } else {
      Behind([c], more, tail);
    }
  }

  lemma Behind(a: string, b: string, tail: string)
    requires a != ""
    ensures var t := a + b + tail;
      t != "" && t[0] == a[0] && t[1..] == a[1..] + (b + tail)
    ensures |a| == 1 ==> (a + b + tail)[1..] == b + tail
  {
  }

  // What does not reads otherwise.

  lemma {:induction false} WeightAppend(a: string, b: string)
    ensures Weight(a + b) == Weight(a) + Weight(b)
  {
    if a == "" {
      assert a + b == b;
    } else {
      assert (a + b)[1..] == a[1..] + b;
      WeightAppend(a[1..], b);
    }
  }

  lemma {:induction false} WeightNone(s: string)
    requires forall c <- s :: c != '\\' && c != 'u'
    ensures Weight(s) == 0
  {
    if s != "" {
      assert s[0] in s && forall c <- s[1..] :: c in s;
      WeightNone(s[1..]);
    }
  }

  /** A string is read at its own weight only when it is clean. */
  lemma {:induction false} LoadIs(s: string)
    ensures Load(s) >= Weight(s)
    ensures Load(s) == Weight(s) <==> Clean(s)
  {
    if s != "" {
      LoadIs(s[1..]);
      assert s == [s[0]] + s[1..];
    }
  }

  /** The names of the members have no weight. */
  predicate KeysLight(ms: Members) {
    forall m <- ms :: forall c <- m.0 :: c != '\\' && c != 'u'
  }

  predicate KeysDiffer(ms: Members) {
    forall i, j :: 0 <= i < j < |ms| ==> ms[i].0 != ms[j].0
  }

  function TextWeight(ms: Members): nat {
    if ms == [] then 0 else (if ms[0].1.Str? then Weight(ms[0].1.s) else 0) + TextWeight(ms[1..])
  }

  function TextLoad(ms: Members): nat {
    if ms == [] then 0 else ValueLoad(ms[0].1) + TextLoad(ms[1..])
  }

  lemma MemberWeight(m: (string, Json))
    requires !m.1.Other? && forall c <- m.0 :: c != '\\' && c != 'u'
    ensures Weight(MemberText(m)) == if m.1.Str? then Weight(m.1.s) else 0
  {
    WeightNone(Quoted(m.0) + ":");
    WeightAppend(Quoted(m.0) + ":", ValueText(m.1));
    match m.1
    case Str(s) =>
      WeightAppend("\"" + s, "\"");
      WeightAppend("\"", s);
      WeightNone("\"");
    case Int(n) => WeightNone(Format(n));
  }

  lemma {:induction false} MembersWeight(ms: Members)
    requires ms != [] && Printable(ms) && KeysLight(ms)
    ensures Weight(MembersText(ms)) == TextWeight(ms)
    decreases |ms|
  {
    assert ms[0] in ms;
    MemberWeight(ms[0]);
    if |ms| > 1 {
      MembersWeight(ms[1..]);
      WeightAppend(MemberText(ms[0]) + ",", MembersText(ms[1..]));
      WeightAppend(MemberText(ms[0]), ",");
      WeightNone(",");
    }
  }

  lemma PrintWeight(ms: Members)
    requires ms != [] && Printable(ms) && KeysLight(ms)
    ensures Weight(Print(ms)) == TextWeight(ms)
  {
    MembersWeight(ms);
    WeightAppend("{" + MembersText(ms), "}");
    WeightAppend("{", MembersText(ms));
    WeightNone("{");
    WeightNone("}");
  }

  lemma {:induction false} LoadsRemoved(ms: Members, k: nat)
    requires k < |ms|
    ensures Loads(ms) == Load(ms[k].0) + ValueLoad(ms[k].1) + Loads(ms[..k] + ms[k + 1..])
  {
    var rest := ms[..k] + ms[k + 1..];
    if k == 0 {
      assert rest == ms[1..];
    } else {
      LoadsRemoved(ms[1..], k - 1);
      assert rest[1..] == ms[1..][..k - 1] + ms[1..][k..];
    }
  }

  /** What was read holds every string of the members, so it cost no less than they do. */
  lemma {:induction false} LoadsHold(ms: Members, read: Members)
    requires KeysDiffer(ms) && forall m <- ms :: m.1.Str? ==> m in read
    ensures TextLoad(ms) <= Loads(read)
    decreases |ms|
  {
    if ms != [] {
      var first := ms[0];
      assert first in ms;
      var rest := read;
      if first.1.Str? {
        var k :| 0 <= k < |read| && read[k] == first;
        rest := read[..k] + read[k + 1..];
        LoadsRemoved(read, k);
        forall m <- ms[1..] | m.1.Str?
          ensures m in rest
        {
          assert m in ms && m.0 != first.0;
          var n :| 0 <= n < |read| && read[n] == m;
          assert rest[if n < k then n else n - 1] == m;
        }
      }
      LoadsHold(ms[1..], rest);
    }
  }

  lemma {:induction false} TextLoadIs(ms: Members)
    ensures TextLoad(ms) >= TextWeight(ms)
    ensures TextLoad(ms) == TextWeight(ms) ==> AllClean(ms)
  {
    if ms != [] {
      TextLoadIs(ms[1..]);
      assert ms == [ms[0]] + ms[1..];
      if ms[0].1.Str? {
        LoadIs(ms[0].1.s);
      }
    }
  }

  lemma {:induction false} ToMapHas(ms: Members, k: string)
    requires k in ToMap(ms)
    ensures (k, ToMap(ms)[k]) in ms
  {
    var n := |ms| - 1;
    if ms[n].0 != k {
      ToMapHas(ms[..n], k);
    }
  }

  /** What arrives: the members, unless the text cannot be read. */
  function Arrived(text: string): Read<Body> {
    match Parse(text)
    case Fail => Fail
    case Got(ms, rest) => Got(ToMap(ms), rest)
  }

  ghost predicate HasStrings(b: Body, ms: Members) {
    forall m <- ms :: m.1.Str? ==> m.0 in b && b[m.0] == m.1
  }

  /** Printed without escapes, the strings of the members arrive as they are if and only if
      none of them holds a quote, a backslash or a control character; and then everything
      arrives. Whatever a string may add to the text, it cannot make up for what it lacks. */
  lemma PrintedExactly(ms: Members)
    requires ms != [] && Printable(ms) && KeysClean(ms) && KeysLight(ms) && KeysDiffer(ms)
    ensures Arrived(Print(ms)).Got? && HasStrings(Arrived(Print(ms)).value, ms) <==> AllClean(ms)
    ensures AllClean(ms) ==> Arrived(Print(ms)) == Got(ToMap(ms), "")
  {
    if AllClean(ms) {
      PrintedBack(ms);
      DifferentKeys(ms);
    } else if Arrived(Print(ms)).Got? && HasStrings(Arrived(Print(ms)).value, ms) {
      var read := Parse(Print(ms)).value;
      forall m <- ms | m.1.Str?
        ensures m in read
      {
        ToMapHas(read, m.0);
      }
      LoadsHold(ms, read);
      PrintWeight(ms);
      TextLoadIs(ms);
    }
  }

  lemma {:induction false} DifferentKeys(ms: Members)
    requires KeysDiffer(ms)
    ensures forall m <- ms :: m.0 in ToMap(ms) && ToMap(ms)[m.0] == m.1
  {
    if ms != [] {
      var n := |ms| - 1;
      DifferentKeys(ms[..n]);
      assert ms == ms[..n] + [ms[n]];
    }
  }
}
