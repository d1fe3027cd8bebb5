/** JSON text as Python's `json.loads` reads it with its default C
    scanner: the grammar of RFC 8259 plus the constants `NaN`, `Infinity`
    and `-Infinity`, control characters refused inside strings, only the
    four whitespace characters space, tab, line feed and carriage return
    skipped, and nothing but whitespace allowed after the value. A number
    is kept as the text that spelled it; an integer literal of more digits
    than CPython's `int` converts is refused, as `int` raises on it. */
module Json {
  import opened Common

  datatype Json =
    | Null
    | Bool(b: bool)
    | Num(lexeme: string)
    | Str(s: string)
    | Arr(elems: seq<Json>)
    | Obj(members: seq<(string, Json)>)

  /** What the decoder stores for an escaped surrogate that is not part of a
      pair (Python keeps the lone surrogate, which a `char` cannot hold). */
  const Replacement: char := '\U{FFFD}'

  predicate IsWs(c: char) {
    c == ' ' || c == '\t' || c == '\n' || c == '\r'
  }

  predicate IsDigit(c: char) {
    '0' <= c <= '9'
  }

  /** The literal `lit` occurs in `s` at position `i`. */
  predicate At(s: string, i: nat, lit: string) {
    i + |lit| <= |s| && s[i..i + |lit|] == lit
  }

  /** The first position at or after `i` that is not whitespace. */
  function SkipWs(s: string, i: nat): (j: nat)
    requires i <= |s|
    ensures i <= j <= |s|
    ensures forall k | i <= k < j :: IsWs(s[k])
    ensures j == |s| || !IsWs(s[j])
    decreases |s| - i
  {
    if i < |s| && IsWs(s[i]) then SkipWs(s, i + 1) else i
  }

  /** The first position at or after `i` that is not a digit. */
  function SkipDigits(s: string, i: nat): (j: nat)
    requires i <= |s|
    ensures i <= j <= |s|
    ensures forall k | i <= k < j :: IsDigit(s[k])
    ensures j == |s| || !IsDigit(s[j])
    decreases |s| - i
  {
    if i < |s| && IsDigit(s[i]) then SkipDigits(s, i + 1) else i
  }

  // -----------------------------------------------------------------------
  // Numbers: -?(0|[1-9][0-9]*)(\.[0-9]+)?([eE][-+]?[0-9]+)?

  /** The end of the number that starts at `i`, if one does. A fraction or
      exponent that is not followed by a digit is not part of the number. */
  function NumberEnd(s: string, i: nat): (r: Option<nat>)
    requires i <= |s|
    ensures r.Some? ==> i < r.value <= |s|
  {
    var a := if i < |s| && s[i] == '-' then i + 1 else i;
    if a < |s| && '1' <= s[a] <= '9' then Some(ExponentEnd(s, FractionEnd(s, SkipDigits(s, a + 1))))
    else if a < |s| && s[a] == '0' then Some(ExponentEnd(s, FractionEnd(s, a + 1)))
    else None
  }

  function FractionEnd(s: string, j: nat): (k: nat)
    requires j <= |s|
    ensures j <= k <= |s|
  {
    if j + 1 < |s| && s[j] == '.' && IsDigit(s[j + 1]) then SkipDigits(s, j + 2) else j
  }

  function ExponentEnd(s: string, k: nat): (m: nat)
    requires k <= |s|
    ensures k <= m <= |s|
  {
    if k < |s| && (s[k] == 'e' || s[k] == 'E') then
      var d := if k + 1 < |s| && (s[k + 1] == '+' || s[k + 1] == '-') then k + 2 else k + 1;
      if d < |s| && IsDigit(s[d]) then SkipDigits(s, d + 1) else k
    else k
  }

  /** The most digits CPython's `int` converts from decimal text (the default
      of `sys.get_int_max_str_digits()`). `json.loads` converts an integer
      literal with `int`, so a longer one raises `ValueError`. */
  const MaxIntDigits := 4300

  /** A number lexeme with neither fraction nor exponent. */
  predicate IsIntegerLexeme(t: string) {
    forall k | 0 <= k < |t| :: t[k] != '.' && t[k] != 'e' && t[k] != 'E'
  }

  /** The digits of a number lexeme, its sign not counted. */
  function DigitCount(t: string): nat {
    if |t| > 0 && t[0] == '-' then |t| - 1 else |t|
  }

  /** An integer literal that `int` refuses to convert. */
  predicate TooLongInteger(t: string) {
    IsIntegerLexeme(t) && DigitCount(t) > MaxIntDigits
  }

  /** The number that starts at `i`, unless converting it raises. */
  function ParseNumber(s: string, i: nat): (r: Option<(Json, nat)>)
    requires i <= |s|
    ensures r.Some? ==> i < r.value.1 <= |s| && r.value.0 == Num(s[i..r.value.1])
    ensures r.Some? ==> !TooLongInteger(r.value.0.lexeme)
  {
    match NumberEnd(s, i)
    case None => None
    case Some(j) => if TooLongInteger(s[i..j]) then None else Some((Num(s[i..j]), j))
  }

  // -----------------------------------------------------------------------
  // Strings

  function HexValue(c: char): (r: Option<int>)
    ensures r.Some? ==> 0 <= r.value < 16
  {
    if '0' <= c <= '9' then Some(c as int - '0' as int)
    else if 'a' <= c <= 'f' then Some(c as int - 'a' as int + 10)
    else if 'A' <= c <= 'F' then Some(c as int - 'A' as int + 10)
    else None
  }

  /** The four hex digits at `i`, as a 16-bit value. */
  function Hex4(s: string, i: nat): (r: Option<int>)
    ensures r.Some? ==> i + 4 <= |s| && 0 <= r.value < 0x10000
  {
    if i + 4 > |s| then None
    else match (HexValue(s[i]), HexValue(s[i + 1]), HexValue(s[i + 2]), HexValue(s[i + 3]))
      case (Some(h0), Some(h1), Some(h2), Some(h3)) => Some(((h0 * 16 + h1) * 16 + h2) * 16 + h3)
      case _ => None
  }

  predicate IsHighSurrogate(u: int) { 0xD800 <= u < 0xDC00 }
  predicate IsLowSurrogate(u: int) { 0xDC00 <= u < 0xE000 }

  /** The escape whose letter is at `i` (just after a backslash): the
      character it stands for and the position after it. A high surrogate
      escape followed at once by a low surrogate escape is one character. */
  function Escape(s: string, i: nat): (r: Option<(char, nat)>)
    ensures r.Some? ==> i < r.value.1 <= |s|
  {
    if i >= |s| then None
    else if s[i] == '"' then Some(('"', i + 1))
    else if s[i] == '\\' then Some(('\\', i + 1))
    else if s[i] == '/' then Some(('/', i + 1))
    else if s[i] == 'b' then Some(('\U{0008}', i + 1))
    else if s[i] == 'f' then Some(('\U{000C}', i + 1))
    else if s[i] == 'n' then Some(('\n', i + 1))
    else if s[i] == 'r' then Some(('\r', i + 1))
    else if s[i] == 't' then Some(('\t', i + 1))
    else if s[i] != 'u' then None
    else match Hex4(s, i + 1)
      case None => None
      case Some(u) =>
        if IsHighSurrogate(u) && At(s, i + 5, "\\u") && Hex4(s, i + 7).Some? && IsLowSurrogate(Hex4(s, i + 7).value) then
          Some(((0x10000 + (u - 0xD800) * 0x400 + (Hex4(s, i + 7).value - 0xDC00)) as char, i + 11))
        else if IsHighSurrogate(u) || IsLowSurrogate(u) then
          Some((Replacement, i + 5))
        else
          Some((u as char, i + 5))
  }

  /** The rest of a string whose opening quote is before `i`: its text and
      the position after the closing quote. */
  function ScanString(s: string, i: nat): (r: Option<(string, nat)>)
    requires i <= |s|
    ensures r.Some? ==> i < r.value.1 <= |s|
    decreases |s| - i
  {
    if i == |s| then None
    else if s[i] == '"' then Some(("", i + 1))
    else if s[i] == '\\' then
      match Escape(s, i + 1)
      case None => None
      case Some((c, j)) =>
        match ScanString(s, j)
        case None => None
        case Some((rest, k)) => Some(([c] + rest, k))
    else if s[i] as int < 0x20 then None
    else
      match ScanString(s, i + 1)
      case None => None
      case Some((rest, k)) => Some(([s[i]] + rest, k))
  }

  // -----------------------------------------------------------------------
  // Values

  /** The value that starts at `i` and the position after it. */
  function ParseValue(s: string, i: nat): (r: Option<(Json, nat)>)
    requires i <= |s|
    ensures r.Some? ==> i < r.value.1 <= |s|
    decreases |s| - i, 1
  {
    if i == |s| then None
    else if s[i] == '"' then
      match ScanString(s, i + 1)
      case None => None
      case Some((t, j)) => Some((Str(t), j))
    else if s[i] == '{' then
      var j := SkipWs(s, i + 1);
      if j < |s| && s[j] == '}' then Some((Obj([]), j + 1)) else ParseMembers(s, j, [])
    else if s[i] == '[' then
      var j := SkipWs(s, i + 1);
      if j < |s| && s[j] == ']' then Some((Arr([]), j + 1)) else ParseElements(s, j, [])
    else if At(s, i, "null") then Some((Null, i + 4))
    else if At(s, i, "true") then Some((Bool(true), i + 4))
    else if At(s, i, "false") then Some((Bool(false), i + 5))
    else if At(s, i, "NaN") then Some((Num("NaN"), i + 3))
    else if At(s, i, "Infinity") then Some((Num("Infinity"), i + 8))
    else if At(s, i, "-Infinity") then Some((Num("-Infinity"), i + 9))
    else ParseNumber(s, i)
  }

  /** The elements of an array from the one that starts at `i` on, after
      the elements `acc` already read. */
  function ParseElements(s: string, i: nat, acc: seq<Json>): (r: Option<(Json, nat)>)
    requires i <= |s|
    ensures r.Some? ==> i < r.value.1 <= |s|
    decreases |s| - i, 4
  {
    match ParseValue(s, i)
    case None => None
    case Some((v, j)) =>
      var k := SkipWs(s, j);
      if k < |s| && s[k] == ']' then Some((Arr(acc + [v]), k + 1))
      else if k < |s| && s[k] == ',' then ParseElements(s, SkipWs(s, k + 1), acc + [v])
      else None
  }

  /** One member `"key" : value` whose key starts at `i`: the key, the
      value and the position after the value. */
  function ParseMember(s: string, i: nat): (r: Option<(string, Json, nat)>)
    requires i <= |s|
    ensures r.Some? ==> i < r.value.2 <= |s|
    decreases |s| - i, 3
  {
    if !(i < |s| && s[i] == '"') then None
    else match ScanString(s, i + 1)
      case None => None
      case Some((key, j)) =>
        var k := SkipWs(s, j);
        if !(k < |s| && s[k] == ':') then None
        else match ParseValue(s, SkipWs(s, k + 1))
          case None => None
          case Some((v, m)) => Some((key, v, m))
  }

  /** The members of an object from the one whose key starts at `i` on,
      after the members `acc` already read. */
  function ParseMembers(s: string, i: nat, acc: seq<(string, Json)>): (r: Option<(Json, nat)>)
    requires i <= |s|
    ensures r.Some? ==> i < r.value.1 <= |s|
    decreases |s| - i, 4
  {
    match ParseMember(s, i)
    case None => None
    case Some((key, v, m)) =>
      var n := SkipWs(s, m);
      if n < |s| && s[n] == '}' then Some((Obj(acc + [(key, v)]), n + 1))
      else if n < |s| && s[n] == ',' then ParseMembers(s, SkipWs(s, n + 1), acc + [(key, v)])
      else None
  }

  /** `json.loads(text)`: `None` is the `JSONDecodeError`. */
  function Loads(text: string): (r: Option<Json>)
    ensures r.Some? ==> SkipWs(text, 0) < |text|
  {
    match ParseValue(text, SkipWs(text, 0))
    case None => None
    case Some((v, j)) => if SkipWs(text, j) == |text| then Some(v) else None
  }

  // -----------------------------------------------------------------------
  // Properties

  /** A character that a JSON string can hold without an escape. */
  predicate IsPlain(c: char) {
    c != '"' && c != '\\' && c as int >= 0x20
  }

  /** Text made of plain characters reads back as itself up to the closing
      quote that follows it. */
  lemma {:induction false} ScanPlain(s: string, i: nat, t: string)
    requires forall k | 0 <= k < |t| :: IsPlain(t[k])
    requires i + |t| < |s| && s[i..i + |t|] == t && s[i + |t|] == '"'
    ensures ScanString(s, i) == Some((t, i + |t| + 1))
    decreases |t|
  {
    if t != [] {
      assert s[i] == t[0];
      assert s[i + 1..i + 1 + |t[1..]|] == t[1..];
      ScanPlain(s, i + 1, t[1..]);
      assert [t[0]] + t[1..] == t;
    }
  }

  /** Text spelling nothing is not JSON. */
  lemma LoadsEmpty(text: string)
    requires forall k | 0 <= k < |text| :: IsWs(text[k])
    ensures Loads(text) == None
  {
    assert SkipWs(text, 0) == |text|;
  }

  /** Text that is all decimal digits, without a leading zero, is read as
      that integer exactly when it has at most `MaxIntDigits` digits. */
  lemma LoadsInteger(t: string)
    requires |t| > 0 && '1' <= t[0] <= '9'
    requires forall k | 0 <= k < |t| :: IsDigit(t[k])
    ensures Loads(t) == (if |t| <= MaxIntDigits then Some(Num(t)) else None)
  {
    assert SkipWs(t, 0) == 0;
    NumberValue(t, 0);
    assert SkipDigits(t, 1) == |t|;
    assert NumberEnd(t, 0) == Some(|t|);
    assert t[0..|t|] == t;
    assert IsIntegerLexeme(t) && DigitCount(t) == |t|;
  }

  /** A value that starts with a digit is a number. */
  lemma NumberValue(s: string, i: nat)
    requires i < |s| && IsDigit(s[i])
    ensures ParseValue(s, i) == ParseNumber(s, i)
  {
    AtHead(s, i, "null");
    AtHead(s, i, "true");
    AtHead(s, i, "false");
    AtHead(s, i, "NaN");
    AtHead(s, i, "Infinity");
    AtHead(s, i, "-Infinity");
  }

  /** A literal found at `i` starts with the character there. */
  lemma AtHead(s: string, i: nat, lit: string)
    ensures At(s, i, lit) && |lit| > 0 ==> s[i] == lit[0]
  {
    if At(s, i, lit) && |lit| > 0 {
      assert s[i..i + |lit|][0] == s[i];
    }
  }

  /** A character `json.dumps` writes as itself (with its default
      `ensure_ascii`): printable ASCII other than the quote and the
      backslash. */
  predicate IsVerbatim(c: char) {
    ' ' <= c <= '~' && c != '"' && c != '\\'
  }

  predicate IsVerbatimText(t: string) {
    forall k | 0 <= k < |t| :: IsVerbatim(t[k])
  }

  /** `json.dumps({key: value}, separators=(",", ":"))` for a key and a
      string value that need no escape. */
  function DumpsMember(key: string, value: string): (text: string)
    requires IsVerbatimText(key) && IsVerbatimText(value)
    ensures |text| == |key| + |value| + 7
  {
    "{\"" + key + "\":\"" + value + "\"}"
  }

  /** A quoted run of plain characters at `i` is a string value. */
  lemma PlainStringAt(s: string, i: nat, t: string)
    requires forall k | 0 <= k < |t| :: IsPlain(t[k])
    requires i + |t| + 1 < |s| && s[i] == '"' && s[i + 1..i + 1 + |t|] == t && s[i + 1 + |t|] == '"'
    ensures ParseValue(s, i) == Some((Str(t), i + |t| + 2))
  {
    ScanPlain(s, i + 1, t);
  }

  /** A key read up to `j`, a colon at `j` and a value from `j + 1` to
      `m`, with nothing between them, make one member. */
  lemma MemberAt(s: string, i: nat, key: string, j: nat, v: Json, m: nat)
    requires i < j < j + 1 < m <= |s| && s[i] == '"' && s[j] == ':' && !IsWs(s[j + 1])
    requires ScanString(s, i + 1) == Some((key, j))
    requires ParseValue(s, j + 1) == Some((v, m))
    ensures ParseMember(s, i) == Some((key, v, m))
  {
    assert SkipWs(s, j) == j && SkipWs(s, j + 1) == j + 1;
  }

  /** A single member followed by the closing brace is a whole object
      body. */
  lemma LastMemberAt(s: string, i: nat, key: string, v: Json, m: nat)
    requires i <= m < |s| && s[m] == '}'
    requires ParseMember(s, i) == Some((key, v, m))
    ensures ParseMembers(s, i, []) == Some((Obj([(key, v)]), m + 1))
  {
    assert SkipWs(s, m) == m;
    assert [] + [(key, v)] == [(key, v)];
  }

  /** An object at `i` whose body is not empty. */
  lemma ObjectAt(s: string, i: nat, v: Json, m: nat)
    requires i + 1 < |s| && s[i] == '{' && !IsWs(s[i + 1]) && s[i + 1] != '}'
    requires ParseMembers(s, i + 1, []) == Some((v, m))
    ensures ParseValue(s, i) == Some((v, m))
  {
    assert SkipWs(s, i + 1) == i + 1;
  }

  /** A value that fills the whole text, with no whitespace around it. */
  lemma LoadsWhole(s: string, v: Json)
    requires |s| > 0 && !IsWs(s[0]) && ParseValue(s, 0) == Some((v, |s|))
    ensures Loads(s) == Some(v)
  {
    assert SkipWs(s, 0) == 0;
  }

  /** A text that is one object holding one member, with no whitespace
      anywhere outside the member. */
  lemma LoadsOneMember(s: string, key: string, v: Json)
    requires |s| >= 3 && s[0] == '{' && s[1] == '"' && s[|s| - 1] == '}'
    requires ParseMember(s, 1) == Some((key, v, |s| - 1))
    ensures Loads(s) == Some(Obj([(key, v)]))
  {
    LastMemberAt(s, 1, key, v, |s| - 1);
    ObjectAt(s, 0, Obj([(key, v)]), |s|);
    LoadsWhole(s, Obj([(key, v)]));
  }

  /** Where the parts of `DumpsMember(key, value)` sit. */
  lemma DumpsMemberLayout(key: string, value: string)
    requires IsVerbatimText(key) && IsVerbatimText(value)
    ensures var text, a, b := DumpsMember(key, value), |key|, |value|;
            text[0] == '{' && text[1] == '"'
            && text[2..2 + a] == key && text[2 + a] == '"'
            && text[3 + a] == ':' && text[4 + a] == '"'
            && text[5 + a..5 + a + b] == value && text[5 + a + b] == '"'
            && text[6 + a + b] == '}'
  {
    var text := DumpsMember(key, value);
    var a := |key|;
    var b := |value|;
    assert text == "{\"" + key + "\":\"" + value + "\"}";
    assert text[2..2 + a] == key;
    assert text[5 + a..5 + a + b] == value;
  }

  /** `json.loads(json.dumps({key: value}))` is `{key: value}`. */
  lemma LoadsDumpsMember(key: string, value: string)
    requires IsVerbatimText(key) && IsVerbatimText(value)
    ensures Loads(DumpsMember(key, value)) == Some(Obj([(key, Str(value))]))
  {
    var text := DumpsMember(key, value);
    var a := |key|;
    var b := |value|;
    DumpsMemberLayout(key, value);
    ScanPlain(text, 2, key);
    PlainStringAt(text, 4 + a, value);
    MemberAt(text, 1, key, 3 + a, Str(value), 6 + a + b);
    LoadsOneMember(text, key, Str(value));
  }
}
