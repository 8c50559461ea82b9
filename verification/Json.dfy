/** Optional values, used for the Python exceptions and the absent keys of the tools. */
module Options {
  datatype Option<+T> = None | Some(value: T) {
    predicate IsFailure() { None? }

    function PropagateFailure<U>(): Option<U>
      requires None?
    {
      None
    }

    function Extract(): T
      requires Some?
    {
      value
    }
  }
}

/**
 JSON values (RFC 8259), the printer json.dumps(..., indent=2) and the decoder raw_decode that the
 catalog generators use.  Numbers are kept as their source token: the tools never compute with a
 number they read from the catalog.
 */
module Json {
  import opened Options

  datatype Json =
    | Null
    | Bool(b: bool)
    | Num(token: string)
    | Str(s: string)
    | Arr(items: seq<Json>)
    | Obj(members: seq<Member>)

  datatype Member = Member(key: string, value: Json)

  // ----- printer ---------------------------------------------------------------------------------

  function HexDigit(d: int): char
    requires 0 <= d < 16
  {
    if d < 10 then ('0' as int + d) as char else ('a' as int + (d - 10)) as char
  }

  function Hex4(n: int): string
    requires 0 <= n < 0x10000
  {
    [HexDigit(n / 0x1000), HexDigit(n / 0x100 % 16), HexDigit(n / 16 % 16), HexDigit(n % 16)]
  }

  function UnicodeEscape(n: int): string
    requires 0 <= n < 0x10000
  {
    "\\u" + Hex4(n)
  }

  /** One character of a dumped string; `ascii` is the ensure_ascii flag. */
  function Escape(c: char, ascii: bool): string {
    if c == '\"' then "\\\""
    else if c == '\\' then "\\\\"
    else if c == '\n' then "\\n"
    else if c == '\r' then "\\r"
    else if c == '\t' then "\\t"
    else if c as int == 8 then "\\b"
    else if c as int == 12 then "\\f"
    else if c < ' ' then UnicodeEscape(c as int)
    else if !ascii || c <= '~' then [c]
    else if (c as int) < 0x10000 then UnicodeEscape(c as int)
    else
      var n := c as int - 0x10000;
      UnicodeEscape(0xd800 + n / 0x400) + UnicodeEscape(0xdc00 + n % 0x400)
  }

  function EscapeAll(s: string, ascii: bool): string {
    if s == [] then [] else Escape(s[0], ascii) + EscapeAll(s[1..], ascii)
  }

  function Quote(s: string, ascii: bool): string {
    "\"" + EscapeAll(s, ascii) + "\""
  }

  function Spaces(n: nat): string {
    seq(n, _ => ' ')
  }

  /** A line break followed by the indentation of level `n`. */
  function NewLine(n: nat): string {
    "\n" + Spaces(2 * n)
  }

  /** json.dumps(v, ensure_ascii=False, indent=2), printed at indentation level `n`. */
  function Dump(v: Json, n: nat): string
    decreases v, 0
  {
    match v
    case Null => "null"
    case Bool(b) => if b then "true" else "false"
    case Num(token) => token
    case Str(s) => Quote(s, false)
    case Arr(items) =>
      if items == [] then "[]"
      else "[" + NewLine(n + 1) + DumpItems(items, n + 1) + NewLine(n) + "]"
    case Obj(members) =>
      if members == [] then "{}"
      else "{" + NewLine(n + 1) + DumpMembers(members, n + 1) + NewLine(n) + "}"
  }

  function DumpItems(items: seq<Json>, n: nat): string
    requires items != []
    decreases items, 1
  {
    if |items| == 1 then Dump(items[0], n)
    else Dump(items[0], n) + "," + NewLine(n) + DumpItems(items[1..], n)
  }

  function DumpMembers(members: seq<Member>, n: nat): string
    requires members != []
    decreases members, 1
  {
    if |members| == 1 then DumpMember(members[0], n)
    else DumpMember(members[0], n) + "," + NewLine(n) + DumpMembers(members[1..], n)
  }

  function DumpMember(m: Member, n: nat): string
    decreases m, 0
  {
    Quote(m.key, false) + ": " + Dump(m.value, n)
  }

  // ----- decoder ---------------------------------------------------------------------------------

  predicate IsBlank(c: char) { c == ' ' || c == '\t' || c == '\n' || c == '\r' }

  function SkipBlanks(s: string): (r: string)
    ensures |r| <= |s|
    ensures r == [] || !IsBlank(r[0])
  {
    if s != [] && IsBlank(s[0]) then SkipBlanks(s[1..]) else s
  }

  predicate IsDigit(c: char) { '0' <= c <= '9' }

  function DigitRun(s: string): (n: nat)
    ensures n <= |s|
  {
    if s != [] && IsDigit(s[0]) then 1 + DigitRun(s[1..]) else 0
  }

  function IntLength(s: string): (n: nat)
    ensures n <= |s|
  {
    if s == [] then 0 else if s[0] == '0' then 1 else DigitRun(s)
  }

  function FractionLength(s: string): (n: nat)
    ensures n <= |s|
  {
    if s != [] && s[0] == '.' && DigitRun(s[1..]) > 0 then 1 + DigitRun(s[1..]) else 0
  }

  function SignLength(s: string): (n: nat)
    ensures n <= |s|
  {
    if s != [] && (s[0] == '+' || s[0] == '-') then 1 else 0
  }

  function ExponentLength(s: string): (n: nat)
    ensures n <= |s|
  {
    if s != [] && (s[0] == 'e' || s[0] == 'E') then
      var sign := SignLength(s[1..]);
      var digits := DigitRun(s[1 + sign..]);
      if digits > 0 then 1 + sign + digits else 0
    else 0
  }

  function UnsignedLength(s: string): (n: nat)
    ensures n <= |s|
  {
    var i := IntLength(s);
    var j := i + FractionLength(s[i..]);
    if i == 0 then 0 else j + ExponentLength(s[j..])
  }

  /** Length of the longest prefix matching -?(0|[1-9][0-9]*)(\.[0-9]+)?([eE][-+]?[0-9]+)?, or 0. */
  function NumberLength(s: string): (n: nat)
    ensures n <= |s|
  {
    if s != [] && s[0] == '-' then
      if UnsignedLength(s[1..]) == 0 then 0 else 1 + UnsignedLength(s[1..])
    else UnsignedLength(s)
  }

  predicate IsNumber(s: string) { s != [] && NumberLength(s) == |s| }

  function HexValue(c: char): (r: Option<int>)
    ensures r.Some? ==> 0 <= r.value < 16
  {
    if '0' <= c <= '9' then Some(c as int - '0' as int)
    else if 'a' <= c <= 'f' then Some(c as int - 'a' as int + 10)
    else if 'A' <= c <= 'F' then Some(c as int - 'A' as int + 10)
    else None
  }

  function ParseHex4(s: string): (r: Option<int>)
    ensures r.Some? ==> |s| >= 4 && 0 <= r.value < 0x10000
  {
    if |s| < 4 then None
    else
      var a :- HexValue(s[0]);
      var b :- HexValue(s[1]);
      var c :- HexValue(s[2]);
      var d :- HexValue(s[3]);
      Some(((a * 16 + b) * 16 + c) * 16 + d)
  }

  /**
   The character denoted by an escape, read after its backslash, with the number of characters
   the escape takes there.  A surrogate half without its partner is not a character.
   */
  function ParseEscape(s: string): (r: Option<(char, nat)>)
    ensures r.Some? ==> 0 < r.value.1 <= |s|
  {
    if s == [] then None
    else if s[0] == '\"' || s[0] == '\\' || s[0] == '/' then Some((s[0], 1))
    else if s[0] == 'n' then Some(('\n', 1))
    else if s[0] == 'r' then Some(('\r', 1))
    else if s[0] == 't' then Some(('\t', 1))
    else if s[0] == 'b' then Some((8 as char, 1))
    else if s[0] == 'f' then Some((12 as char, 1))
    else if s[0] == 'u' then
      var high :- ParseHex4(s[1..]);
      if high < 0xd800 || 0xe000 <= high then Some((high as char, 5))
      else if high < 0xdc00 && |s| >= 7 && s[5] == '\\' && s[6] == 'u' then
        var low :- ParseHex4(s[7..]);
        if 0xdc00 <= low < 0xe000 then
          Some(((0x10000 + (high - 0xd800) * 0x400 + (low - 0xdc00)) as char, 11))
        else None
      else None
    else None
  }

  /** The rest of a string literal, after its opening quote.  Raw control characters are refused. */
  function ParseChars(s: string): (r: Option<(string, string)>)
    ensures r.Some? ==> |r.value.1| < |s|
  {
    if s == [] || s[0] < ' ' then None
    else if s[0] == '\"' then Some(([], s[1..]))
    else if s[0] == '\\' then
      var (c, n) :- ParseEscape(s[1..]);
      var (cs, rest) :- ParseChars(s[1 + n..]);
      Some(([c] + cs, rest))
    else
      var (cs, rest) :- ParseChars(s[1..]);
      Some(([s[0]] + cs, rest))
  }

  function ParseString(s: string): (r: Option<(string, string)>)
    ensures r.Some? ==> |r.value.1| < |s|
  {
    if s != [] && s[0] == '\"' then ParseChars(s[1..]) else None
  }

  /** JSONDecoder.raw_decode: the value at the start of `s` and the text after it. */
  function ParseValue(s: string): (r: Option<(Json, string)>)
    ensures r.Some? ==> |r.value.1| < |s|
    decreases |s|, 0
  {
    if s == [] then None
    else if s[0] == '\"' then
      var (str, rest) :- ParseChars(s[1..]);
      Some((Str(str), rest))
    else if s[0] == '[' then
      var inner := SkipBlanks(s[1..]);
      if inner != [] && inner[0] == ']' then Some((Arr([]), inner[1..]))
      else
        var (items, rest) :- ParseItems(inner);
        Some((Arr(items), rest))
    else if s[0] == '{' then
      var inner := SkipBlanks(s[1..]);
      if inner != [] && inner[0] == '}' then Some((Obj([]), inner[1..]))
      else
        var (members, rest) :- ParseMembers(inner);
        Some((Obj(members), rest))
    else if "null" <= s then Some((Null, s[4..]))
    else if "true" <= s then Some((Bool(true), s[4..]))
    else if "false" <= s then Some((Bool(false), s[5..]))
    else
      var n := NumberLength(s);
      if n == 0 then None else Some((Num(s[..n]), s[n..]))
  }

  function ParseItems(s: string): (r: Option<(seq<Json>, string)>)
    ensures r.Some? ==> |r.value.1| < |s|
    decreases |s|, 1
  {
    var (v, after) :- ParseValue(s);
    var next := SkipBlanks(after);
    if next != [] && next[0] == ']' then Some(([v], next[1..]))
    else if next != [] && next[0] == ',' then
      var (vs, rest) :- ParseItems(SkipBlanks(next[1..]));
      Some(([v] + vs, rest))
    else None
  }

  function ParseMember(s: string): (r: Option<(Member, string)>)
    ensures r.Some? ==> |r.value.1| < |s|
    decreases |s|, 1
  {
    var (key, after) :- ParseString(s);
    var colon := SkipBlanks(after);
    if colon != [] && colon[0] == ':' then
      var (v, rest) :- ParseValue(SkipBlanks(colon[1..]));
      Some((Member(key, v), rest))
    else None
  }

  function ParseMembers(s: string): (r: Option<(seq<Member>, string)>)
    ensures r.Some? ==> |r.value.1| < |s|
    decreases |s|, 2
  {
    var (m, after) :- ParseMember(s);
    var next := SkipBlanks(after);
    if next != [] && next[0] == '}' then Some(([m], next[1..]))
    else if next != [] && next[0] == ',' then
      var (ms, rest) :- ParseMembers(SkipBlanks(next[1..]));
      Some(([m] + ms, rest))
    else None
  }

  /** json.loads: one value, surrounded by blanks only. */
  function Loads(s: string): Option<Json> {
    var (v, rest) :- ParseValue(SkipBlanks(s));
    if SkipBlanks(rest) == [] then Some(v) else None
  }

  /** dict.get on the decoded members: the last value stored under a key wins. */
  function Lookup(ms: seq<Member>, key: string): Option<Json> {
    if ms == [] then None
    else if ms[|ms| - 1].key == key then Some(ms[|ms| - 1].value)
    else Lookup(ms[..|ms| - 1], key)
  }

  /** Every number token in the value is a JSON number. */
  predicate WellFormed(v: Json)
    decreases v
  {
    match v
    case Num(token) => IsNumber(token)
    case Arr(items) => forall i | 0 <= i < |items| :: WellFormed(items[i])
    case Obj(members) => forall i | 0 <= i < |members| :: WellFormed(members[i].value)
    case _ => true
  }
}
