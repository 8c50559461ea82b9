/**
 The catalog file as text: one top-level JSON object, one member per line block, indented by two
 spaces.  Splice is the loop body shared by the two catalog generators; it works on the text alone.
 */
module CatalogText {
  import opened Options
  import opened Json

  // ----- text operations of the generators -----------------------------------------------------------

  /** What Python's \s and str.rstrip() take for white space. */
  predicate IsSpace(c: char) {
    var n := c as int;
    || 9 <= n <= 13 || 28 <= n <= 32 || n == 0x85 || n == 0xa0 || n == 0x1680 || 0x2000 <= n <= 0x200a
    || n == 0x2028 || n == 0x2029 || n == 0x202f || n == 0x205f || n == 0x3000
  }

  function SkipSpaces(s: string): (r: string)
    ensures |r| <= |s|
  {
    if s != [] && IsSpace(s[0]) then SkipSpaces(s[1..]) else s
  }

  function RightStrip(s: string): (r: string)
    ensures |r| <= |s|
  {
    if s != [] && IsSpace(s[|s| - 1]) then RightStrip(s[..|s| - 1]) else s
  }

  /** s[:-1] */
  function DropLast(s: string): string {
    if s == [] then s else s[..|s| - 1]
  }

  /** s.replace("\n", "\n  ") */
  function Indent(s: string): string {
    if s == [] then []
    else (if s[0] == '\n' then "\n  " else [s[0]]) + Indent(s[1..])
  }

  /** `pattern` stands at `i`, and `i` begins a line (the ^ of re.MULTILINE). */
  predicate AtLine(s: string, i: nat, pattern: string) {
    && i <= |s|
    && (i == 0 || s[i - 1] == '\n')
    && pattern <= s[i..]
  }

  /** The first line from position `i` on that matches. */
  function FindLine(s: string, pattern: string, i: nat): (r: Option<nat>)
    requires i <= |s|
    ensures r.None? ==> forall k | i <= k <= |s| :: !AtLine(s, k, pattern)
    ensures r.Some? ==> i <= r.value <= |s| && AtLine(s, r.value, pattern)
    ensures r.Some? ==> forall k | i <= k < r.value :: !AtLine(s, k, pattern)
    decreases |s| - i
  {
    if AtLine(s, i, pattern) then Some(i)
    else if i == |s| then None
    else FindLine(s, pattern, i + 1)
  }

  /** re.search("^pattern", s, re.MULTILINE) */
  function Search(s: string, pattern: string): (r: Option<nat>)
    ensures r.None? ==> forall k | 0 <= k <= |s| :: !AtLine(s, k, pattern)
    ensures r.Some? ==> r.value <= |s| && AtLine(s, r.value, pattern)
    ensures r.Some? ==> forall k | 0 <= k < r.value :: !AtLine(s, k, pattern)
  {
    FindLine(s, pattern, 0)
  }

  /** The text of a new value: json.dumps(entry, indent=2), shifted to the level of a member. */
  function Rendered(entry: Json): string {
    Indent(Dump(entry, 0))
  }

  /** json.dumps(name) */
  function KeyText(name: string): string {
    Quote(name, true)
  }

  function KeyPattern(name: string): string {
    "  " + KeyText(name) + ":"
  }

  /**
   One iteration of the generator loop.  None stands for the exception that raw_decode throws.
   */
  function Splice(source: string, name: string, entry: Json): Option<string> {
    SpliceText(source, KeyPattern(name), KeyText(name), Rendered(entry))
  }

  function SpliceText(source: string, pattern: string, key: string, rendered: string): Option<string> {
    SpliceAt(source, Search(source, pattern), |pattern|, key, rendered)
  }

  /** The two branches: `found` is where the search found the pattern, of `width` characters. */
  function SpliceAt(source: string, found: Option<nat>, width: nat, key: string, rendered: string): Option<string>
    requires found.Some? ==> found.value + width <= |source|
  {
    match found
    case Some(i) => ReplaceValue(source, i + width, rendered)
    case None => Some(AppendMember(source, key, rendered))
  }

  function ReplaceValue(source: string, colon: nat, rendered: string): Option<string>
    requires colon <= |source|
  {
    var end := |source| - |SkipSpaces(source[colon..])|;
    match ParseValue(source[end..])
    case Some((_, rest)) => Some(Replaced(source, end, |rest|, rendered))
    case None => None
  }

  /** source[:end] + rendered + source[end + length:], where `left` characters follow the value. */
  function Replaced(source: string, end: nat, left: nat, rendered: string): string
    requires end <= |source| && left <= |source|
  {
    source[..end] + rendered + source[|source| - left..]
  }

  function AppendMember(source: string, key: string, rendered: string): string {
    RightStrip(DropLast(RightStrip(source))) + ",\n  " + key + ": " + rendered + "\n}\n"
  }

  // ----- the layout of the file ----------------------------------------------------------------------

  /** A top-level member as written: its key literal, quotes included, and the text of its value. */
  datatype Entry = Entry(key: string, text: string)

  /** Two spaces and a quote stand at `i`. */
  predicate KeyStart(s: string, i: nat) {
    i + 2 < |s| && s[i] == ' ' && s[i + 1] == ' ' && s[i + 2] == '\"'
  }

  /** No line inside the value looks like the start of a top-level member. */
  predicate NoKeyLine(text: string) {
    forall p | 0 <= p < |text| && text[p] == '\n' :: !KeyStart(text, p + 1)
  }

  predicate KeyLiteral(key: string) {
    ParseString(key).Some? && ParseString(key).value.1 == []
  }

  predicate ValueText(text: string) {
    && ParseValue(text).Some? && ParseValue(text).value.1 == []
    && !IsSpace(text[|text| - 1])
    && NoKeyLine(text)
  }

  predicate ValidEntry(e: Entry) { KeyLiteral(e.key) && ValueText(e.text) }

  predicate ValidEntries(es: seq<Entry>) { forall i | 0 <= i < |es| :: ValidEntry(es[i]) }

  function MemberText(e: Entry): string {
    "  " + e.key + ": " + e.text
  }

  function Body(es: seq<Entry>): string
    requires es != []
  {
    if |es| == 1 then MemberText(es[0]) else MemberText(es[0]) + ",\n" + Body(es[1..])
  }

  /** The whole file; `tail` is the white space after the closing brace. */
  function Text(es: seq<Entry>, tail: string): string {
    if es == [] then "{\n}" + tail else "{\n" + Body(es) + "\n}" + tail
  }

  // ----- what the file means -------------------------------------------------------------------------

  function Meaning(e: Entry): Member
    requires ValidEntry(e)
  {
    Member(ParseString(e.key).value.0, ParseValue(e.text).value.0)
  }

  /** The members json.loads finds, in file order. */
  function Catalog(es: seq<Entry>): (ms: seq<Member>)
    requires ValidEntries(es)
    ensures |ms| == |es| && forall i | 0 <= i < |es| :: ms[i] == Meaning(es[i])
  {
    seq(|es|, i requires 0 <= i < |es| => Meaning(es[i]))
  }

  /** Index of the first member spelled `key`, or |es|. */
  function FirstSpelled(es: seq<Entry>, key: string): (j: nat)
    ensures j <= |es| && forall i | 0 <= i < j :: es[i].key != key
    ensures j < |es| ==> es[j].key == key
  {
    if es == [] || es[0].key == key then 0 else 1 + FirstSpelled(es[1..], key)
  }

  /** The entry list after one splice. */
  function Put(es: seq<Entry>, name: string, entry: Json): seq<Entry> {
    PutEntry(es, Entry(KeyText(name), Rendered(entry)))
  }

  function PutEntry(es: seq<Entry>, e: Entry): seq<Entry> {
    var j := FirstSpelled(es, e.key);
    if j < |es| then es[j := e] else es + [e]
  }

  function PutTail(es: seq<Entry>, tail: string, name: string): string {
    if FirstSpelled(es, KeyText(name)) < |es| then tail else "\n"
  }
}
