/** Splicing the text is updating the member list: the two descriptions of one iteration agree. */
module CatalogSplice {
  import opened Options
  import opened Json
  import opened JsonRoundTrip
  import opened JsonExtension
  import opened CatalogText
  import opened CatalogLayout

  // ----- cutting the file at a member ----------------------------------------------------------------

  /** The text before member `j`. */
  function Before(es: seq<Entry>, j: nat): string
    requires j <= |es|
  {
    if j == 0 then "{\n" else Before(es, j - 1) + MemberText(es[j - 1]) + ",\n"
  }

  /** The text after member `j`. */
  function After(es: seq<Entry>, j: nat, tail: string): string
    requires j < |es|
  {
    if j + 1 == |es| then "\n}" + tail else ",\n" + Body(es[j + 1..]) + "\n}" + tail
  }

  lemma {:induction false} CutBody(es: seq<Entry>, j: nat, tail: string)
    requires j < |es|
    ensures Text(es, tail) == Before(es, j) + (Body(es[j..]) + "\n}" + tail)
  {
    if j == 0 {
      assert es[0..] == es;
    } else {
      CutBody(es, j - 1, tail);
      assert es[j - 1..][1..] == es[j..];
      Shift(Before(es, j - 1), MemberText(es[j - 1]), Body(es[j..]), "\n}" + tail);
      assert Body(es[j - 1..]) + "\n}" + tail == Body(es[j - 1..]) + ("\n}" + tail);
      assert Body(es[j..]) + "\n}" + tail == Body(es[j..]) + ("\n}" + tail);
    }
  }

  lemma {:induction false} Shift(a: string, b: string, c: string, d: string)
    ensures a + ((b + ",\n" + c) + d) == (a + b + ",\n") + (c + d)
  {
  }

  lemma {:induction false} CutText(es: seq<Entry>, j: nat, tail: string)
    requires j < |es|
    ensures Text(es, tail) == Before(es, j) + (MemberText(es[j]) + After(es, j, tail))
  {
    CutBody(es, j, tail);
    CutFirst(es[j..], tail);
    if j + 1 < |es| {
      assert es[j..][1..] == es[j + 1..];
    }
  }

  lemma {:induction false} CutFirst(es: seq<Entry>, tail: string)
    requires es != []
    ensures Body(es) + "\n}" + tail == MemberText(es[0]) + After(es, 0, tail)
  {
    if |es| > 1 {
      CutRest(MemberText(es[0]), Body(es[1..]), tail);
    } else {
      Associate(MemberText(es[0]), "\n}", tail);
    }
  }

  lemma {:induction false} Associate(a: string, b: string, c: string)
    ensures a + b + c == a + (b + c)
  {
  }

  lemma {:induction false} CutRest(a: string, b: string, tail: string)
    ensures (a + ",\n" + b) + "\n}" + tail == a + (",\n" + b + "\n}" + tail)
  {
  }

  lemma {:induction false} BeforeEnds(es: seq<Entry>, j: nat)
    requires j <= |es|
    ensures |Before(es, j)| > 0 && Before(es, j)[|Before(es, j)| - 1] == '\n'
  {
  }

  // ----- the pattern can only match a member of that spelling ------------------------------------------

  /** String literals are prefix free: one that begins with the text of a name is that text. */
  lemma {:induction false} LiteralPrefix(key: string, name: string, after: string, s: string)
    requires KeyLiteral(key) && s == key + after && KeyText(name) <= s
    ensures key == KeyText(name)
  {
    var n := |KeyText(name)|;
    assert s == KeyText(name) + s[n..];
    QuoteRoundTrip(name, true, s[n..]);
    StringExtends(key, after);
    assert [] + after == after;
    assert s[..|key|] == key;
  }

  lemma {:induction false} UnderIndent(key: string, s: string)
    requires "  " + key + ":" <= "  " + s
    ensures key <= s
  {
    var pattern := "  " + key + ":";
    assert ("  " + s)[..|pattern|] == pattern;
    assert forall k | 0 <= k < |key| :: s[k] == ("  " + s)[k + 2] == pattern[k + 2] == key[k];
  }

  /** What matches the pattern at a member is that member's key. */
  lemma {:induction false} KeyMatches(e: Entry, name: string, rest: string)
    requires KeyLiteral(e.key)
    ensures KeyPattern(name) <= MemberText(e) + rest <==> e.key == KeyText(name)
  {
    var after := ": " + e.text + rest;
    var s := e.key + after;
    assert MemberText(e) + rest == "  " + s;
    if e.key == KeyText(name) {
      assert "  " + s == KeyPattern(name) + (" " + e.text + rest);
    }
    if KeyPattern(name) <= MemberText(e) + rest {
      UnderIndent(KeyText(name), s);
      LiteralPrefix(e.key, name, after, s);
    }
  }

  lemma {:induction false} KeyOneLine(key: string)
    requires KeyLiteral(key)
    ensures forall i | 0 <= i < |key| :: key[i] != '\n'
  {
    CharsVisible(key[1..]);
    assert forall i | 1 <= i < |key| :: key[i] == key[1..][i - 1];
  }

  lemma {:induction false} PatternStart(s: string, i: nat, name: string)
    requires AtLine(s, i, KeyPattern(name))
    ensures KeyStart(s, i)
  {
    var pattern := KeyPattern(name);
    assert pattern[0] == ' ' && pattern[1] == ' ' && pattern[2] == '\"';
    assert s[i..][..|pattern|] == pattern;
  }

  lemma {:induction false} NewlineInText(e: Entry, p: nat)
    requires KeyLiteral(e.key) && p < |MemberText(e)| && MemberText(e)[p] == '\n'
    ensures var q := p - |e.key| - 4; 0 <= q < |e.text| && e.text[q] == '\n'
  {
    KeyOneLine(e.key);
  }

  lemma {:induction false} TextScan(text: string, after: string, q: nat)
    requires ValueText(text) && after != [] && after[0] != ' ' && q < |text| && text[q] == '\n'
    ensures !KeyStart(text + after, q + 1)
  {
    var t := text + after;
    assert t[|text|] == after[0];
    assert t[|text| - 1] == text[|text| - 1];
    assert !KeyStart(text, q + 1);
  }

  lemma {:induction false} KeyStartShift(a: string, b: string, i: nat)
    ensures KeyStart(a + b, |a| + i) <==> KeyStart(b, i)
  {
  }

  /** Inside the text of one member no line starts like the pattern, except at its own key. */
  lemma {:induction false} InsideScan(before: string, e: Entry, after: string, name: string, i: nat)
    requires ValidEntry(e) && after != [] && after[0] != ' '
    requires |before| < i <= |before| + |MemberText(e)|
    ensures !AtLine(before + (MemberText(e) + after), i, KeyPattern(name))
  {
    var m := MemberText(e);
    var s := before + (m + after);
    var p := i - 1 - |before|;
    assert s[i - 1] == m[p];
    if m[p] == '\n' {
      NewlineInText(e, p);
      var q := p - |e.key| - 4;
      var head := before + ("  " + e.key + ": ");
      assert s == head + (e.text + after);
      TextScan(e.text, after, q);
      KeyStartShift(head, e.text + after, q + 1);
      if AtLine(s, i, KeyPattern(name)) {
        PatternStart(s, i, name);
      }
    }
  }

  lemma {:induction false} OwnScan(before: string, e: Entry, after: string, name: string)
    requires ValidEntry(e) && before != [] && before[|before| - 1] == '\n'
    ensures AtLine(before + (MemberText(e) + after), |before|, KeyPattern(name)) <==> e.key == KeyText(name)
  {
    var s := before + (MemberText(e) + after);
    assert s[|before|..] == MemberText(e) + after;
    KeyMatches(e, name, after);
  }

  lemma {:induction false} TailScan(before: string, tail: string, name: string, i: nat)
    requires forall k | 0 <= k < |tail| :: IsBlank(tail[k])
    requires |before| < i
    ensures !AtLine(before + ("\n}" + tail), i, KeyPattern(name))
  {
    var s := before + ("\n}" + tail);
    if AtLine(s, i, KeyPattern(name)) {
      PatternStart(s, i, name);
    }
  }

  lemma {:induction false} ScanOpening(rest: string, name: string, i: nat)
    requires i < 2
    ensures !AtLine("{\n" + rest, i, KeyPattern(name))
  {
    var s := "{\n" + rest;
    assert s[0] == '{' && s[1] == '\n';
    if AtLine(s, i, KeyPattern(name)) {
      PatternStart(s, i, name);
    }
  }

  lemma {:induction false} CommaScan(before: string, member: string, after: string, name: string)
    requires |after| > 1 && after[1] == '\n'
    ensures !AtLine(before + (member + after), |before| + |member| + 1, KeyPattern(name))
  {
    var s, i := before + (member + after), |before| + |member| + 1;
    assert s[i] == after[1];
    if AtLine(s, i, KeyPattern(name)) {
      PatternStart(s, i, name);
    }
  }

  /** No match in a member of another spelling, up to the line break after it. */
  lemma {:induction false} ScanMember(before: string, e: Entry, after: string, name: string, i: nat)
    requires ValidEntry(e) && e.key != KeyText(name) && before != [] && before[|before| - 1] == '\n'
    requires |after| > 1 && after[0] == ',' && after[1] == '\n'
    requires |before| <= i <= |before| + |MemberText(e)| + 1
    ensures !AtLine(before + (MemberText(e) + after), i, KeyPattern(name))
  {
    if i == |before| {
      OwnScan(before, e, after, name);
    } else if i <= |before| + |MemberText(e)| {
      InsideScan(before, e, after, name, i);
    } else {
      CommaScan(before, MemberText(e), after, name);
    }
  }

  /** No match in member `j` and the line break after it, when it is spelled otherwise and not the last. */
  lemma {:induction false} ScanThis(es: seq<Entry>, j: nat, tail: string, name: string, i: nat)
    requires ValidEntries(es) && j + 1 < |es| && es[j].key != KeyText(name)
    requires |Before(es, j)| <= i <= |Before(es, j)| + |MemberText(es[j])| + 1
    ensures !AtLine(Text(es, tail), i, KeyPattern(name))
  {
    CutText(es, j, tail);
    BeforeEnds(es, j);
    AfterStarts(es, j, tail);
    assert ValidEntry(es[j]);
    ScanMember(Before(es, j), es[j], After(es, j, tail), name, i);
  }

  lemma {:induction false} ScanFirst(es: seq<Entry>, tail: string, name: string, i: nat)
    requires es != [] && i < 2
    ensures !AtLine(Text(es, tail), i, KeyPattern(name))
  {
    CutText(es, 0, tail);
    ScanOpening(MemberText(es[0]) + After(es, 0, tail), name, i);
  }

  lemma {:induction false} BeforeLength(es: seq<Entry>, j: nat)
    requires j <= |es|
    ensures |Before(es, j)| == if j == 0 then 2 else |Before(es, j - 1)| + |MemberText(es[j - 1])| + 2
  {
  }

  /** The member in whose text, or line break, a position before member `j` lies. */
  lemma {:induction false} Locate(es: seq<Entry>, j: nat, i: nat) returns (m: nat)
    requires j <= |es| && 2 <= i < |Before(es, j)|
    ensures m < j && |Before(es, m)| <= i <= |Before(es, m)| + |MemberText(es[m])| + 1
  {
    BeforeLength(es, j);
    if i < |Before(es, j - 1)| {
      m := Locate(es, j - 1, i);
    } else {
      m := j - 1;
    }
  }

  /** No match before member `j` when no earlier member is spelled like the name. */
  lemma {:induction false} ScanBefore(es: seq<Entry>, j: nat, tail: string, name: string, i: nat)
    requires ValidEntries(es) && j < |es| && i < |Before(es, j)|
    requires forall k | 0 <= k < j :: es[k].key != KeyText(name)
    ensures !AtLine(Text(es, tail), i, KeyPattern(name))
  {
    if i < 2 {
      ScanFirst(es, tail, name, i);
    } else {
      var m := Locate(es, j, i);
      ScanThis(es, m, tail, name, i);
    }
  }

  /** No match at all when no member is spelled like the name. */
  lemma {:induction false} ScanAll(es: seq<Entry>, tail: string, name: string, i: nat)
    requires ValidEntries(es) && es != [] && forall k | 0 <= k < |tail| :: IsBlank(tail[k])
    requires forall k | 0 <= k < |es| :: es[k].key != KeyText(name)
    ensures !AtLine(Text(es, tail), i, KeyPattern(name))
  {
    var j := |es| - 1;
    var before, e, after := Before(es, j), es[j], After(es, j, tail);
    CutText(es, j, tail);
    BeforeEnds(es, j);
    if i < |before| {
      ScanBefore(es, j, tail, name, i);
    } else if i == |before| {
      OwnScan(before, e, after, name);
    } else if i <= |before| + |MemberText(e)| {
      InsideScan(before, e, after, name, i);
    } else {
      assert Text(es, tail) == (before + MemberText(e)) + after;
      TailScan(before + MemberText(e), tail, name, i);
    }
  }

  /** The search finds exactly the first member spelled like the name. */
  lemma {:induction false} FindMember(es: seq<Entry>, tail: string, name: string)
    requires ValidEntries(es) && es != [] && forall k | 0 <= k < |tail| :: IsBlank(tail[k])
    ensures var j := FirstSpelled(es, KeyText(name));
            Search(Text(es, tail), KeyPattern(name)) == if j < |es| then Some(|Before(es, j)|) else None
  {
    var j := FirstSpelled(es, KeyText(name));
    var s := Text(es, tail);
    if j < |es| {
      CutText(es, j, tail);
      BeforeEnds(es, j);
      OwnScan(Before(es, j), es[j], After(es, j, tail), name);
      forall i | 0 <= i < |Before(es, j)| ensures !AtLine(s, i, KeyPattern(name)) {
        ScanBefore(es, j, tail, name, i);
      }
    } else {
      forall i: nat ensures !AtLine(s, i, KeyPattern(name)) {
        ScanAll(es, tail, name, i);
      }
    }
  }

  // ----- the two branches ----------------------------------------------------------------------------

  lemma {:induction false} ValueStarts(text: string)
    requires ParseValue(text).Some?
    ensures !IsSpace(text[0])
  {
    if text[0] !in "\"[{ntf" {
      NumberStarts(text);
    }
  }

  lemma {:induction false} BeforeSame(es: seq<Entry>, es': seq<Entry>, j: nat)
    requires j <= |es| && j <= |es'| && forall i | 0 <= i < j :: es[i] == es'[i]
    ensures Before(es, j) == Before(es', j)
  {
    if j > 0 {
      BeforeSame(es, es', j - 1);
    }
  }

  lemma {:induction false} ReplaceCut(head: string, text: string, after: string, rendered: string)
    ensures (head + (text + after))[|head|..] == text + after
    ensures Replaced(head + (text + after), |head|, |after|, rendered) == head + rendered + after
  {
    var source := head + (text + after);
    assert source[..|head|] == head && source[|source| - |after|..] == after;
  }

  lemma {:induction false} ReplaceFound(head: string, text: string, after: string, colon: nat, rendered: string)
    requires colon <= |head + (text + after)|
    requires SkipSpaces((head + (text + after))[colon..]) == text + after
    requires ValueText(text) && after != [] && after[0] in ",\n"
    ensures ReplaceValue(head + (text + after), colon, rendered) == Some(head + rendered + after)
  {
    ReplaceCut(head, text, after, rendered);
    ReadEntry(text, after);
  }

  /** What the replace branch computes, given where the member's value stands. */
  lemma {:induction false} ReplaceIn(head: string, text: string, after: string, rendered: string)
    requires ValueText(text) && after != [] && after[0] in ",\n"
    ensures |head| <= |(head + " ") + (text + after)|
    ensures ReplaceValue((head + " ") + (text + after), |head|, rendered)
         == Some((head + " ") + rendered + after)
  {
    SkipGap(head, text, after);
    ReplaceFound(head + " ", text, after, |head|, rendered);
  }

  lemma {:induction false} TextAt(es: seq<Entry>, j: nat, tail: string, name: string)
    requires j < |es| && es[j].key == KeyText(name)
    ensures Text(es, tail) == (Before(es, j) + KeyPattern(name) + " ") + (es[j].text + After(es, j, tail))
  {
    CutText(es, j, tail);
    SplitMember(Before(es, j), es[j], After(es, j, tail), name);
  }

  lemma {:induction false} SkipGap(head: string, text: string, after: string)
    requires ParseValue(text).Some?
    ensures |head| <= |(head + " ") + (text + after)|
    ensures SkipSpaces(((head + " ") + (text + after))[|head|..]) == text + after
  {
    var value := text + after;
    ValueStarts(text);
    assert ((head + " ") + value)[|head|..] == " " + value;
    assert (" " + value)[1..] == value;
  }

  lemma {:induction false} ReadEntry(text: string, after: string)
    requires ValueText(text) && after != [] && after[0] in ",\n"
    ensures ParseValue(text + after) == Some((ParseValue(text).value.0, after))
  {
    assert [] + after == after;
    ValueExtends(text, after);
  }

  lemma {:induction false} SplitMember(before: string, e: Entry, after: string, name: string)
    requires e.key == KeyText(name)
    ensures before + (MemberText(e) + after) == (before + KeyPattern(name) + " ") + (e.text + after)
  {
  }

  lemma {:induction false} BodyAppend(es: seq<Entry>, e: Entry)
    requires es != []
    ensures Body(es + [e]) == Body(es) + ",\n" + MemberText(e)
  {
    var all := es + [e];
    if |es| == 1 {
      assert all[1..] == [e];
    } else {
      assert all[1..] == es[1..] + [e];
      BodyAppend(es[1..], e);
      BodyAppendStep(MemberText(es[0]), Body(es[1..]), MemberText(e));
    }
  }

  lemma {:induction false} BodyAppendStep(a: string, b: string, c: string)
    ensures a + ",\n" + (b + ",\n" + c) == (a + ",\n" + b) + ",\n" + c
  {
  }

  lemma {:induction false} BodyEnds(es: seq<Entry>)
    requires es != [] && ValidEntries(es)
    ensures Body(es) != [] && !IsSpace(Body(es)[|Body(es)| - 1])
  {
    if |es| > 1 {
      BodyEnds(es[1..]);
    }
  }

  lemma {:induction false} RightStripOver(s: string, blanks: string)
    requires s != [] && !IsSpace(s[|s| - 1]) && forall k | 0 <= k < |blanks| :: IsSpace(blanks[k])
    ensures RightStrip(s + blanks) == s
  {
    if blanks == [] {
      assert s + blanks == s;
    } else {
      var n := |blanks| - 1;
      assert (s + blanks)[..|s| + n] == s + blanks[..n];
      RightStripOver(s, blanks[..n]);
    }
  }

  /** What the append branch computes, given that the search fails. */
  lemma {:induction false} AppendAt(es: seq<Entry>, tail: string, name: string, entry: Json)
    requires es != [] && ValidEntries(es) && forall k | 0 <= k < |tail| :: IsBlank(tail[k])
    requires Search(Text(es, tail), KeyPattern(name)) == None
    ensures Splice(Text(es, tail), name, entry)
         == Some(Text(es + [Entry(KeyText(name), Rendered(entry))], "\n"))
  {
    var body := "{\n" + Body(es);
    BodyEnds(es);
    RightStripOver(body + "\n}", tail);
    assert DropLast(body + "\n}") == body + "\n";
    RightStripOver(body, "\n");
    BodyAppend(es, Entry(KeyText(name), Rendered(entry)));
    AppendShape("{\n", Body(es), KeyText(name), Rendered(entry));
  }

  lemma {:induction false} AppendShape(open: string, body: string, key: string, text: string)
    ensures open + body + ",\n  " + key + ": " + text + "\n}\n"
         == open + (body + ",\n" + ("  " + key + ": " + text)) + "\n}" + "\n"
  {
  }

  lemma {:induction false} PutValid(es: seq<Entry>, name: string, entry: Json)
    requires ValidEntries(es) && WellFormed(entry)
    ensures ValidEntries(Put(es, name, entry))
  {
    RenderedEntryValid(name, entry);
  }

  lemma {:induction false} AfterStarts(es: seq<Entry>, j: nat, tail: string)
    requires j < |es|
    ensures After(es, j, tail) != [] && After(es, j, tail)[0] in ",\n"
    ensures j + 1 < |es| ==> |After(es, j, tail)| > 1 && After(es, j, tail)[0] == ',' && After(es, j, tail)[1] == '\n'
  {
  }

  /** The replace branch, on a text cut at the member and at its value. */
  lemma {:induction false} ReplaceShape(source: string, before: string, pattern: string, text: string, after: string,
                                        rendered: string, target: string)
    requires source == (before + pattern + " ") + (text + after)
    requires target == (before + pattern + " ") + (rendered + after)
    requires ValueText(text) && after != [] && after[0] in ",\n"
    ensures |before| + |pattern| <= |source|
    ensures ReplaceValue(source, |before| + |pattern|, rendered) == Some(target)
  {
    ReplaceIn(before + pattern, text, after, rendered);
    Associate(before + pattern + " ", rendered, after);
  }

  /** The file with another value for member `j`, cut at that member. */
  lemma {:induction false} TextWith(es: seq<Entry>, j: nat, tail: string, name: string, rendered: string)
    requires j < |es|
    ensures Text(es[j := Entry(KeyText(name), rendered)], tail)
         == (Before(es, j) + KeyPattern(name) + " ") + (rendered + After(es, j, tail))
  {
    var es' := es[j := Entry(KeyText(name), rendered)];
    AfterSame(es, es', j, tail);
    TextAt(es', j, tail, name);
  }

  lemma {:induction false} SpliceFound(source: string, i: nat, width: nat, key: string, rendered: string,
                                       target: string)
    requires i + width <= |source| && ReplaceValue(source, i + width, rendered) == Some(target)
    ensures SpliceAt(source, Some(i), width, key, rendered) == Some(target)
  {
  }

  /** The file and the file with another value for member `j`, cut at that member and its value. */
  lemma {:induction false} CutFile(es: seq<Entry>, tail: string, name: string, rendered: string,
                                   j: nat) returns (before: string, after: string)
    requires j < |es| && es[j].key == KeyText(name)
    ensures before == Before(es, j) && after != [] && after[0] in ",\n"
    ensures Text(es, tail) == (before + KeyPattern(name) + " ") + (es[j].text + after)
    ensures Text(es[j := Entry(KeyText(name), rendered)], tail)
            == (before + KeyPattern(name) + " ") + (rendered + after)
  {
    before, after := Before(es, j), After(es, j, tail);
    TextAt(es, j, tail, name);
    TextWith(es, j, tail, name, rendered);
    AfterStarts(es, j, tail);
  }

  lemma {:induction false} ReplaceIsPut(es: seq<Entry>, tail: string, name: string, rendered: string, j: nat)
    requires ValidEntries(es) && j < |es| && es[j].key == KeyText(name)
    requires Search(Text(es, tail), KeyPattern(name)) == Some(|Before(es, j)|)
    ensures SpliceText(Text(es, tail), KeyPattern(name), KeyText(name), rendered)
         == Some(Text(es[j := Entry(KeyText(name), rendered)], tail))
  {
    var before, after := CutFile(es, tail, name, rendered, j);
    assert Search(Text(es, tail), KeyPattern(name)) == Some(|before|);
    assert ValidEntry(es[j]);
    SpliceShape(Text(es, tail), before, KeyPattern(name), KeyText(name), es[j].text, after, rendered,
                Text(es[j := Entry(KeyText(name), rendered)], tail));
  }

  lemma {:induction false} SpliceShape(source: string, before: string, pattern: string, key: string, text: string,
                                       after: string,
                                       rendered: string, target: string)
    requires source == (before + pattern + " ") + (text + after)
    requires target == (before + pattern + " ") + (rendered + after)
    requires ValueText(text) && after != [] && after[0] in ",\n"
    requires Search(source, pattern) == Some(|before|)
    ensures SpliceText(source, pattern, key, rendered) == Some(target)
  {
    ReplaceShape(source, before, pattern, text, after, rendered, target);
    SpliceFound(source, |before|, |pattern|, key, rendered, target);
  }

  lemma {:induction false} AfterSame(es: seq<Entry>, es': seq<Entry>, j: nat, tail: string)
    requires j < |es| == |es'| && forall i | 0 <= i < |es| && i != j :: es[i] == es'[i]
    ensures Before(es, j) == Before(es', j) && After(es, j, tail) == After(es', j, tail)
  {
    BeforeSame(es, es', j);
    assert es'[j + 1..] == es[j + 1..];
  }

  /**
   One iteration on the text is one update of the member list.  The member spelled like the name
   is replaced where it stands; without one, the new member goes last.
   */
  lemma {:induction false} SpliceIsPut(es: seq<Entry>, tail: string, name: string, entry: Json)
    requires es != [] && ValidEntries(es) && forall k | 0 <= k < |tail| :: IsBlank(tail[k])
    requires WellFormed(entry)
    ensures Splice(Text(es, tail), name, entry)
         == Some(Text(Put(es, name, entry), PutTail(es, tail, name)))
    ensures ValidEntries(Put(es, name, entry))
  {
    PutValid(es, name, entry);
    FindMember(es, tail, name);
    var j := FirstSpelled(es, KeyText(name));
    if j < |es| {
      ReplaceIsPut(es, tail, name, Rendered(entry), j);
    } else {
      AppendAt(es, tail, name, entry);
    }
  }
}
