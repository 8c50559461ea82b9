/** What the spliced text means to json.loads. */
module CatalogMeaning {
  import opened Options
  import opened Json
  import opened JsonRoundTrip
  import opened JsonExtension
  import opened CatalogText
  import opened CatalogLayout
  import opened CatalogSplice

  predicate Blanks(tail: string) { forall k | 0 <= k < |tail| :: IsBlank(tail[k]) }

  // ----- the file decodes to its members ---------------------------------------------------------------

  lemma {:induction false} MemberMeaning(e: Entry, rest: string)
    requires ValidEntry(e) && EndsNumber(rest)
    ensures ParseMember(e.key + (":" + (" " + (e.text + rest)))) == Some((Meaning(e), rest))
  {
    var value := e.text + rest;
    StringExtends(e.key, ":" + (" " + value));
    assert [] + (":" + (" " + value)) == ":" + (" " + value);
    ValueBefore(e.text, rest);
    ReadMember(e.key + (":" + (" " + value)), Meaning(e).key, " " + value, Meaning(e).value, rest);
  }

  lemma {:induction false} ValueBefore(text: string, rest: string)
    requires ValueText(text) && EndsNumber(rest)
    ensures ParseValue(SkipBlanks(" " + (text + rest))) == Some((ParseValue(text).value.0, rest))
  {
    var value := text + rest;
    ValueStarts(text);
    assert (" " + value)[1..] == value;
    assert SkipBlanks(" " + value) == value;
    assert [] + rest == rest;
    ValueExtends(text, rest);
  }

  lemma {:induction false} BodyStart(e: Entry, rest: string)
    requires KeyLiteral(e.key)
    ensures SkipBlanks(MemberText(e) + rest) == e.key + (":" + (" " + (e.text + rest)))
  {
    var s := e.key + (":" + (" " + (e.text + rest)));
    assert MemberText(e) + rest == "  " + s;
    SkipBlanksOver("  ", s);
  }

  lemma {:induction false} BodyMeaning(es: seq<Entry>, tail: string)
    requires es != [] && ValidEntries(es)
    ensures ParseMembers(SkipBlanks(Body(es) + "\n}" + tail)) == Some((Catalog(es), tail))
  {
    BodyFirst(es, tail);
    if |es| == 1 {
      LastOfBody(SkipBlanks(Body(es) + "\n}" + tail), Meaning(es[0]), tail);
      assert Catalog(es) == [Meaning(es[0])];
    } else {
      BodyMeaning(es[1..], tail);
      BodyNext(es, tail);
    }
  }

  lemma {:induction false} BodyNext(es: seq<Entry>, tail: string)
    requires |es| > 1 && ValidEntries(es)
    requires ParseMember(SkipBlanks(Body(es) + "\n}" + tail)) == Some((Meaning(es[0]), After(es, 0, tail)))
    requires ParseMembers(SkipBlanks(Body(es[1..]) + "\n}" + tail)) == Some((Catalog(es[1..]), tail))
    ensures ParseMembers(SkipBlanks(Body(es) + "\n}" + tail)) == Some((Catalog(es), tail))
  {
    AfterFirst(Body(es[1..]), tail);
    CatalogCons(es);
    NextOfBody(SkipBlanks(Body(es) + "\n}" + tail), Meaning(es[0]), Body(es[1..]) + "\n}" + tail, Catalog(es[1..]),
      tail);
  }

  lemma {:induction false} CatalogCons(es: seq<Entry>)
    requires es != [] && ValidEntries(es)
    ensures Catalog(es) == [Meaning(es[0])] + Catalog(es[1..])
  {
  }

  lemma {:induction false} BodyFirst(es: seq<Entry>, tail: string)
    requires es != [] && ValidEntries(es)
    ensures ParseMember(SkipBlanks(Body(es) + "\n}" + tail)) == Some((Meaning(es[0]), After(es, 0, tail)))
  {
    CutFirst(es, tail);
    BodyStart(es[0], After(es, 0, tail));
    MemberMeaning(es[0], After(es, 0, tail));
  }

  lemma {:induction false} AfterFirst(body: string, tail: string)
    ensures ",\n" + body + "\n}" + tail == "," + ("\n" + (body + "\n}" + tail))
  {
  }

  lemma {:induction false} LastOfBody(s: string, m: Member, tail: string)
    requires ParseMember(s) == Some((m, "\n}" + tail))
    ensures ParseMembers(s) == Some(([m], tail))
  {
    assert "\n}" + tail == "\n" + ("}" + tail);
    SkipBlanksOver("\n", "}" + tail);
    ReadLastMember(s, m, "\n}" + tail, tail);
  }

  lemma {:induction false} NextOfBody(s: string, m: Member, body: string, ms: seq<Member>, tail: string)
    requires ParseMember(s) == Some((m, "," + ("\n" + body)))
    requires ParseMembers(SkipBlanks(body)) == Some((ms, tail))
    ensures ParseMembers(s) == Some(([m] + ms, tail))
  {
    SkipBlanksOver("\n", body);
    CommaStays("\n" + body);
    ReadNextMember(s, m, "," + ("\n" + body), "\n" + body, ms, tail);
  }

  lemma {:induction false} CommaStays(more: string)
    ensures SkipBlanks("," + more) == "," + more
  {
  }

  /** json.loads of the file gives its members in file order. */
  lemma {:induction false} TextMeaning(es: seq<Entry>, tail: string)
    requires es != [] && ValidEntries(es) && Blanks(tail)
    ensures Loads(Text(es, tail)) == Some(Obj(Catalog(es)))
  {
    var s := Text(es, tail);
    var body := Body(es) + "\n}" + tail;
    TextStart(es, tail);
    BodyMeaning(es, tail);
    SkipBlanksOver("\n", body);
    assert SkipBlanks(s) == s;
    BodyInner(es, tail);
    ReadObject(s, SkipBlanks(body), Catalog(es), tail);
    SkipBlanksOver(tail, []);
    AppendNothing(tail);
  }

  lemma {:induction false} TextStart(es: seq<Entry>, tail: string)
    requires es != []
    ensures var s := Text(es, tail); s[0] == '{' && s[1..] == "\n" + (Body(es) + "\n}" + tail)
  {
  }

  lemma {:induction false} BodyInner(es: seq<Entry>, tail: string)
    requires es != [] && ValidEntries(es)
    ensures var inner := SkipBlanks(Body(es) + "\n}" + tail); inner != [] && inner[0] == '\"'
  {
    CutFirst(es, tail);
    BodyStart(es[0], After(es, 0, tail));
  }

  // ----- the update, member by member --------------------------------------------------------------------

  /** No member after the one that the splice writes decodes to the same name. */
  predicate Unshadowed(es: seq<Entry>, name: string)
    requires ValidEntries(es)
  {
    forall i | FirstSpelled(es, KeyText(name)) < i < |es| :: Meaning(es[i]).key != name
  }

  lemma {:induction false} LookupLast(ms: seq<Member>, key: string, i: nat)
    requires i < |ms| && ms[i].key == key && forall k | i < k < |ms| :: ms[k].key != key
    ensures Lookup(ms, key) == Some(ms[i].value)
  {
    if i + 1 < |ms| {
      LookupLast(ms[..|ms| - 1], key, i);
    }
  }

  lemma {:induction false} LookupUpdated(ms: seq<Member>, j: nat, m: Member, key: string)
    requires j < |ms| && ms[j].key == m.key
    requires key != m.key || exists k | j < k < |ms| :: ms[k].key == key
    ensures Lookup(ms[j := m], key) == Lookup(ms, key)
  {
    var ms' := ms[j := m];
    var n := |ms| - 1;
    if j < n {
      assert ms'[..n] == ms[..n][j := m];
      if ms[n].key != key {
        LookupUpdated(ms[..n], j, m, key);
      }
    } else {
      assert ms'[..n] == ms[..n];
    }
  }

  /** The member list after the update: the same keys in the same order, and one new value. */
  lemma {:induction false} PutCatalog(es: seq<Entry>, name: string, entry: Json)
    requires ValidEntries(es) && WellFormed(entry)
    ensures ValidEntries(Put(es, name, entry))
    ensures var j := FirstSpelled(es, KeyText(name));
            var m := Member(name, entry);
            && (j < |es| ==> Catalog(es)[j].key == name)
            && Catalog(Put(es, name, entry)) == if j < |es| then Catalog(es)[j := m] else Catalog(es) + [m]
  {
    PutValid(es, name, entry);
    RenderedEntryValid(name, entry);
    KeyTextValid(name);
  }

  /** Every other name keeps its value. */
  lemma {:induction false} PutKeepsOthers(es: seq<Entry>, name: string, entry: Json, other: string)
    requires ValidEntries(es) && WellFormed(entry) && other != name
    ensures ValidEntries(Put(es, name, entry))
    ensures Lookup(Catalog(Put(es, name, entry)), other) == Lookup(Catalog(es), other)
  {
    PutCatalog(es, name, entry);
    var j := FirstSpelled(es, KeyText(name));
    if j < |es| {
      LookupUpdated(Catalog(es), j, Member(name, entry), other);
    } else {
      assert (Catalog(es) + [Member(name, entry)])[..|es|] == Catalog(es);
    }
  }

  /** The name gets the entry exactly when no later spelling of it shadows the spliced member. */
  lemma {:induction false} PutSets(es: seq<Entry>, name: string, entry: Json)
    requires ValidEntries(es) && WellFormed(entry)
    ensures ValidEntries(Put(es, name, entry))
    ensures Lookup(Catalog(Put(es, name, entry)), name)
         == if Unshadowed(es, name) then Some(entry) else Lookup(Catalog(es), name)
  {
    PutCatalog(es, name, entry);
    var j := FirstSpelled(es, KeyText(name));
    var m := Member(name, entry);
    if j < |es| {
      if Unshadowed(es, name) {
        LookupLast(Catalog(es)[j := m], name, j);
      } else {
        var k :| j < k < |es| && Meaning(es[k]).key == name;
        assert Catalog(es)[k].key == name;
        LookupUpdated(Catalog(es), j, m, name);
      }
    } else {
      LookupLast(Catalog(es) + [m], name, |es|);
    }
  }

  /**
   The splice as json.loads sees it: the old members in the old order, the name added last if it
   was not spelled, every other name with its old value, and the name with the entry unless a
   later duplicate spelling shadows it.
   */
  lemma {:induction false} SpliceMeaning(es: seq<Entry>, tail: string, name: string, entry: Json)
    requires es != [] && ValidEntries(es) && Blanks(tail) && WellFormed(entry)
    ensures var text := Splice(Text(es, tail), name, entry);
            && text.Some? && Loads(text.value).Some? && Loads(text.value).value.Obj?
            && var ms := Loads(text.value).value.members;
            && (forall i | 0 <= i < |es| :: i < |ms| && ms[i].key == Catalog(es)[i].key)
            && (|ms| == |es| || (|ms| == |es| + 1 && ms[|es|].key == name))
            && (forall other | other != name :: Lookup(ms, other) == Lookup(Catalog(es), other))
            && (Lookup(ms, name) == Some(entry)
                <==> Unshadowed(es, name) || Lookup(Catalog(es), name) == Some(entry))
  {
    SplicedText(es, tail, name, entry);
    PutCatalog(es, name, entry);
    PutSets(es, name, entry);
    forall other | other != name
      ensures Lookup(Catalog(Put(es, name, entry)), other) == Lookup(Catalog(es), other)
    {
      PutKeepsOthers(es, name, entry, other);
    }
  }

  lemma {:induction false} SplicedText(es: seq<Entry>, tail: string, name: string, entry: Json)
    requires es != [] && ValidEntries(es) && Blanks(tail) && WellFormed(entry)
    ensures ValidEntries(Put(es, name, entry))
    ensures var text := Splice(Text(es, tail), name, entry);
            text.Some? && Loads(text.value) == Some(Obj(Catalog(Put(es, name, entry))))
  {
    SpliceIsPut(es, tail, name, entry);
    TextMeaning(Put(es, name, entry), PutTail(es, tail, name));
  }

  // ----- where the iteration goes wrong ------------------------------------------------------------------

  lemma {:induction false} EmptyIsScannedInVain(tail: string, name: string)
    requires Blanks(tail)
    ensures Search(Text([], tail), KeyPattern(name)) == None
  {
    var s := Text([], tail);
    forall i: nat ensures !AtLine(s, i, KeyPattern(name)) {
      if AtLine(s, i, KeyPattern(name)) {
        PatternStart(s, i, name);
      }
    }
  }

  /** On an empty top-level object every splice writes text that no longer decodes. */
  lemma {:induction false} EmptyCatalogBreaks(tail: string, name: string, entry: Json)
    requires Blanks(tail)
    ensures Splice(Text([], tail), name, entry).Some?
    ensures Loads(Splice(Text([], tail), name, entry).value) == None
  {
    EmptyIsScannedInVain(tail, name);
    AppendToEmpty(tail, KeyText(name), Rendered(entry));
    CommaFirst("\n  " + KeyText(name) + ": " + Rendered(entry) + "\n}\n");
  }

  lemma {:induction false} AppendToEmpty(tail: string, key: string, text: string)
    requires Blanks(tail)
    ensures AppendMember("{\n}" + tail, key, text) == "{" + ("," + ("\n  " + key + ": " + text + "\n}\n"))
  {
    RightStripOver("{\n}", tail);
    assert DropLast("{\n}") == "{" + "\n";
    RightStripOver("{", "\n");
  }

  lemma {:induction false} CommaFirst(rest: string)
    ensures Loads("{" + ("," + rest)) == None
  {
    var s := "{" + ("," + rest);
    assert s[1..] == "," + rest;
    assert SkipBlanks(s) == s && SkipBlanks(s[1..]) == s[1..];
    assert ParseString("," + rest) == None;
    assert ParseMember("," + rest) == None;
    assert ParseMembers("," + rest) == None;
  }
}
