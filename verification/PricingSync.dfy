/** tools/generate_model_pricing_defaults.py: a whole run, and what its --check mode makes of it. */
module PricingSync {
  import opened Options
  import opened Json
  import opened PyDict
  import opened CatalogText
  import opened CatalogLayout
  import opened CatalogSplice
  import opened CatalogMeaning

  datatype Outcome =
    | Written(text: string)
    | InSync
    | OutOfSync(name: string)
    | Invalid

  /** The write loop on the text; None is an exception from raw_decode. */
  function SpliceAll(source: string, models: seq<Member>): Option<string>
    decreases |models|
  {
    if models == [] then Some(source)
    else
      var text :- Splice(source, models[0].key, models[0].value);
      SpliceAll(text, models[1..])
  }

  /** The first model whose catalog value differs, if any. */
  function FirstStale(catalog: seq<Member>, models: seq<Member>): Option<string> {
    if models == [] then None
    else if Lookup(catalog, models[0].key) != Some(models[0].value) then Some(models[0].key)
    else FirstStale(catalog, models[1..])
  }

  function Run(source: string, models: seq<Member>, check: bool): Outcome {
    var loaded := Loads(source);
    if loaded.None? || !loaded.value.Obj? then Invalid
    else if check then
      var stale := FirstStale(loaded.value.members, models);
      if stale.None? then InSync else OutOfSync(stale.value)
    else
      var text := SpliceAll(source, models);
      if text.None? then Invalid else Written(text.value)
  }

  /** main(): `source` is the text of the target file and `models` the items of the defaults. */
  method Sync(source: string, models: seq<Member>, check: bool) returns (outcome: Outcome)
    ensures outcome == Run(source, models, check)
  {
    var loaded := Loads(source);
    if loaded.None? || !loaded.value.Obj? {
      return Invalid;
    }
    var catalog := loaded.value.members;
    if check {
      for i := 0 to |models|
        invariant FirstStale(catalog, models) == FirstStale(catalog, models[i..])
      {
        if Lookup(catalog, models[i].key) != Some(models[i].value) {
          return OutOfSync(models[i].key);
        }
      }
      return InSync;
    }
    var text := source;
    for i := 0 to |models|
      invariant SpliceAll(source, models) == SpliceAll(text, models[i..])
    {
      var spliced := Splice(text, models[i].key, models[i].value);
      if spliced.None? {
        return Invalid;
      }
      text := spliced.value;
      assert models[i..][1..] == models[i + 1..];
    }
    return Written(text);
  }

  // ----- the run on the member list --------------------------------------------------------------------

  function PutAll(es: seq<Entry>, models: seq<Member>): seq<Entry>
    decreases |models|
  {
    if models == [] then es else PutAll(Put(es, models[0].key, models[0].value), models[1..])
  }

  function PutAllTail(es: seq<Entry>, tail: string, models: seq<Member>): string
    decreases |models|
  {
    if models == [] then tail
    else PutAllTail(Put(es, models[0].key, models[0].value), PutTail(es, tail, models[0].key), models[1..])
  }

  predicate AllWellFormed(models: seq<Member>) {
    forall i | 0 <= i < |models| :: WellFormed(models[i].value)
  }

  /** The whole run on the text is the whole run on the member list, and keeps the layout. */
  lemma {:induction false} SpliceAllIsPutAll(es: seq<Entry>, tail: string, models: seq<Member>)
    requires es != [] && ValidEntries(es) && Blanks(tail) && AllWellFormed(models)
    ensures var es', tail' := PutAll(es, models), PutAllTail(es, tail, models);
            && SpliceAll(Text(es, tail), models) == Some(Text(es', tail'))
            && ValidEntries(es') && es' != [] && Blanks(tail')
    decreases |models|
  {
    if models != [] {
      var m := models[0];
      SpliceIsPut(es, tail, m.key, m.value);
      SpliceAllIsPutAll(Put(es, m.key, m.value), PutTail(es, tail, m.key), models[1..]);
    }
  }

  lemma {:induction false} KeyTextInjective(a: string, b: string)
    requires KeyText(a) == KeyText(b)
    ensures a == b
  {
    KeyTextValid(a);
    KeyTextValid(b);
  }

  // ----- the --check mode after a run --------------------------------------------------------------------

  lemma {:induction false} PutAllKeepsOthers(es: seq<Entry>, models: seq<Member>, other: string)
    requires ValidEntries(es) && AllWellFormed(models)
    requires forall i | 0 <= i < |models| :: models[i].key != other
    ensures ValidEntries(PutAll(es, models))
    ensures Lookup(Catalog(PutAll(es, models)), other) == Lookup(Catalog(es), other)
    decreases |models|
  {
    if models != [] {
      PutKeepsOthers(es, models[0].key, models[0].value, other);
      PutAllKeepsOthers(Put(es, models[0].key, models[0].value), models[1..], other);
    }
  }

  /** The same keys up to there, and no later member of that name: the same shadows. */
  lemma {:induction false} SameShadows(es: seq<Entry>, es': seq<Entry>, name: string)
    requires ValidEntries(es) && ValidEntries(es') && |es| <= |es'|
    requires forall i | 0 <= i < |es| :: es'[i].key == es[i].key && Meaning(es'[i]).key == Meaning(es[i]).key
    requires forall i | |es| <= i < |es'| :: es'[i].key != KeyText(name) && Meaning(es'[i]).key != name
    ensures Unshadowed(es', name) <==> Unshadowed(es, name)
  {
    var j := FirstSpelled(es, KeyText(name));
    SpellingKept(es, es', KeyText(name));
    if Unshadowed(es', name) {
      forall i | j < i < |es| ensures Meaning(es[i]).key != name {
        assert Meaning(es'[i]).key != name;
      }
    }
  }

  lemma {:induction false} PutKeepsShadows(es: seq<Entry>, name: string, entry: Json, other: string)
    requires ValidEntries(es) && WellFormed(entry) && other != name
    ensures ValidEntries(Put(es, name, entry))
    ensures Unshadowed(Put(es, name, entry), other) <==> Unshadowed(es, other)
  {
    PutCatalog(es, name, entry);
    var es' := Put(es, name, entry);
    if KeyText(name) == KeyText(other) { KeyTextInjective(name, other); }
    forall i | 0 <= i < |es'|
      ensures Catalog(es')[i].key == Meaning(es'[i]).key && (i < |es| ==> Catalog(es)[i].key == Meaning(es[i]).key)
    {
    }
    SameShadows(es, es', other);
  }

  lemma {:induction false} SpellingKept(es: seq<Entry>, es': seq<Entry>, key: string)
    requires |es| <= |es'| && forall i | 0 <= i < |es| :: es'[i].key == es[i].key
    requires forall i | |es| <= i < |es'| :: es'[i].key != key
    ensures FirstSpelled(es', key) == if FirstSpelled(es, key) < |es| then FirstSpelled(es, key) else |es'|
  {
    var j, j' := FirstSpelled(es, key), FirstSpelled(es', key);
    if j < |es| {
      assert es'[j].key == key;
    }
  }

  /** After the run a model has its entry, unless a duplicate spelling shadowed it from the start. */
  lemma {:induction false} PutAllSets(es: seq<Entry>, models: seq<Member>, i: nat)
    requires ValidEntries(es) && AllWellFormed(models) && Distinct(models) && i < |models|
    ensures ValidEntries(PutAll(es, models))
    ensures Lookup(Catalog(PutAll(es, models)), models[i].key)
         == if Unshadowed(es, models[i].key) then Some(models[i].value) else Lookup(Catalog(es), models[i].key)
    decreases |models|
  {
    var m, es1 := models[0], Put(es, models[0].key, models[0].value);
    PutValid(es, m.key, m.value);
    if i == 0 {
      PutSets(es, m.key, m.value);
      PutAllKeepsOthers(es1, models[1..], m.key);
    } else {
      PutAllSets(es1, models[1..], i - 1);
      PutKeepsShadows(es, m.key, m.value, models[i].key);
      PutKeepsOthers(es, m.key, m.value, models[i].key);
    }
  }

  lemma {:induction false} FirstStaleNone(catalog: seq<Member>, models: seq<Member>)
    ensures FirstStale(catalog, models) == None
       <==> forall i | 0 <= i < |models| :: Lookup(catalog, models[i].key) == Some(models[i].value)
    decreases |models|
  {
    if models != [] {
      FirstStaleNone(catalog, models[1..]);
      assert forall i | 1 <= i < |models| :: models[i] == models[1..][i - 1];
    }
  }

  lemma {:induction false} WriteIs(es: seq<Entry>, tail: string, models: seq<Member>)
    requires es != [] && ValidEntries(es) && Blanks(tail) && AllWellFormed(models)
    ensures ValidEntries(PutAll(es, models)) && PutAll(es, models) != [] && Blanks(PutAllTail(es, tail, models))
    ensures Run(Text(es, tail), models, false) == Written(Text(PutAll(es, models), PutAllTail(es, tail, models)))
  {
    TextMeaning(es, tail);
    SpliceAllIsPutAll(es, tail, models);
  }

  lemma {:induction false} CheckIs(es: seq<Entry>, tail: string, models: seq<Member>)
    requires es != [] && ValidEntries(es) && Blanks(tail)
    ensures Run(Text(es, tail), models, true) == InSync
       <==> forall i | 0 <= i < |models| :: Lookup(Catalog(es), models[i].key) == Some(models[i].value)
  {
    TextMeaning(es, tail);
    FirstStaleNone(Catalog(es), models);
  }

  /**
   The check accepts the file a run has written if and only if, in the original file, no model's
   spliced member was shadowed by a later duplicate with another value.
   */
  lemma {:induction false} CheckAfterRun(es: seq<Entry>, tail: string, models: seq<Member>)
    requires es != [] && ValidEntries(es) && Blanks(tail) && AllWellFormed(models) && Distinct(models)
    ensures Run(Text(es, tail), models, false).Written?
    ensures Run(Run(Text(es, tail), models, false).text, models, true) == InSync
       <==> forall i | 0 <= i < |models| ::
              Unshadowed(es, models[i].key) || Lookup(Catalog(es), models[i].key) == Some(models[i].value)
  {
    WriteIs(es, tail, models);
    var es' := PutAll(es, models);
    CheckIs(es', PutAllTail(es, tail, models), models);
    forall i | 0 <= i < |models|
      ensures Lookup(Catalog(es'), models[i].key) == Some(models[i].value)
         <==> Unshadowed(es, models[i].key) || Lookup(Catalog(es), models[i].key) == Some(models[i].value)
    {
      PutAllSets(es, models, i);
    }
  }

  /** With no name twice in the file, a run is always followed by an accepting check. */
  lemma {:induction false} CheckAcceptsDistinct(es: seq<Entry>, tail: string, models: seq<Member>)
    requires es != [] && ValidEntries(es) && Blanks(tail) && AllWellFormed(models) && Distinct(models)
    requires Distinct(Catalog(es))
    ensures Run(Text(es, tail), models, false).Written?
    ensures Run(Run(Text(es, tail), models, false).text, models, true) == InSync
  {
    CheckAfterRun(es, tail, models);
    forall i | 0 <= i < |models| ensures Unshadowed(es, models[i].key) {
      var j := FirstSpelled(es, KeyText(models[i].key));
      if j < |es| {
        KeyTextValid(models[i].key);
        assert Catalog(es)[j].key == models[i].key;
        assert forall k | j < k < |es| :: Catalog(es)[k].key == Meaning(es[k]).key;
      }
    }
  }

  /** A file that spells a model twice defeats the run: the check still rejects it. */
  lemma {:induction false} DuplicateSpellingRejected(name: string, entry: Json)
    requires WellFormed(entry) && entry != Null
    ensures var es := [Entry(KeyText(name), Rendered(Null)), Entry(KeyText(name), Rendered(Null))];
            && ValidEntries(es)
            && Run(Text(es, "\n"), [Member(name, entry)], false).Written?
            && Run(Run(Text(es, "\n"), [Member(name, entry)], false).text, [Member(name, entry)], true) != InSync
  {
    RenderedEntryValid(name, Null);
    var e := Entry(KeyText(name), Rendered(Null));
    TwiceShadowed([e, e], name);
    CheckAfterRun([e, e], "\n", [Member(name, entry)]);
    assert [Member(name, entry)][0] == Member(name, entry);
  }

  lemma {:induction false} TwiceShadowed(es: seq<Entry>, name: string)
    requires |es| == 2 && es[0] == es[1] && ValidEntry(es[0]) && es[0].key == KeyText(name)
    requires Meaning(es[0]) == Member(name, Null)
    ensures ValidEntries(es) && !Unshadowed(es, name) && Lookup(Catalog(es), name) == Some(Null)
  {
    LookupLast(Catalog(es), name, 1);
    assert FirstSpelled(es, KeyText(name)) == 0 && Meaning(es[1]).key == name;
  }

  // ----- a second run --------------------------------------------------------------------------------------

  /** The member of this model already has the text that a splice would write. */
  predicate Settled(es: seq<Entry>, m: Member) {
    var j := FirstSpelled(es, KeyText(m.key));
    j < |es| && es[j].text == Rendered(m.value)
  }

  lemma {:induction false} SettledPut(es: seq<Entry>, m: Member)
    ensures Settled(Put(es, m.key, m.value), m)
    ensures Settled(es, m) ==> Put(es, m.key, m.value) == es
  {
    var e := Entry(KeyText(m.key), Rendered(m.value));
    var j := FirstSpelled(es, e.key);
    var es' := Put(es, m.key, m.value);
    assert es'[j] == e && forall i | 0 <= i < j :: es'[i] == es[i];
    if Settled(es, m) {
      assert es[j] == e;
    }
  }

  lemma {:induction false} SettledStays(es: seq<Entry>, m: Member, n: Member)
    requires Settled(es, m) && n.key != m.key
    ensures Settled(Put(es, n.key, n.value), m)
  {
    var es' := Put(es, n.key, n.value);
    if KeyText(n.key) == KeyText(m.key) { KeyTextInjective(n.key, m.key); }
    SpellingKept(es, es', KeyText(m.key));
  }

  lemma {:induction false} SettledThrough(es: seq<Entry>, m: Member, models: seq<Member>)
    requires Settled(es, m) && forall i | 0 <= i < |models| :: models[i].key != m.key
    ensures Settled(PutAll(es, models), m)
    decreases |models|
  {
    if models != [] {
      SettledStays(es, m, models[0]);
      SettledThrough(Put(es, models[0].key, models[0].value), m, models[1..]);
    }
  }

  lemma {:induction false} PutAllSettles(es: seq<Entry>, models: seq<Member>, i: nat)
    requires Distinct(models) && i < |models|
    ensures Settled(PutAll(es, models), models[i])
    decreases |models|
  {
    var m, rest := models[0], models[1..];
    var next := Put(es, m.key, m.value);
    assert PutAll(es, models) == PutAll(next, rest);
    if i == 0 {
      SettledPut(es, m);
      SettledThrough(next, m, rest);
    } else {
      assert rest[i - 1] == models[i];
      PutAllSettles(next, rest, i - 1);
    }
  }

  lemma {:induction false} PutAllSettled(es: seq<Entry>, models: seq<Member>)
    requires forall i | 0 <= i < |models| :: Settled(es, models[i])
    ensures PutAll(es, models) == es
    ensures forall tail :: PutAllTail(es, tail, models) == tail
    decreases |models|
  {
    if models != [] {
      SettledPut(es, models[0]);
      PutAllSettled(es, models[1..]);
    }
  }

  /** A second run writes the same bytes, whatever the file looked like before the first. */
  lemma {:induction false} RunIsIdempotent(es: seq<Entry>, tail: string, models: seq<Member>)
    requires es != [] && ValidEntries(es) && Blanks(tail) && AllWellFormed(models) && Distinct(models)
    ensures var first := Run(Text(es, tail), models, false);
            first.Written? && Run(first.text, models, false) == first
  {
    TextMeaning(es, tail);
    SpliceAllIsPutAll(es, tail, models);
    var es', tail' := PutAll(es, models), PutAllTail(es, tail, models);
    TextMeaning(es', tail');
    SpliceAllIsPutAll(es', tail', models);
    forall i | 0 <= i < |models| ensures Settled(es', models[i]) {
      PutAllSettles(es, models, i);
    }
    PutAllSettled(es', models);
  }
}
