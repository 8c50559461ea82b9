/** What a billing-credits run writes, and exactly when a second run writes the same. */
module BillingRuns {
  import opened Options
  import opened Json
  import opened JsonWellFormed
  import opened PyDict
  import opened CatalogText
  import opened CatalogSplice
  import opened CatalogMeaning
  import opened PricingSync
  import opened BillingCredits

  /** What the script takes for granted about billing-credits.json. */
  ghost predicate ValidConfig(config: Config, perToken: string -> string) {
    && (forall i, j | 0 <= i < j < |config.models| :: config.models[i].name != config.models[j].name)
    && (forall i | 0 <= i < |config.models| :: AllWellFormed(config.models[i].catalog))
    && (forall i | 0 <= i < |config.models| :: KnownRates(config.models[i].perMillion))
    && KnownRates(config.flash) && KnownRates(config.pro)
    && (forall amount :: IsNumber(perToken(amount)))
  }

  predicate KnownRates(rates: seq<Rate>) {
    forall i | 0 <= i < |rates| :: CatalogField(rates[i].key).Some?
  }

  // ----- the merge -----------------------------------------------------------------------------------

  lemma {:induction false} KnownRateMembers(rates: seq<Rate>, perToken: string -> string)
    requires KnownRates(rates)
    ensures RateMembers(rates, perToken).Some?
  {
    if rates != [] {
      KnownRateMembers(rates[1..], perToken);
    }
  }

  lemma {:induction false} RateMembersWellFormed(rates: seq<Rate>, perToken: string -> string)
    requires RateMembers(rates, perToken).Some? && forall amount :: IsNumber(perToken(amount))
    ensures AllWellFormed(RateMembers(rates, perToken).value)
  {
    if rates != [] {
      RateMembersWellFormed(rates[1..], perToken);
    }
  }

  lemma {:induction false} MetadataWellFormed(config: Config, name: string, perToken: string -> string)
    requires ValidConfig(config, perToken)
    ensures AllWellFormed(Metadata(config, name))
  {
  }

  lemma {:induction false} LookupConcat(a: seq<Member>, b: seq<Member>, key: string)
    ensures Lookup(a + b, key) == if Lookup(b, key).Some? then Lookup(b, key) else Lookup(a, key)
  {
    if b == [] {
      assert a + b == a;
    } else {
      assert (a + b)[..|a + b| - 1] == a + b[..|b| - 1];
      LookupConcat(a, b[..|b| - 1], key);
    }
  }

  lemma {:induction false} BaseDistinct(catalog: seq<Member>, name: string)
    requires BaseEntry(catalog, name).Some?
    ensures Distinct(BaseEntry(catalog, name).value)
  {
    var found := Lookup(catalog, name);
    if found.Some? {
      UpdateDistinct([], found.value.members);
    }
  }

  /**
   One billed entry, field by field: the fixed fields win, then the card's rates, then the
   configured metadata, and every other field keeps the value it had in the catalog.
   */
  lemma {:induction false} EntryFields(config: Config, catalog: seq<Member>, card: Card, perToken: string -> string,
                                       field: string)
    requires BillEntry(config, catalog, card, perToken).Some?
    ensures var entry := BillEntry(config, catalog, card, perToken).value;
            var rates := RateMembers(card.rates, perToken).value;
            && entry.Obj? && Distinct(entry.members)
            && Lookup(entry.members, field)
               == if Lookup(FixedMembers(config.unit), field).Some? then Lookup(FixedMembers(config.unit), field)
                  else if Lookup(rates, field).Some? then Lookup(rates, field)
                  else if Lookup(Metadata(config, card.name), field).Some?
                    then Lookup(Metadata(config, card.name), field)
                  else if Lookup(catalog, card.name).Some? then Lookup(Lookup(catalog, card.name).value.members, field)
                  else None
  {
    var base := BaseEntry(catalog, card.name).value;
    var rates := RateMembers(card.rates, perToken).value;
    var overrides := Overrides(config, card, perToken).value;
    BaseDistinct(catalog, card.name);
    UpdateDistinct(base, overrides);
    LookupUpdate(base, overrides, field);
    LookupConcat(Metadata(config, card.name) + rates, FixedMembers(config.unit), field);
    LookupConcat(Metadata(config, card.name), rates, field);
    if Lookup(catalog, card.name).Some? {
      LookupUpdate([], Lookup(catalog, card.name).value.members, field);
    }
  }

  lemma {:induction false} LookupIn(ms: seq<Member>, key: string)
    requires Lookup(ms, key).Some?
    ensures exists i | 0 <= i < |ms| :: ms[i].value == Lookup(ms, key).value
  {
    if ms[|ms| - 1].key != key {
      LookupIn(ms[..|ms| - 1], key);
      var i :| 0 <= i < |ms| - 1 && ms[..|ms| - 1][i].value == Lookup(ms, key).value;
      assert ms[i].value == Lookup(ms, key).value;
    }
  }

  lemma {:induction false} CatalogWellFormed(es: seq<Entry>, name: string)
    requires ValidEntries(es) && Lookup(Catalog(es), name).Some?
    ensures WellFormed(Lookup(Catalog(es), name).value)
  {
    LookupIn(Catalog(es), name);
    var i :| 0 <= i < |es| && Catalog(es)[i].value == Lookup(Catalog(es), name).value;
    ValueWellFormed(es[i].text);
  }

  lemma {:induction false} BillEntryWellFormed(config: Config, es: seq<Entry>, card: Card, perToken: string -> string)
    requires ValidEntries(es) && ValidConfig(config, perToken)
    requires BillEntry(config, Catalog(es), card, perToken).Some?
    ensures WellFormed(BillEntry(config, Catalog(es), card, perToken).value)
  {
    var found := Lookup(Catalog(es), card.name);
    var base := BaseEntry(Catalog(es), card.name).value;
    if found.Some? {
      CatalogWellFormed(es, card.name);
      UpdateWellFormed([], found.value.members);
    }
    RateMembersWellFormed(card.rates, perToken);
    MetadataWellFormed(config, card.name, perToken);
    UpdateWellFormed(base, Overrides(config, card, perToken).value);
  }

  // ----- the cards of a second run -----------------------------------------------------------------------

  predicate DistinctCards(cards: seq<Card>) {
    forall i, j | 0 <= i < j < |cards| :: cards[i].name != cards[j].name
  }

  lemma {:induction false} TierCardsDistinct(config: Config, cards: seq<Card>, names: seq<string>)
    requires DistinctCards(cards)
    ensures DistinctCards(TierCards(config, cards, names))
    decreases |names|
  {
    if names != [] {
      TierCardsDistinct(config, cards, names[..|names| - 1]);
    }
  }

  /** The card a name has once it stands in the catalog. */
  function Settle(config: Config, card: Card): Card {
    if IsDeepSeek(card.name) then Card(card.name, TierRates(config, card.name)) else card
  }

  /** A DeepSeek name in the catalog has the rates of its tier; every other card is the configured one. */
  lemma {:induction false} CardChosen(config: Config, cards: seq<Card>, names: seq<string>, i: nat)
    requires DistinctCards(cards) && i < |TierCards(config, cards, names)|
    ensures var card := TierCards(config, cards, names)[i];
            && (card.name in names ==> card == Settle(config, card))
            && (card.name !in names ==> i < |cards| && card == cards[i])
            && (i < |cards| ==> card.name == cards[i].name)
            && (!IsDeepSeek(card.name) ==> i < |cards| && card == cards[i])
    decreases |names|
  {
    if names != [] {
      var n := |names| - 1;
      var before := TierCards(config, cards, names[..n]);
      TierCardsDistinct(config, cards, names[..n]);
      if i < |before| {
        CardChosen(config, cards, names[..n], i);
      } else {
        CardsGrow(config, cards, names[..n]);
      }
    }
  }

  lemma {:induction false} CardsGrow(config: Config, cards: seq<Card>, names: seq<string>)
    ensures |TierCards(config, cards, names)| >= |cards|
    decreases |names|
  {
    if names != [] {
      CardsGrow(config, cards, names[..|names| - 1]);
    }
  }

  predicate SameNames(a: seq<Card>, b: seq<Card>) {
    |a| == |b| && forall i | 0 <= i < |a| :: a[i].name == b[i].name
  }

  predicate HasCard(cards: seq<Card>, name: string) {
    exists j | 0 <= j < |cards| :: cards[j].name == name
  }

  lemma {:induction false} OneMoreName(config: Config, cards: seq<Card>, names: seq<string>, name: string)
    requires HasCard(TierCards(config, cards, names), name)
    ensures SameNames(TierCards(config, cards, names), TierCards(config, cards, names + [name]))
  {
    assert (names + [name])[..|names|] == names;
  }

  lemma {:induction false} SameHas(a: seq<Card>, b: seq<Card>, name: string)
    requires SameNames(a, b) && HasCard(a, name)
    ensures HasCard(b, name)
  {
    var j :| 0 <= j < |a| && a[j].name == name;
    assert b[j].name == name;
  }

  /** Names already among the cards change no card's place. */
  lemma {:induction false} SameNamesThen(a: seq<Card>, b: seq<Card>, c: seq<Card>)
    requires SameNames(a, b) && SameNames(b, c)
    ensures SameNames(a, c)
  {
  }

  lemma {:induction false} MoreNames(config: Config, cards: seq<Card>, names: seq<string>, extra: seq<string>)
    requires forall k | 0 <= k < |extra| :: HasCard(TierCards(config, cards, names), extra[k])
    ensures SameNames(TierCards(config, cards, names), TierCards(config, cards, names + extra))
    decreases |extra|
  {
    if extra == [] {
      assert names + extra == names;
    } else {
      var n := |extra| - 1;
      var init := extra[..n];
      assert forall k | 0 <= k < |init| :: init[k] == extra[k];
      MoreNames(config, cards, names, init);
      SameHas(TierCards(config, cards, names), TierCards(config, cards, names + init), extra[n]);
      OneMoreName(config, cards, names + init, extra[n]);
      assert names + extra == names + init + [extra[n]];
      SameNamesThen(TierCards(config, cards, names), TierCards(config, cards, names + init),
                    TierCards(config, cards, names + extra));
    }
  }

  // ----- the text of a second run ------------------------------------------------------------------------

  lemma {:induction false} PutNames(es: seq<Entry>, name: string, entry: Json)
    requires ValidEntries(es) && WellFormed(entry)
    ensures ValidEntries(Put(es, name, entry))
    ensures var names, names' := Keys(Catalog(es)), Keys(Catalog(Put(es, name, entry)));
            names' == names || names' == names + [name]
  {
    PutCatalog(es, name, entry);
  }

  /** The run keeps the old names in place. */
  lemma {:induction false} PutAllPrefix(es: seq<Entry>, models: seq<Member>)
    requires ValidEntries(es) && AllWellFormed(models)
    ensures ValidEntries(PutAll(es, models))
    ensures Keys(Catalog(es)) <= Keys(Catalog(PutAll(es, models)))
    decreases |models|
  {
    if models != [] {
      PutNames(es, models[0].key, models[0].value);
      PutAllPrefix(Put(es, models[0].key, models[0].value), models[1..]);
    }
  }

  /** The run adds only names that were spliced. */
  lemma {:induction false} PutAllAdds(es: seq<Entry>, models: seq<Member>, k: nat)
    requires ValidEntries(es) && AllWellFormed(models)
    requires ValidEntries(PutAll(es, models)) && |es| <= k < |PutAll(es, models)|
    ensures Keys(Catalog(PutAll(es, models)))[k] in Keys(models)
    decreases |models|
  {
    var m, es1 := models[0], Put(es, models[0].key, models[0].value);
    PutNames(es, m.key, m.value);
    PutAllPrefix(es1, models[1..]);
    assert Keys(models)[0] == m.key;
    if k < |es1| {
      assert Keys(Catalog(es1))[k] == m.key;
    } else {
      PutAllAdds(es1, models[1..], k);
      KeysTail(models, Keys(Catalog(PutAll(es, models)))[k]);
    }
  }

  lemma {:induction false} KeysTail(models: seq<Member>, key: string)
    requires models != [] && key in Keys(models[1..])
    ensures key in Keys(models)
  {
    var l :| 0 <= l < |models[1..]| && Keys(models[1..])[l] == key;
    assert Keys(models)[l + 1] == key;
  }

  lemma {:induction false} PutUnshadowed(es: seq<Entry>, name: string, entry: Json)
    requires ValidEntries(es) && WellFormed(entry) && Unshadowed(es, name)
    ensures ValidEntries(Put(es, name, entry)) && Unshadowed(Put(es, name, entry), name)
  {
    PutCatalog(es, name, entry);
    var es' := Put(es, name, entry);
    var j := FirstSpelled(es, KeyText(name));
    assert es'[j].key == KeyText(name) && forall i | 0 <= i < j :: es'[i] == es[i];
    assert FirstSpelled(es', KeyText(name)) == j;
    forall i | j < i < |es'| ensures Meaning(es'[i]).key != name {
      assert es'[i] == es[i];
    }
  }

  lemma {:induction false} PutAllUnshadowed(es: seq<Entry>, models: seq<Member>, name: string)
    requires ValidEntries(es) && AllWellFormed(models) && Unshadowed(es, name)
    ensures ValidEntries(PutAll(es, models)) && Unshadowed(PutAll(es, models), name)
    decreases |models|
  {
    if models != [] {
      var m := models[0];
      if m.key == name {
        PutUnshadowed(es, name, m.value);
      } else {
        PutKeepsShadows(es, m.key, m.value, name);
      }
      PutAllUnshadowed(Put(es, m.key, m.value), models[1..], name);
    }
  }

  // ----- the theorem -------------------------------------------------------------------------------------

  /** The entry written for a configured model that the catalog lacks. */
  function FirstEntry(config: Config, model: Model, perToken: string -> string): Option<Json> {
    BillEntry(config, [], Card(model.name, model.perMillion), perToken)
  }

  /** That entry billed again, once the model stands in the catalog. */
  function SecondEntry(config: Config, model: Model, perToken: string -> string): Option<Json> {
    var first :- FirstEntry(config, model, perToken);
    BillEntry(config, [Member(model.name, first)], Settle(config, Card(model.name, model.perMillion)), perToken)
  }

  lemma {:induction false} BillEntryLocal(config: Config, a: seq<Member>, b: seq<Member>, card: Card,
                                          perToken: string -> string)
    requires Lookup(a, card.name) == Lookup(b, card.name)
    ensures BillEntry(config, a, card, perToken) == BillEntry(config, b, card, perToken)
  {
  }

  /** Billing an entry a second time with the same card leaves it as it is. */
  lemma {:induction false} BillEntryTwice(config: Config, catalog: seq<Member>, catalog': seq<Member>, card: Card,
                                          perToken: string -> string)
    requires BillEntry(config, catalog, card, perToken).Some?
    requires Lookup(catalog', card.name) == BillEntry(config, catalog, card, perToken)
    ensures BillEntry(config, catalog', card, perToken) == BillEntry(config, catalog, card, perToken)
  {
    var base := BaseEntry(catalog, card.name).value;
    var overrides := Overrides(config, card, perToken).value;
    BaseDistinct(catalog, card.name);
    UpdateDistinct(base, overrides);
    CopyDistinct(Update(base, overrides));
    UpdateTwice(base, overrides);
  }

  lemma {:induction false} SecondNames(config: Config, es: seq<Entry>, models: seq<Member>)
    requires ValidEntries(es) && AllWellFormed(models)
    requires var cards := Cards(config, Catalog(es));
             |models| == |cards| && forall i | 0 <= i < |cards| :: models[i].key == cards[i].name
    ensures ValidEntries(PutAll(es, models))
    ensures SameNames(Cards(config, Catalog(es)), Cards(config, Catalog(PutAll(es, models))))
  {
    PutAllPrefix(es, models);
    var names, names' := Keys(Catalog(es)), Keys(Catalog(PutAll(es, models)));
    forall k | |names| <= k < |names'| ensures names'[k] in Keys(models) {
      PutAllAdds(es, models, k);
    }
    LaterNames(config, names, names', models);
  }

  lemma {:induction false} LaterNames(config: Config, names: seq<string>, names': seq<string>, models: seq<Member>)
    requires names <= names' && forall k | |names| <= k < |names'| :: names'[k] in Keys(models)
    requires var cards := TierCards(config, ModelCards(config.models), names);
             |models| == |cards| && forall i | 0 <= i < |cards| :: models[i].key == cards[i].name
    ensures SameNames(TierCards(config, ModelCards(config.models), names),
            TierCards(config, ModelCards(config.models), names'))
  {
    var extra := names'[|names|..];
    assert names' == names + extra;
    forall k | 0 <= k < |extra| ensures HasCard(TierCards(config, ModelCards(config.models), names), extra[k]) {
      assert names'[|names| + k] == extra[k];
      CardOfKey(TierCards(config, ModelCards(config.models), names), models, extra[k]);
    }
    MoreNames(config, ModelCards(config.models), names, extra);
  }

  lemma {:induction false} CardOfKey(cards: seq<Card>, models: seq<Member>, key: string)
    requires |models| == |cards| && forall i | 0 <= i < |cards| :: models[i].key == cards[i].name
    requires key in Keys(models)
    ensures HasCard(cards, key)
  {
    var l :| 0 <= l < |models| && Keys(models)[l] == key;
    assert cards[l].name == key;
  }

  /** The cards of the second run: the same names, each with the card it has once in the catalog. */
  lemma {:induction false} SecondCards(config: Config, es: seq<Entry>, models: seq<Member>)
    requires ValidEntries(es) && AllWellFormed(models) && DistinctCards(ModelCards(config.models))
    requires var cards := Cards(config, Catalog(es));
             |models| == |cards| && forall i | 0 <= i < |cards| :: models[i].key == cards[i].name
    ensures ValidEntries(PutAll(es, models))
    ensures var cards, cards' := Cards(config, Catalog(es)), Cards(config, Catalog(PutAll(es, models)));
            |cards'| == |cards| && forall i | 0 <= i < |cards| :: cards'[i] == Settle(config, cards[i])
  {
    SecondNames(config, es, models);
    var cards := Cards(config, Catalog(es));
    forall i | 0 <= i < |cards|
      ensures Cards(config, Catalog(PutAll(es, models)))[i] == Settle(config, cards[i])
    {
      SecondCard(config, es, models, i);
    }
  }

  lemma {:induction false} SecondCard(config: Config, es: seq<Entry>, models: seq<Member>, i: nat)
    requires ValidEntries(es) && AllWellFormed(models)
    requires DistinctCards(ModelCards(config.models))
    requires var cards := Cards(config, Catalog(es));
             |models| == |cards| && forall k | 0 <= k < |cards| :: models[k].key == cards[k].name
    requires ValidEntries(PutAll(es, models))
    requires SameNames(Cards(config, Catalog(es)), Cards(config, Catalog(PutAll(es, models))))
    requires i < |models|
    ensures Cards(config, Catalog(PutAll(es, models)))[i] == Settle(config, Cards(config, Catalog(es))[i])
  {
    var base := ModelCards(config.models);
    CardChosen(config, base, Keys(Catalog(es)), i);
    CardChosen(config, base, Keys(Catalog(PutAll(es, models))), i);
    TierCardsDistinct(config, base, Keys(Catalog(es)));
    PutAllHas(es, models, i);
  }

  lemma {:induction false} PutAllHas(es: seq<Entry>, models: seq<Member>, i: nat)
    requires ValidEntries(es) && AllWellFormed(models) && i < |models| && Distinct(models)
    ensures ValidEntries(PutAll(es, models)) && models[i].key in Keys(Catalog(PutAll(es, models)))
  {
    PutAllPrefix(es, models);
    var es' := PutAll(es, models);
    PutAllSettles(es, models, i);
    var j := FirstSpelled(es', KeyText(models[i].key));
    PutCatalog(es', models[i].key, Null);
    assert Keys(Catalog(es'))[j] == models[i].key;
  }

  /** The members that a first run splices, and what the catalog then says of them. */
  lemma {:induction false} FirstRun(es: seq<Entry>, tail: string, config: Config,
                                    perToken: string -> string) returns (models: seq<Member>)
    requires es != [] && ValidEntries(es) && Blanks(tail) && ValidConfig(config, perToken)
    requires Bill(Text(es, tail), config, perToken).Some?
    ensures BillEntries(config, Catalog(es), Cards(config, Catalog(es)), perToken) == Some(models)
    ensures AllWellFormed(models) && Distinct(models)
    ensures Bill(Text(es, tail), config, perToken) == Some(Text(PutAll(es, models), PutAllTail(es, tail, models)))
    ensures ValidEntries(PutAll(es, models)) && PutAll(es, models) != [] && Blanks(PutAllTail(es, tail, models))
  {
    var catalog := Catalog(es);
    var cards := Cards(config, catalog);
    TextMeaning(es, tail);
    BillFromSplices(Text(es, tail), config, catalog, cards, perToken);
    models := BillEntries(config, catalog, cards, perToken).value;
    forall i | 0 <= i < |models| ensures WellFormed(models[i].value) {
      BillEntryWellFormed(config, es, cards[i], perToken);
    }
    TierCardsDistinct(config, ModelCards(config.models), Keys(catalog));
    SpliceAllIsPutAll(es, tail, models);
  }

  /** The situation between the runs: `models` are the members that the first run spliced. */
  predicate Between(es: seq<Entry>, config: Config, models: seq<Member>, perToken: string -> string) {
    && ValidEntries(es) && AllWellFormed(models) && Distinct(models)
    && DistinctCards(ModelCards(config.models))
    && BillEntries(config, Catalog(es), Cards(config, Catalog(es)), perToken) == Some(models)
    && ValidEntries(PutAll(es, models))
  }

  /** After the run a spliced name has its new entry, unless a duplicate spelling still shadows it. */
  lemma {:induction false} SecondLookup(es: seq<Entry>, config: Config, models: seq<Member>, i: nat,
                                        perToken: string -> string)
    requires Between(es, config, models, perToken) && i < |models|
    ensures models[i].key == Cards(config, Catalog(es))[i].name
    ensures Lookup(Catalog(PutAll(es, models)), models[i].key)
         == if Unshadowed(es, models[i].key) then Some(models[i].value) else Lookup(Catalog(es), models[i].key)
    ensures BillEntry(config, Catalog(es), Cards(config, Catalog(es))[i], perToken) == Some(models[i].value)
  {
    PutAllSets(es, models, i);
  }

  lemma {:induction false} ShadowedPresent(es: seq<Entry>, name: string)
    requires ValidEntries(es) && !Unshadowed(es, name)
    ensures Lookup(Catalog(es), name).Some?
  {
    var k :| FirstSpelled(es, KeyText(name)) < k < |es| && Meaning(es[k]).key == name;
    assert Catalog(es)[k].key == name;
    LookupAbsent(Catalog(es), name);
  }

  /** A card that changes once its name is in the catalog is that of a configured DeepSeek model that was missing. */
  lemma {:induction false} ChangedCard(es: seq<Entry>, config: Config, models: seq<Member>, i: nat,
                                       perToken: string -> string)
    requires Between(es, config, models, perToken) && i < |models|
    requires Settle(config, Cards(config, Catalog(es))[i]) != Cards(config, Catalog(es))[i]
    ensures var card := Cards(config, Catalog(es))[i];
            && i < |config.models| && config.models[i].name == card.name && IsDeepSeek(card.name)
            && Cards(config, Catalog(es))[i] == Card(config.models[i].name, config.models[i].perMillion)
            && Lookup(Catalog(es), card.name) == None
  {
    var catalog := Catalog(es);
    var card := Cards(config, catalog)[i];
    CardChosen(config, ModelCards(config.models), Keys(catalog), i);
    LookupAbsent(catalog, card.name);
    assert forall k | 0 <= k < |catalog| :: catalog[k].key == Keys(catalog)[k];
  }

  lemma {:induction false} ChangedEntries(config: Config, catalog: seq<Member>, catalog': seq<Member>, model: Model,
                                          value: Json, perToken: string -> string)
    requires Lookup(catalog, model.name) == None && Lookup(catalog', model.name) == Some(value)
    requires BillEntry(config, catalog, Card(model.name, model.perMillion), perToken) == Some(value)
    ensures FirstEntry(config, model, perToken) == Some(value)
    ensures BillEntry(config, catalog', Settle(config, Card(model.name, model.perMillion)), perToken)
            == SecondEntry(config, model, perToken)
  {
    var card := Card(model.name, model.perMillion);
    BillEntryLocal(config, catalog, [], card, perToken);
    var first := [Member(model.name, value)];
    assert Lookup(first, model.name) == Some(value);
    BillEntryLocal(config, catalog', first, Settle(config, card), perToken);
  }

  /** Entry by entry, the second run writes what the first wrote, unless the card has changed. */
  lemma {:induction false} SecondEntryOf(es: seq<Entry>, config: Config, models: seq<Member>, i: nat,
                                         perToken: string -> string)
    requires Between(es, config, models, perToken) && i < |models|
    ensures var card, catalog' := Cards(config, Catalog(es))[i], Catalog(PutAll(es, models));
            if Settle(config, card) == card then BillEntry(config, catalog', card, perToken) == Some(models[i].value)
            else && i < |config.models| && config.models[i].name == card.name && IsDeepSeek(card.name)
                 && Lookup(Catalog(es), card.name) == None
                 && FirstEntry(config, config.models[i], perToken) == Some(models[i].value)
                 && BillEntry(config, catalog', Settle(config, card), perToken)
                   == SecondEntry(config, config.models[i], perToken)
  {
    var catalog, catalog' := Catalog(es), Catalog(PutAll(es, models));
    var card := Cards(config, catalog)[i];
    SecondLookup(es, config, models, i, perToken);
    if !Unshadowed(es, card.name) {
      ShadowedPresent(es, card.name);
    }
    if Settle(config, card) != card {
      ChangedCard(es, config, models, i, perToken);
      ChangedEntries(config, catalog, catalog', config.models[i], models[i].value, perToken);
    } else if Unshadowed(es, card.name) {
      BillEntryTwice(config, catalog, catalog', card, perToken);
    } else {
      BillEntryLocal(config, catalog, catalog', card, perToken);
    }
  }

  /** The configuration bills a model alike before and after it stands in the catalog. */
  predicate SettledModel(config: Config, model: Model, perToken: string -> string) {
    SecondEntry(config, model, perToken) == FirstEntry(config, model, perToken)
  }

  /** No configured DeepSeek model that the catalog lacks changes its entry when billed again. */
  predicate SettledConfig(config: Config, catalog: seq<Member>, perToken: string -> string) {
    forall i | 0 <= i < |config.models| ::
      IsDeepSeek(config.models[i].name) && Lookup(catalog, config.models[i].name) == None
      ==> SettledModel(config, config.models[i], perToken)
  }

  // ----- read off the configuration ------------------------------------------------------------------------

  /** The price that a list of rates gives a catalog field; a later rate wins. */
  function RateField(rates: seq<Rate>, perToken: string -> string, field: string): Option<Json> {
    if rates == [] then None
    else
      var n := |rates| - 1;
      if CatalogField(rates[n].key) == Some(field) then Some(Num(perToken(rates[n].amount)))
      else RateField(rates[..n], perToken, field)
  }

  /** What the configuration writes for a field of a model: its own rate, or else its metadata. */
  function OwnField(config: Config, model: Model, perToken: string -> string, field: string): Option<Json> {
    var rate := RateField(model.perMillion, perToken, field);
    if rate.Some? then rate else Lookup(Metadata(config, model.name), field)
  }

  /**
   Nothing of the tier contradicts the model's own configuration: every rate of the tier is a known
   one and is what the model has for that field, and an own rate that the tier lacks is not
   contradicted by the metadata and covers no decimal of it.  The fixed fields do not matter.
   */
  predicate StableModel(config: Config, model: Model, perToken: string -> string) {
    var tier, metadata := TierRates(config, model.name), Metadata(config, model.name);
    && (forall i | 0 <= i < |tier| ::
          CatalogField(tier[i].key).Some?
          && var field := CatalogField(tier[i].key).value;
             OwnField(config, model, perToken, field) == RateField(tier, perToken, field))
    && (forall i | 0 <= i < |metadata| ::
          var field := metadata[i].key;
          Lookup(FixedMembers(config.unit), field).None? && RateField(tier, perToken, field).None?
          ==> OwnField(config, model, perToken, field) == Lookup(metadata, field) && !DecimalField(metadata, field))
  }

  /** Every configured DeepSeek model that the catalog lacks agrees with its tier. */
  predicate StableConfig(config: Config, catalog: seq<Member>, perToken: string -> string) {
    forall i | 0 <= i < |config.models| ::
      IsDeepSeek(config.models[i].name) && Lookup(catalog, config.models[i].name) == None
      ==> StableModel(config, config.models[i], perToken)
  }

  lemma {:induction false} RateMembersKnown(rates: seq<Rate>, perToken: string -> string)
    ensures RateMembers(rates, perToken).Some? <==> forall i | 0 <= i < |rates| :: CatalogField(rates[i].key).Some?
  {
    if rates != [] {
      RateMembersKnown(rates[1..], perToken);
      assert forall i | 1 <= i < |rates| :: rates[i] == rates[1..][i - 1];
    }
  }

  lemma {:induction false} RateFieldCons(rate: Rate, rates: seq<Rate>, perToken: string -> string, field: string)
    ensures RateField([rate] + rates, perToken, field)
         == if RateField(rates, perToken, field).Some? then RateField(rates, perToken, field)
            else RateField([rate], perToken, field)
  {
    var all := [rate] + rates;
    if rates == [] {
      assert all == [rate];
    } else {
      assert all[..|all| - 1] == [rate] + rates[..|rates| - 1];
      RateFieldCons(rate, rates[..|rates| - 1], perToken, field);
    }
  }

  lemma {:induction false} RateFieldOne(rate: Rate, perToken: string -> string, field: string)
    ensures RateField([rate], perToken, field)
         == if CatalogField(rate.key) == Some(field) then Some(Num(perToken(rate.amount))) else None
  {
    assert [rate][..0] == [];
  }

  lemma {:induction false} RateFieldIs(rates: seq<Rate>, perToken: string -> string, field: string)
    requires RateMembers(rates, perToken).Some?
    ensures Lookup(RateMembers(rates, perToken).value, field) == RateField(rates, perToken, field)
    decreases |rates|
  {
    if rates != [] {
      var more := RateMembers(rates[1..], perToken).value;
      var first := Member(CatalogField(rates[0].key).value, Num(perToken(rates[0].amount)));
      RateFieldIs(rates[1..], perToken, field);
      LookupCons(first, more, field);
      assert rates == [rates[0]] + rates[1..];
      RateFieldCons(rates[0], rates[1..], perToken, field);
      RateFieldOne(rates[0], perToken, field);
    }
  }

  /** No rate goes to a fixed field. */
  lemma {:induction false} RatesAreNotFixed(unit: string, key: string)
    requires CatalogField(key).Some?
    ensures Lookup(FixedMembers(unit), CatalogField(key).value) == None
  {
    LookupAbsent(FixedMembers(unit), CatalogField(key).value);
  }

  /** The three groups of updates, field by field. */
  lemma {:induction false} OverrideField(config: Config, card: Card, perToken: string -> string, field: string)
    requires RateMembers(card.rates, perToken).Some?
    ensures Overrides(config, card, perToken).Some?
    ensures Lookup(Overrides(config, card, perToken).value, field)
         == if Lookup(FixedMembers(config.unit), field).Some? then Lookup(FixedMembers(config.unit), field)
            else if RateField(card.rates, perToken, field).Some? then RateField(card.rates, perToken, field)
            else Lookup(Metadata(config, card.name), field)
  {
    var metadata, rates := Metadata(config, card.name), RateMembers(card.rates, perToken).value;
    LookupConcat(metadata + rates, FixedMembers(config.unit), field);
    LookupConcat(metadata, rates, field);
    RateFieldIs(card.rates, perToken, field);
  }

  /** For one field: the second overrides write what the first wrote. */
  predicate FieldStays(config: Config, model: Model, perToken: string -> string, field: string) {
    var tier := RateField(TierRates(config, model.name), perToken, field);
    var metadata := Lookup(Metadata(config, model.name), field);
    Lookup(FixedMembers(config.unit), field).Some?
    || (if tier.Some? then OwnField(config, model, perToken, field) == tier
        else metadata.Some? ==> OwnField(config, model, perToken, field) == metadata)
  }

  /** For one field: the dump meets no decimal. */
  predicate FieldDumps(config: Config, card: Card, perToken: string -> string, field: string) {
    || Lookup(FixedMembers(config.unit), field).Some?
    || RateField(card.rates, perToken, field).Some?
    || !DecimalField(Metadata(config, card.name), field)
  }

  /** Which entries are dumped without a decimal. */
  lemma {:induction false} DumpableExactly(config: Config, card: Card, perToken: string -> string)
    requires RateMembers(card.rates, perToken).Some?
    ensures Dumpable(Metadata(config, card.name), RateMembers(card.rates, perToken).value + FixedMembers(config.unit))
       <==> forall field :: FieldDumps(config, card, perToken, field)
  {
    var metadata, rates, fixed := Metadata(config, card.name), RateMembers(card.rates, perToken).value,
      FixedMembers(config.unit);
    forall field
      ensures Lookup(rates + fixed, field).Some?
              <==> Lookup(fixed, field).Some? || RateField(card.rates, perToken, field).Some?
    {
      LookupConcat(rates, fixed, field);
      RateFieldIs(card.rates, perToken, field);
    }
    if Dumpable(metadata, rates + fixed) {
      forall field ensures FieldDumps(config, card, perToken, field) {
        LookupIndex(metadata, field);
      }
    }
    if forall field :: FieldDumps(config, card, perToken, field) {
      forall i | 0 <= i < |metadata|
        ensures Lookup(rates + fixed, metadata[i].key).Some? || !DecimalField(metadata, metadata[i].key)
      {
        assert FieldDumps(config, card, perToken, metadata[i].key);
      }
    }
  }

  /**
   An entry is written if and only if what the catalog has for the name is an object, every rate is known, and
   every decimal of the configured metadata is replaced by a rate or a fixed field.
   */
  lemma {:induction false} BilledExactly(config: Config, catalog: seq<Member>, card: Card, perToken: string -> string)
    ensures BillEntry(config, catalog, card, perToken).Some?
       <==> && (Lookup(catalog, card.name).Some? ==> Lookup(catalog, card.name).value.Obj?)
            && KnownRates(card.rates)
            && forall field :: FieldDumps(config, card, perToken, field)
  {
    RateMembersKnown(card.rates, perToken);
    if RateMembers(card.rates, perToken).Some? {
      DumpableExactly(config, card, perToken);
    }
  }

  lemma {:induction false} FieldStaysIs(config: Config, model: Model, perToken: string -> string, field: string)
    requires RateMembers(model.perMillion, perToken).Some? && RateMembers(TierRates(config, model.name), perToken).Some?
    ensures var first := Overrides(config, Card(model.name, model.perMillion), perToken);
            var second := Overrides(config, Card(model.name, TierRates(config, model.name)), perToken);
            && first.Some? && second.Some?
            && (FieldStays(config, model, perToken, field)
                <==> (Lookup(second.value, field).Some? ==> Lookup(first.value, field) == Lookup(second.value, field)))
  {
    OverrideField(config, Card(model.name, model.perMillion), perToken, field);
    OverrideField(config, Card(model.name, TierRates(config, model.name)), perToken, field);
  }

  /** A field that a rate list prices is the field of one of its rates. */
  lemma {:induction false} RateOfField(rates: seq<Rate>, perToken: string -> string, field: string)
    ensures RateField(rates, perToken, field).Some?
       <==> exists i | 0 <= i < |rates| :: CatalogField(rates[i].key) == Some(field)
  {
    if rates != [] {
      var n := |rates| - 1;
      RateOfField(rates[..n], perToken, field);
      if exists i | 0 <= i < |rates| :: CatalogField(rates[i].key) == Some(field) {
        var i :| 0 <= i < |rates| && CatalogField(rates[i].key) == Some(field);
        if i < n {
          assert CatalogField(rates[..n][i].key) == Some(field);
        }
      }
      if RateField(rates[..n], perToken, field).Some? {
        var i :| 0 <= i < n && CatalogField(rates[..n][i].key) == Some(field);
        assert CatalogField(rates[i].key) == Some(field);
      }
    }
  }

  /** The card of a model once it stands in the catalog. */
  function TierCard(config: Config, model: Model): Card { Card(model.name, TierRates(config, model.name)) }

  ghost predicate AllStay(config: Config, model: Model, perToken: string -> string) {
    forall field :: FieldStays(config, model, perToken, field)
  }

  ghost predicate AllDump(config: Config, card: Card, perToken: string -> string) {
    forall field :: FieldDumps(config, card, perToken, field)
  }

  lemma {:induction false} StableFields(config: Config, model: Model, perToken: string -> string)
    requires RateMembers(TierRates(config, model.name), perToken).Some?
    ensures StableModel(config, model, perToken)
       <==> AllStay(config, model, perToken) && AllDump(config, TierCard(config, model), perToken)
  {
    var tier, metadata := TierRates(config, model.name), Metadata(config, model.name);
    RateMembersKnown(tier, perToken);
    if StableModel(config, model, perToken) {
      forall field
        ensures FieldStays(config, model, perToken, field)
        ensures FieldDumps(config, TierCard(config, model), perToken, field)
      {
        if RateField(tier, perToken, field).Some? {
          RateOfField(tier, perToken, field);
        } else {
          LookupIndex(metadata, field);
        }
      }
    }
    if AllStay(config, model, perToken) && AllDump(config, TierCard(config, model), perToken) {
      forall i | 0 <= i < |tier|
        ensures var field := CatalogField(tier[i].key).value;
                OwnField(config, model, perToken, field) == RateField(tier, perToken, field)
      {
        var field := CatalogField(tier[i].key).value;
        RatesAreNotFixed(config.unit, tier[i].key);
        RateOfField(tier, perToken, field);
        assert FieldStays(config, model, perToken, field);
      }
      forall i | 0 <= i < |metadata|
        ensures Lookup(metadata, metadata[i].key).Some? && FieldStays(config, model, perToken, metadata[i].key)
        ensures FieldDumps(config, TierCard(config, model), perToken, metadata[i].key)
      {
        LookupAbsent(metadata, metadata[i].key);
      }
    }
  }

  /** The second overrides change nothing if and only if every field stays. */
  lemma {:induction false} StaysExactly(config: Config, model: Model, perToken: string -> string)
    requires RateMembers(model.perMillion, perToken).Some? && RateMembers(TierRates(config, model.name), perToken).Some?
    ensures var first := Overrides(config, Card(model.name, model.perMillion), perToken).value;
            var second := Overrides(config, Card(model.name, TierRates(config, model.name)), perToken).value;
            Update(Update([], first), second) == Update([], first)
            <==> AllStay(config, model, perToken)
  {
    var first := Overrides(config, Card(model.name, model.perMillion), perToken).value;
    var second := Overrides(config, Card(model.name, TierRates(config, model.name)), perToken).value;
    var entry := Update([], first);
    UpdateDistinct([], first);
    UpdateSame(entry, second);
    forall field
      ensures FieldStays(config, model, perToken, field)
              <==> (Lookup(second, field).Some? ==> Lookup(entry, field) == Lookup(second, field))
    {
      FieldStaysIs(config, model, perToken, field);
      LookupUpdate([], first, field);
    }
    forall i | 0 <= i < |second| ensures Lookup(second, second[i].key).Some? {
      LookupAbsent(second, second[i].key);
    }
    forall field | Lookup(second, field).Some? ensures exists i | 0 <= i < |second| :: second[i].key == field {
      LookupIndex(second, field);
    }
  }

  lemma {:induction false} DumpsExactly(config: Config, model: Model, perToken: string -> string)
    requires RateMembers(TierRates(config, model.name), perToken).Some?
    ensures SecondDumps(config, model, perToken)
            <==> AllDump(config, TierCard(config, model), perToken)
  {
    DumpableExactly(config, TierCard(config, model), perToken);
  }

  /** The entry of a missing model is stable exactly if its tier does not contradict its configuration. */
  lemma {:induction false} SettledExactly(config: Config, model: Model, perToken: string -> string)
    requires IsDeepSeek(model.name) && FirstEntry(config, model, perToken).Some?
    ensures SettledModel(config, model, perToken) <==> StableModel(config, model, perToken)
  {
    RateMembersKnown(TierRates(config, model.name), perToken);
    if RateMembers(TierRates(config, model.name), perToken).Some? {
      SecondIs(config, model, perToken);
      StaysExactly(config, model, perToken);
      DumpsExactly(config, model, perToken);
      StableFields(config, model, perToken);
    }
  }

  predicate SecondDumps(config: Config, model: Model, perToken: string -> string) {
    var rates := RateMembers(TierRates(config, model.name), perToken);
    rates.Some? && Dumpable(Metadata(config, model.name), rates.value + FixedMembers(config.unit))
  }

  lemma {:induction false} SecondIs(config: Config, model: Model, perToken: string -> string)
    requires IsDeepSeek(model.name) && FirstEntry(config, model, perToken).Some?
    requires RateMembers(TierRates(config, model.name), perToken).Some?
    ensures var first := Overrides(config, Card(model.name, model.perMillion), perToken).value;
            var second := Overrides(config, Card(model.name, TierRates(config, model.name)), perToken).value;
            && FirstEntry(config, model, perToken) == Some(Obj(Update([], first)))
            && SecondEntry(config, model, perToken)
               == if SecondDumps(config, model, perToken) then Some(Obj(Update(Update([], first), second))) else None
  {
    var first := Overrides(config, Card(model.name, model.perMillion), perToken).value;
    assert Lookup([], model.name) == None;
    var entry := [Member(model.name, Obj(Update([], first)))];
    assert Lookup(entry, model.name) == Some(Obj(Update([], first)));
    UpdateDistinct([], first);
    CopyDistinct(Update([], first));
  }

  lemma {:induction false} SettledCardModel(config: Config, model: Model, perToken: string -> string)
    requires FirstEntry(config, model, perToken).Some?
    requires Settle(config, Card(model.name, model.perMillion)) == Card(model.name, model.perMillion)
    ensures SettledModel(config, model, perToken)
  {
    var card := Card(model.name, model.perMillion);
    var first := [Member(model.name, FirstEntry(config, model, perToken).value)];
    assert first[|first| - 1].key == card.name;
    BillEntryTwice(config, [], first, card, perToken);
  }

  lemma {:induction false} StableSame(es: seq<Entry>, config: Config, models: seq<Member>, perToken: string -> string)
    requires Between(es, config, models, perToken) && SettledConfig(config, Catalog(es), perToken)
    ensures var catalog' := Catalog(PutAll(es, models));
            BillEntries(config, catalog', Cards(config, catalog'), perToken) == Some(models)
  {
    var catalog' := Catalog(PutAll(es, models));
    SecondCards(config, es, models);
    var cards' := Cards(config, catalog');
    forall i | 0 <= i < |cards'|
      ensures cards'[i].name == models[i].key
      ensures BillEntry(config, catalog', cards'[i], perToken) == Some(models[i].value)
    {
      SecondEntryOf(es, config, models, i, perToken);
    }
    AllBilled(config, catalog', cards', models, perToken);
  }

  lemma {:induction false} AllBilled(config: Config, catalog: seq<Member>, cards: seq<Card>, models: seq<Member>,
                                     perToken: string -> string)
    requires |cards| == |models|
    requires forall i | 0 <= i < |cards| ::
               cards[i].name == models[i].key && BillEntry(config, catalog, cards[i], perToken) == Some(models[i].value)
    ensures BillEntries(config, catalog, cards, perToken) == Some(models)
  {
    var r := BillEntries(config, catalog, cards, perToken);
    assert r.Some?;
    assert r.value == models;
  }

  lemma {:induction false} SameStable(es: seq<Entry>, config: Config, models: seq<Member>,
                                      perToken: string -> string, i: nat)
    requires Between(es, config, models, perToken)
    requires var catalog' := Catalog(PutAll(es, models));
             BillEntries(config, catalog', Cards(config, catalog'), perToken) == Some(models)
    requires i < |config.models| && IsDeepSeek(config.models[i].name)
    requires Lookup(Catalog(es), config.models[i].name) == None
    ensures SettledModel(config, config.models[i], perToken)
  {
    var cards := Cards(config, Catalog(es));
    SecondCards(config, es, models);
    ModelCardKept(es, config, models, i, perToken);
    SecondEntryOf(es, config, models, i, perToken);
    if Settle(config, cards[i]) == cards[i] {
      SettledCardModel(config, config.models[i], perToken);
    }
  }

  /** The entries of the second run are those of the first if and only if the configuration is stable. */
  lemma {:induction false} SecondEntries(es: seq<Entry>, config: Config, models: seq<Member>,
                                         perToken: string -> string)
    requires Between(es, config, models, perToken)
    ensures var catalog' := Catalog(PutAll(es, models));
            BillEntries(config, catalog', Cards(config, catalog'), perToken) == Some(models)
            <==> StableConfig(config, Catalog(es), perToken)
  {
    var catalog' := Catalog(PutAll(es, models));
    SettledIsStable(es, config, models, perToken);
    if SettledConfig(config, Catalog(es), perToken) {
      StableSame(es, config, models, perToken);
    }
    if BillEntries(config, catalog', Cards(config, catalog'), perToken) == Some(models) {
      forall i | 0 <= i < |config.models| && IsDeepSeek(config.models[i].name)
        && Lookup(Catalog(es), config.models[i].name) == None
        ensures SettledModel(config, config.models[i], perToken)
      {
        SameStable(es, config, models, perToken, i);
      }
    }
  }

  lemma {:induction false} SettledIsStable(es: seq<Entry>, config: Config, models: seq<Member>,
                                           perToken: string -> string)
    requires Between(es, config, models, perToken)
    ensures SettledConfig(config, Catalog(es), perToken) <==> StableConfig(config, Catalog(es), perToken)
  {
    forall i | 0 <= i < |config.models| && IsDeepSeek(config.models[i].name)
      && Lookup(Catalog(es), config.models[i].name) == None
      ensures SettledModel(config, config.models[i], perToken) <==> StableModel(config, config.models[i], perToken)
    {
      ModelCardKept(es, config, models, i, perToken);
      SettledExactly(config, config.models[i], perToken);
    }
  }

  /** A configured model that the catalog lacks is billed from its own card. */
  lemma {:induction false} ModelCardKept(es: seq<Entry>, config: Config, models: seq<Member>, i: nat,
                                         perToken: string -> string)
    requires ValidEntries(es) && DistinctCards(ModelCards(config.models)) && i < |config.models|
    requires BillEntries(config, Catalog(es), Cards(config, Catalog(es)), perToken) == Some(models)
    requires Lookup(Catalog(es), config.models[i].name) == None
    ensures i < |models| && Cards(config, Catalog(es))[i] == Card(config.models[i].name, config.models[i].perMillion)
    ensures FirstEntry(config, config.models[i], perToken) == Some(models[i].value)
  {
    var catalog := Catalog(es);
    var base := ModelCards(config.models);
    CardsGrow(config, base, Keys(catalog));
    CardChosen(config, base, Keys(catalog), i);
    LookupAbsent(catalog, config.models[i].name);
    assert config.models[i].name !in Keys(catalog);
    BillEntryLocal(config, catalog, [], base[i], perToken);
  }

  /** A model with a fractional number in its metadata cannot be billed at all. */
  lemma {:induction false} DecimalFails(config: Config, catalog: seq<Member>, card: Card, perToken: string -> string)
    requires Metadata(config, card.name) == [Member("weight", Num("0.5"))] && KnownRates(card.rates)
    ensures BillEntry(config, catalog, card, perToken) == None
  {
    var metadata := Metadata(config, card.name);
    assert Lookup(metadata, "weight") == Some(Num("0.5")) && "0.5"[1] == '.';
    assert DecimalField(metadata, "weight");
    LookupAbsent(FixedMembers(config.unit), "weight");
    RateOfField(card.rates, perToken, "weight");
    assert !FieldDumps(config, card, perToken, "weight");
    BilledExactly(config, catalog, card, perToken);
  }

  /**
   A second run writes the same text if and only if, for every configured DeepSeek model that the
   catalog lacked, the tier its name selects does not contradict its own rates and metadata.
   */
  lemma {:induction false} BillTwice(es: seq<Entry>, tail: string, config: Config, perToken: string -> string)
    requires es != [] && ValidEntries(es) && Blanks(tail)
    requires ValidConfig(config, perToken) && Bill(Text(es, tail), config, perToken).Some?
    ensures var first := Bill(Text(es, tail), config, perToken);
            Bill(first.value, config, perToken) == first <==> StableConfig(config, Catalog(es), perToken)
  {
    var models := FirstRun(es, tail, config, perToken);
    SecondEntries(es, config, models, perToken);
    SecondText(es, tail, config, models, perToken);
  }

  /** The second text is the first if and only if the second run splices the same members. */
  lemma {:induction false} SecondReads(es: seq<Entry>, tail: string, config: Config, perToken: string -> string)
    requires es != [] && ValidEntries(es) && Blanks(tail)
    ensures var catalog := Catalog(es);
            var models := BillEntries(config, catalog, Cards(config, catalog), perToken);
            Bill(Text(es, tail), config, perToken) == if models.None? then None
              else SpliceAll(Text(es, tail), models.value)
  {
    TextMeaning(es, tail);
    BillFromSplices(Text(es, tail), config, Catalog(es), Cards(config, Catalog(es)), perToken);
  }

  lemma {:induction false} SecondDiffers(es: seq<Entry>, tail: string, config: Config, models: seq<Member>,
                                         models': seq<Member>,
                                         perToken: string -> string)
    requires es != [] && Blanks(tail) && ValidConfig(config, perToken) && Between(es, config, models, perToken)
    requires var catalog' := Catalog(PutAll(es, models));
             BillEntries(config, catalog', Cards(config, catalog'), perToken) == Some(models')
    requires models' != models
    ensures var es', tail' := PutAll(es, models), PutAllTail(es, tail, models);
            SpliceAll(Text(es', tail'), models') != Some(Text(es', tail'))
  {
    SecondCards(config, es, models);
    NamesStay(config, Cards(config, Catalog(es)), Cards(config, Catalog(PutAll(es, models))), models, models');
    DifferentText(es, tail, config, models, models', perToken);
  }

  lemma {:induction false} NamesStay(config: Config, cards: seq<Card>, cards': seq<Card>, models: seq<Member>,
                                     models': seq<Member>)
    requires |models| == |cards| == |cards'| == |models'| && forall i | 0 <= i < |cards| ::
             cards'[i] == Settle(config, cards[i])
    requires forall i | 0 <= i < |cards| :: models[i].key == cards[i].name && models'[i].key == cards'[i].name
    ensures SameKeys(models', models)
  {
  }

  lemma {:induction false} SecondText(es: seq<Entry>, tail: string, config: Config, models: seq<Member>,
                                      perToken: string -> string)
    requires es != [] && Blanks(tail) && ValidConfig(config, perToken) && Between(es, config, models, perToken)
    requires PutAll(es, models) != [] && Blanks(PutAllTail(es, tail, models))
    ensures var text, catalog' := Text(PutAll(es, models), PutAllTail(es, tail, models)), Catalog(PutAll(es, models));
            Bill(text, config, perToken) == Some(text)
            <==> BillEntries(config, catalog', Cards(config, catalog'), perToken) == Some(models)
  {
    var es', tail' := PutAll(es, models), PutAllTail(es, tail, models);
    var catalog' := Catalog(es');
    SecondReads(es', tail', config, perToken);
    var second := BillEntries(config, catalog', Cards(config, catalog'), perToken);
    if second == Some(models) {
      SameAgain(es, tail, models);
    } else if second.Some? {
      SecondDiffers(es, tail, config, models, second.value, perToken);
    }
  }

  lemma {:induction false} SameAgain(es: seq<Entry>, tail: string, models: seq<Member>)
    requires es != [] && ValidEntries(es) && Blanks(tail) && AllWellFormed(models) && Distinct(models)
    ensures var es', tail' := PutAll(es, models), PutAllTail(es, tail, models);
            SpliceAll(Text(es', tail'), models) == Some(Text(es', tail'))
  {
    SpliceAllIsPutAll(es, tail, models);
    var es', tail' := PutAll(es, models), PutAllTail(es, tail, models);
    SpliceAllIsPutAll(es', tail', models);
    forall i | 0 <= i < |models| ensures Settled(es', models[i]) {
      PutAllSettles(es, models, i);
    }
    PutAllSettled(es', models);
  }

  /** Other entries under the same names give another text: the difference shows when it is decoded. */
  lemma {:induction false} DifferentText(es: seq<Entry>, tail: string, config: Config, models: seq<Member>,
                                         models': seq<Member>,
                                         perToken: string -> string)
    requires es != [] && Blanks(tail) && ValidConfig(config, perToken) && Between(es, config, models, perToken)
    requires var catalog' := Catalog(PutAll(es, models));
             BillEntries(config, catalog', Cards(config, catalog'), perToken) == Some(models')
    requires models' != models && SameKeys(models', models)
    ensures var es', tail' := PutAll(es, models), PutAllTail(es, tail, models);
            SpliceAll(Text(es', tail'), models') != Some(Text(es', tail'))
  {
    SpliceAllIsPutAll(es, tail, models);
    var es', tail' := PutAll(es, models), PutAllTail(es, tail, models);
    var cards' := Cards(config, Catalog(es'));
    forall i | 0 <= i < |models'| ensures WellFormed(models'[i].value) {
      BillEntryWellFormed(config, es', cards'[i], perToken);
    }
    SpliceAllIsPutAll(es', tail', models');
    var i :| 0 <= i < |models| && models'[i] != models[i];
    ChangedIsUnshadowed(es, config, models, models', i, perToken);
    PutAllSets(es, models, i);
    PutAllUnshadowed(es, models, models[i].key);
    PutAllSets(es', models', i);
    TextMeaning(es', tail');
    TextMeaning(PutAll(es', models'), PutAllTail(es', tail', models'));
  }

  /** A shadowed name is billed alike by both runs: the catalog still has its old entry. */
  lemma {:induction false} ChangedIsUnshadowed(es: seq<Entry>, config: Config, models: seq<Member>,
                                               models': seq<Member>, i: nat,
                                               perToken: string -> string)
    requires Between(es, config, models, perToken) && SameKeys(models', models)
    requires var catalog' := Catalog(PutAll(es, models));
             BillEntries(config, catalog', Cards(config, catalog'), perToken) == Some(models')
    requires i < |models| && models'[i] != models[i]
    ensures Unshadowed(es, models[i].key)
  {
    SecondCards(config, es, models);
    SecondEntryOf(es, config, models, i, perToken);
    SecondLookup(es, config, models, i, perToken);
    if !Unshadowed(es, models[i].key) {
      ShadowedPresent(es, models[i].key);
    }
  }

  function OneModel(name: string): Config
  {
    Config("credits", [Rate("input", "2")], [Rate("input", "3")], [Model(name, [Rate("input", "1")], [])])
  }

  /** A DeepSeek model configured at its own price and missing from the catalog drifts on the second run. */
  lemma {:induction false} MissingDeepSeekDrifts(es: seq<Entry>, tail: string, name: string, perToken: string -> string)
    requires es != [] && ValidEntries(es) && Blanks(tail)
    requires IsDeepSeek(name) && Lookup(Catalog(es), name) == None
    requires ValidConfig(OneModel(name), perToken) && Bill(Text(es, tail), OneModel(name), perToken).Some?
    requires perToken("1") != perToken("2") && perToken("1") != perToken("3")
    ensures var first := Bill(Text(es, tail), OneModel(name), perToken);
            Bill(first.value, OneModel(name), perToken) != first
  {
    var config := OneModel(name);
    BillTwice(es, tail, config, perToken);
    OneModelContradicts(name, perToken);
    assert config.models[0].name == name;
  }

  lemma {:induction false} OneRate(amount: string, perToken: string -> string)
    ensures RateField([Rate("input", amount)], perToken, "input_cost_per_token") == Some(Num(perToken(amount)))
  {
  }

  lemma {:induction false} OneModelContradicts(name: string, perToken: string -> string)
    requires perToken("1") != perToken("2") && perToken("1") != perToken("3")
    ensures !StableModel(OneModel(name), OneModel(name).models[0], perToken)
  {
    var config := OneModel(name);
    var model, tier := config.models[0], TierRates(config, name);
    OneRate("1", perToken);
    OneRate(tier[0].amount, perToken);
    assert CatalogField(tier[0].key) == Some("input_cost_per_token");
    assert OwnField(config, model, perToken, "input_cost_per_token") != RateField(tier, perToken,
      "input_cost_per_token");
  }
}
