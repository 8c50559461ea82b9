/**
 tools/generate_billing_credits.py, its second half: the face-value cards are chosen from the
 configuration and the catalog, merged into the catalog entries, and spliced into the text.
 The scaling from a per-million to a per-token price is the parameter `perToken`.
 */
module BillingCredits {
  import opened Options
  import opened Json
  import opened PyDict
  import opened CatalogText
  import PricingSync

  datatype Rate = Rate(key: string, amount: string)

  datatype Model = Model(name: string, perMillion: seq<Rate>, catalog: seq<Member>)

  datatype Config = Config(unit: string, flash: seq<Rate>, pro: seq<Rate>, models: seq<Model>)

  datatype Card = Card(name: string, rates: seq<Rate>)

  /** catalog_fields; None is the KeyError of an unknown rate. */
  function CatalogField(key: string): Option<string> {
    if key == "input" then Some("input_cost_per_token")
    else if key == "output" then Some("output_cost_per_token")
    else if key == "cache_read" then Some("cache_read_input_token_cost")
    else if key == "image_input" then Some("input_cost_per_image_token")
    else None
  }

  function RateMembers(rates: seq<Rate>, perToken: string -> string): Option<seq<Member>> {
    if rates == [] then Some([])
    else
      var field :- CatalogField(rates[0].key);
      var more :- RateMembers(rates[1..], perToken);
      Some([Member(field, Num(perToken(rates[0].amount)))] + more)
  }

  function FixedMembers(unit: string): seq<Member> {
    [Member("source_currency", Str("CNY")), Member("billing_unit", Str(unit)),
     Member("prefer_bundled_pricing", Bool(true))]
  }

  predicate IsDeepSeek(name: string) { "deepseek-" <= name }

  function TierRates(config: Config, name: string): seq<Rate> {
    if "deepseek-v4-pro" <= name then config.pro else config.flash
  }

  function CardIndex(cards: seq<Card>, name: string): (j: nat)
    ensures j <= |cards| && forall i | 0 <= i < j :: cards[i].name != name
    ensures j < |cards| ==> cards[j].name == name
  {
    if cards == [] || cards[0].name == name then 0 else 1 + CardIndex(cards[1..], name)
  }

  /** cards[name] = rates */
  function SetCard(cards: seq<Card>, name: string, rates: seq<Rate>): seq<Card> {
    var j := CardIndex(cards, name);
    if j < |cards| then cards[j := Card(name, rates)] else cards + [Card(name, rates)]
  }

  function ModelCards(models: seq<Model>): (cards: seq<Card>)
    ensures |cards| == |models|
    ensures forall i | 0 <= i < |models| :: cards[i] == Card(models[i].name, models[i].perMillion)
  {
    seq(|models|, i requires 0 <= i < |models| => Card(models[i].name, models[i].perMillion))
  }

  /** The cards after the loop over the catalog names. */
  function TierCards(config: Config, cards: seq<Card>, names: seq<string>): seq<Card> {
    if names == [] then cards
    else
      var before := TierCards(config, cards, names[..|names| - 1]);
      var name := names[|names| - 1];
      if IsDeepSeek(name) then SetCard(before, name, TierRates(config, name)) else before
  }

  function Keys(ms: seq<Member>): (names: seq<string>)
    ensures |names| == |ms| && forall i | 0 <= i < |ms| :: names[i] == ms[i].key
  {
    seq(|ms|, i requires 0 <= i < |ms| => ms[i].key)
  }

  function Cards(config: Config, catalog: seq<Member>): seq<Card> {
    TierCards(config, ModelCards(config.models), Keys(catalog))
  }

  function ModelIndex(models: seq<Model>, name: string): (j: nat)
    ensures j <= |models| && forall i | 0 <= i < j :: models[i].name != name
    ensures j < |models| ==> models[j].name == name
  {
    if models == [] || models[0].name == name then 0 else 1 + ModelIndex(models[1..], name)
  }

  /** config["models"][name]["catalog"], or nothing for a name that is not configured. */
  function Metadata(config: Config, name: string): seq<Member> {
    var j := ModelIndex(config.models, name);
    if j < |config.models| then config.models[j].catalog else []
  }

  /** dict(catalog.get(name, {})); None is the TypeError for an entry that is not an object. */
  function BaseEntry(catalog: seq<Member>, name: string): Option<seq<Member>> {
    var found := Lookup(catalog, name);
    if found.None? then Some([])
    else if found.value.Obj? then Some(Update([], found.value.members))
    else None
  }

  /** The three updates of one entry, in their order. */
  function Overrides(config: Config, card: Card, perToken: string -> string): Option<seq<Member>> {
    var rates :- RateMembers(card.rates, perToken);
    Some(Metadata(config, card.name) + rates + FixedMembers(config.unit))
  }

  /** A later member with the same key takes this one's place in the dict. */
  predicate Overwritten(members: seq<Member>, i: nat)
    requires i < |members|
  {
    exists j | i < j < |members| :: members[j].key == members[i].key
  }

  /** The configuration is read with decimals in place of floats: a number with a fraction or an exponent. */
  predicate HasDecimal(v: Json) {
    match v
    case Num(token) => '.' in token || 'e' in token || 'E' in token
    case Arr(items) => exists i | 0 <= i < |items| :: HasDecimal(items[i])
    case Obj(members) => exists i | 0 <= i < |members| :: !Overwritten(members, i) && HasDecimal(members[i].value)
    case _ => false
  }

  /** json.dumps knows no decimals: those of the metadata must all be overridden by rates or fixed fields. */
  predicate Dumpable(metadata: seq<Member>, later: seq<Member>) {
    forall i | 0 <= i < |metadata| :: Lookup(later, metadata[i].key).Some? || !DecimalField(metadata, metadata[i].key)
  }

  predicate DecimalField(metadata: seq<Member>, field: string) {
    Lookup(metadata, field).Some? && HasDecimal(Lookup(metadata, field).value)
  }

  /**
   None is the TypeError for a base entry that is no object, the KeyError for a rate, or the TypeError for a
   decimal.
   */
  function BillEntry(config: Config, catalog: seq<Member>, card: Card, perToken: string -> string): Option<Json> {
    var entry :- BaseEntry(catalog, card.name);
    var rates :- RateMembers(card.rates, perToken);
    if Dumpable(Metadata(config, card.name), rates + FixedMembers(config.unit))
    then Some(Obj(Update(entry, Metadata(config, card.name) + rates + FixedMembers(config.unit))))
    else None
  }

  function BillEntries(config: Config, catalog: seq<Member>, cards: seq<Card>, perToken: string -> string)
    : (r: Option<seq<Member>>)
    ensures r.Some? ==> |r.value| == |cards|
    ensures r.Some? ==> forall i | 0 <= i < |cards| ::
              r.value[i].key == cards[i].name
              && Some(r.value[i].value) == BillEntry(config, catalog, cards[i], perToken)
    ensures r.None? ==> exists i | 0 <= i < |cards| :: BillEntry(config, catalog, cards[i], perToken) == None
  {
    if cards == [] then Some([])
    else
      var entry := BillEntry(config, catalog, cards[0], perToken);
      var more := BillEntries(config, catalog, cards[1..], perToken);
      if entry.Some? && more.Some? then Some([Member(cards[0].name, entry.value)] + more.value)
      else None
  }

  /** The splice loop over the cards. */
  function BillFrom(source: string, config: Config, catalog: seq<Member>, cards: seq<Card>, perToken: string -> string)
    : Option<string>
    decreases |cards|
  {
    if cards == [] then Some(source)
    else
      var entry :- BillEntry(config, catalog, cards[0], perToken);
      var text :- Splice(source, cards[0].name, entry);
      BillFrom(text, config, catalog, cards[1..], perToken)
  }

  lemma {:induction false} BillFromSplices(source: string, config: Config, catalog: seq<Member>, cards: seq<Card>,
                                           perToken: string -> string)
    ensures var entries := BillEntries(config, catalog, cards, perToken);
            BillFrom(source, config, catalog, cards, perToken)
            == if entries.None? then None else PricingSync.SpliceAll(source, entries.value)
    decreases |cards|
  {
    var entries := BillEntries(config, catalog, cards, perToken);
    if cards != [] && BillEntry(config, catalog, cards[0], perToken).Some? {
      var entry := BillEntry(config, catalog, cards[0], perToken).value;
      var text := Splice(source, cards[0].name, entry);
      if text.Some? {
        BillFromSplices(text.value, config, catalog, cards[1..], perToken);
      }
      if entries.Some? {
        assert entries.value[1..] == BillEntries(config, catalog, cards[1..], perToken).value;
      }
    }
  }

  /** The run on the catalog text; None is any of the exceptions above. */
  function Bill(source: string, config: Config, perToken: string -> string): Option<string> {
    var loaded := Loads(source);
    if loaded.None? || !loaded.value.Obj? then None
    else
      var catalog := loaded.value.members;
      BillFrom(source, config, catalog, Cards(config, catalog), perToken)
  }

  /** The script from the reading of the catalog on. */
  method Generate(source: string, config: Config, perToken: string -> string) returns (text: Option<string>)
    ensures text == Bill(source, config, perToken)
  {
    var loaded := Loads(source);
    if loaded.None? || !loaded.value.Obj? {
      return None;
    }
    var cards := SelectCards(config, loaded.value.members);
    text := SpliceCards(source, config, loaded.value.members, cards, perToken);
  }

  method SelectCards(config: Config, catalog: seq<Member>) returns (cards: seq<Card>)
    ensures cards == Cards(config, catalog)
  {
    cards := ModelCards(config.models);
    ghost var names := Keys(catalog);
    for i := 0 to |catalog|
      invariant cards == TierCards(config, ModelCards(config.models), names[..i])
    {
      assert names[..i + 1][..i] == names[..i];
      var name := catalog[i].key;
      if IsDeepSeek(name) {
        cards := SetCard(cards, name, TierRates(config, name));
      }
    }
    assert names[..|catalog|] == names;
  }

  method SpliceCards(source: string, config: Config, catalog: seq<Member>, cards: seq<Card>, perToken: string -> string)
    returns (text: Option<string>)
    ensures text == BillFrom(source, config, catalog, cards, perToken)
  {
    var current := source;
    for i := 0 to |cards|
      invariant BillFrom(source, config, catalog, cards, perToken)
             == BillFrom(current, config, catalog, cards[i..], perToken)
    {
      var entry := BillEntry(config, catalog, cards[i], perToken);
      if entry.None? {
        return None;
      }
      var spliced := Splice(current, cards[i].name, entry.value);
      if spliced.None? {
        return None;
      }
      current := spliced.value;
      assert cards[i..][1..] == cards[i + 1..];
    }
    return Some(current);
  }
}
