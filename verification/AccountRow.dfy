/** An account written by createSpec and read back by scanValues and assignValues. */
module AccountRow {
  import opened Options
  import opened AccountCreate

  datatype Column = ID | ProxyID | ParentAccountID | Of(field: Field) | Selected(name: string)

  /** The types that scanValues makes room for. */
  datatype Kind = NullInt64 | NullFloat64 | NullString | NullBool | NullTime | Bytes | UnknownType

  /** A scanned value; no value is NULL, or no bytes. */
  datatype Holder = Holder(kind: Kind, value: Option<Datum>)

  datatype ReadError = TooFewValues | UnexpectedType(column: Column)

  // ----- the three switches --------------------------------------------------------------------------------

  /** The switch of scanValues. */
  function ScanKind(c: Column): Kind {
    match c
    case ID => NullInt64
    case ProxyID => NullInt64
    case ParentAccountID => NullInt64
    case Selected(_) => UnknownType
    case Of(f) =>
      match f
      case Credentials => Bytes
      case Extra => Bytes
      case AutoPauseOnExpired => NullBool
      case Schedulable => NullBool
      case RateMultiplier => NullFloat64
      case ProxyFallbackOriginID => NullInt64
      case Concurrency => NullInt64
      case LoadFactor => NullInt64
      case Priority => NullInt64
      case Name => NullString
      case Notes => NullString
      case Platform => NullString
      case Type => NullString
      case Status => NullString
      case ErrorMessage => NullString
      case TempUnschedulableReason => NullString
      case SessionWindowStatus => NullString
      case QuotaDimension => NullString
      case CreatedAt => NullTime
      case UpdatedAt => NullTime
      case DeletedAt => NullTime
      case LastUsedAt => NullTime
      case ExpiresAt => NullTime
      case RateLimitedAt => NullTime
      case RateLimitResetAt => NullTime
      case OverloadUntil => NullTime
      case TempUnschedulableUntil => NullTime
      case SessionWindowStart => NullTime
      case SessionWindowEnd => NullTime
  }

  /** The type assertions of assignValues, in its order. */
  function AssignKind(c: Column): Kind {
    match c
    case ID => NullInt64
    case Selected(_) => UnknownType
    case ProxyID => NullInt64
    case ParentAccountID => NullInt64
    case Of(f) =>
      match f
      case CreatedAt => NullTime
      case UpdatedAt => NullTime
      case DeletedAt => NullTime
      case Name => NullString
      case Notes => NullString
      case Platform => NullString
      case Type => NullString
      case Credentials => Bytes
      case Extra => Bytes
      case ProxyFallbackOriginID => NullInt64
      case Concurrency => NullInt64
      case LoadFactor => NullInt64
      case Priority => NullInt64
      case RateMultiplier => NullFloat64
      case Status => NullString
      case ErrorMessage => NullString
      case LastUsedAt => NullTime
      case ExpiresAt => NullTime
      case AutoPauseOnExpired => NullBool
      case Schedulable => NullBool
      case RateLimitedAt => NullTime
      case RateLimitResetAt => NullTime
      case OverloadUntil => NullTime
      case TempUnschedulableUntil => NullTime
      case TempUnschedulableReason => NullString
      case SessionWindowStart => NullTime
      case SessionWindowEnd => NullTime
      case SessionWindowStatus => NullString
      case QuotaDimension => NullString
  }

  datatype FieldType = TypeTime | TypeString | TypeJSON | TypeInt64 | TypeInt | TypeFloat64 | TypeBool | TypeEnum

  /** The field.Type that createSpec sets each field with, in its order. */
  function SpecType(f: Field): FieldType {
    match f
    case CreatedAt => TypeTime
    case UpdatedAt => TypeTime
    case DeletedAt => TypeTime
    case Name => TypeString
    case Notes => TypeString
    case Platform => TypeString
    case Type => TypeString
    case Credentials => TypeJSON
    case Extra => TypeJSON
    case ProxyFallbackOriginID => TypeInt64
    case Concurrency => TypeInt
    case LoadFactor => TypeInt
    case Priority => TypeInt
    case RateMultiplier => TypeFloat64
    case Status => TypeString
    case ErrorMessage => TypeString
    case LastUsedAt => TypeTime
    case ExpiresAt => TypeTime
    case AutoPauseOnExpired => TypeBool
    case Schedulable => TypeBool
    case RateLimitedAt => TypeTime
    case RateLimitResetAt => TypeTime
    case OverloadUntil => TypeTime
    case TempUnschedulableUntil => TypeTime
    case TempUnschedulableReason => TypeString
    case SessionWindowStart => TypeTime
    case SessionWindowEnd => TypeTime
    case SessionWindowStatus => TypeString
    case QuotaDimension => TypeEnum
  }

  /** The fields, in the order of createSpec. */
  const FIELDS: seq<Field> := [
    CreatedAt, UpdatedAt, DeletedAt, Name, Notes, Platform, Type, Credentials, Extra, ProxyFallbackOriginID,
      Concurrency,
    LoadFactor, Priority, RateMultiplier, Status, ErrorMessage, LastUsedAt, ExpiresAt, AutoPauseOnExpired, Schedulable,
    RateLimitedAt, RateLimitResetAt, OverloadUntil, TempUnschedulableUntil, TempUnschedulableReason, SessionWindowStart,
    SessionWindowEnd, SessionWindowStatus, QuotaDimension]

  /** What a value of a field type comes back as. */
  function TypeKind(t: FieldType): Kind {
    match t
    case TypeTime => NullTime
    case TypeString => NullString
    case TypeEnum => NullString
    case TypeJSON => Bytes
    case TypeInt64 => NullInt64
    case TypeInt => NullInt64
    case TypeFloat64 => NullFloat64
    case TypeBool => NullBool
  }

  function DatumKind(d: Datum): Kind {
    match d
    case Int(_) => NullInt64
    case Float(_) => NullFloat64
    case Text(_) => NullString
    case Bool(_) => NullBool
    case Time(_) => NullTime
    case Document(_) => Bytes
  }

  lemma {:induction false} SwitchesAgree(c: Column)
    ensures ScanKind(c) == AssignKind(c)
    ensures c.Of? ==> ScanKind(c) == TypeKind(SpecType(c.field))
  {
  }

  // ----- writing ---------------------------------------------------------------------------------------------

  /** The setters of the builder are typed, and a JSON value is never an empty text. */
  predicate WellTyped(m: Mutation) {
    forall f | f in m :: DatumKind(m[f]) == TypeKind(SpecType(f)) && (m[f].Document? ==> m[f].json != "")
  }

  datatype NewAccount = NewAccount(fields: Mutation, proxyIDs: seq<int>, parentIDs: seq<int>)

  type Cells = map<Column, Datum>

  /** What is set: each field, and the first id of each M2O edge. */
  ghost predicate Holds(cells: Cells, a: NewAccount, fields: seq<Field>) {
    && (forall f :: Of(f) in cells <==> f in fields && f in a.fields)
    && (forall f | Of(f) in cells :: cells[Of(f)] == a.fields[f])
  }

  ghost predicate HoldsAll(cells: Cells, a: NewAccount) {
    && (forall f :: Of(f) in cells <==> f in a.fields)
    && (forall f | Of(f) in cells :: cells[Of(f)] == a.fields[f])
    && (ProxyID in cells <==> a.proxyIDs != []) && (ProxyID in cells ==> cells[ProxyID] == Int(a.proxyIDs[0]))
    && (ParentAccountID in cells <==> a.parentIDs != [])
      && (ParentAccountID in cells ==> cells[ParentAccountID] == Int(a.parentIDs[0]))
    && forall c | c in cells :: c.Of? || c == ProxyID || c == ParentAccountID
  }

  lemma {:induction false} EveryField(f: Field)
    ensures f in FIELDS
  {
    var fields := FIELDS;
    var i := FieldAt(f);
    assert fields[i] == f;
  }

  function FieldAt(f: Field): (i: nat)
    ensures i < |FIELDS| && FIELDS[i] == f
  {
    match f
    case CreatedAt => 0
    case UpdatedAt => 1
    case DeletedAt => 2
    case Name => 3
    case Notes => 4
    case Platform => 5
    case Type => 6
    case Credentials => 7
    case Extra => 8
    case ProxyFallbackOriginID => 9
    case Concurrency => 10
    case LoadFactor => 11
    case Priority => 12
    case RateMultiplier => 13
    case Status => 14
    case ErrorMessage => 15
    case LastUsedAt => 16
    case ExpiresAt => 17
    case AutoPauseOnExpired => 18
    case Schedulable => 19
    case RateLimitedAt => 20
    case RateLimitResetAt => 21
    case OverloadUntil => 22
    case TempUnschedulableUntil => 23
    case TempUnschedulableReason => 24
    case SessionWindowStart => 25
    case SessionWindowEnd => 26
    case SessionWindowStatus => 27
    case QuotaDimension => 28
  }

  /** The fields of createSpec: each one that is set goes to the spec and to the node. */
  method SetFields(a: NewAccount, fields: seq<Field>) returns (node: Cells, row: Cells)
    ensures Holds(node, a, fields) && Holds(row, a, fields)
    ensures forall c | c in node || c in row :: c.Of?
  {
    node, row := map[], map[];
    for i := 0 to |fields|
      invariant Holds(node, a, fields[..i]) && Holds(row, a, fields[..i])
      invariant forall c | c in node || c in row :: c.Of?
    {
      var f := fields[i];
      assert fields[..i + 1] == fields[..i] + [f];
      if f in a.fields {
        row := row[Of(f) := a.fields[f]];
        node := node[Of(f) := a.fields[f]];
      }
    }
    assert fields[..|fields|] == fields;
  }

  /** createSpec: the node, and the row that the spec's fields and M2O edges denote. */
  method CreateSpec(a: NewAccount) returns (node: Cells, row: Cells)
    ensures HoldsAll(node, a) && HoldsAll(row, a)
  {
    node, row := SetFields(a, FIELDS);
    forall f ensures f in FIELDS { EveryField(f); }
    if |a.proxyIDs| > 0 {
      row := row[ProxyID := Int(a.proxyIDs[0])];
      node := node[ProxyID := Int(a.proxyIDs[0])];
    }
    if |a.parentIDs| > 0 {
      row := row[ParentAccountID := Int(a.parentIDs[0])];
      node := node[ParentAccountID := Int(a.parentIDs[0])];
    }
  }

  // ----- reading ---------------------------------------------------------------------------------------------

  /** scanValues: room for one value of the right type for each column. */
  method ScanValues(columns: seq<Column>) returns (kinds: array<Kind>)
    ensures fresh(kinds) && kinds.Length == |columns| && forall i | 0 <= i < |columns| ::
            kinds[i] == ScanKind(columns[i])
  {
    kinds := new Kind[|columns|](_ => UnknownType);
    for i := 0 to |columns|
      invariant forall j | 0 <= j < i :: kinds[j] == ScanKind(columns[j])
    {
      kinds[i] := ScanKind(columns[i]);
    }
  }

  /** The driver's Scan of one column into the room made for it. */
  function Scan(row: Cells, c: Column, kind: Kind): Option<Holder> {
    if c !in row then Some(Holder(kind, None))
    else if kind == UnknownType || DatumKind(row[c]) == kind then Some(Holder(kind, Some(row[c])))
    else None
  }

  /** A value that assignValues takes: a NULL, or no bytes, leaves the field alone. */
  function Taken(h: Holder): Option<Datum> {
    if h.value == Some(Document("")) then None else h.value
  }

  class Node {
    var cells: Cells
    var selected: map<string, Option<Datum>>

    constructor ()
      ensures cells == map[] && selected == map[]
    {
      cells, selected := map[], map[];
    }

    /** assignValues */
    method AssignValues(columns: seq<Column>, values: seq<Holder>) returns (err: Option<ReadError>)
      modifies this
      ensures err == None <==> |columns| <= |values| && forall i | 0 <= i < |columns| && !columns[i].Selected? ::
              values[i].kind == AssignKind(columns[i])
      ensures err == None ==> (cells, selected) == Assigned(columns, values, old(cells), old(selected))
    {
      if |values| < |columns| {
        return Some(TooFewValues);
      }
      for i := 0 to |columns|
        invariant forall j | 0 <= j < i && !columns[j].Selected? :: values[j].kind == AssignKind(columns[j])
        invariant (cells, selected) == Assigned(columns[..i], values, old(cells), old(selected))
      {
        assert columns[..i + 1][..i] == columns[..i];
        var c, h := columns[i], values[i];
        if c.Selected? {
          selected := selected[c.name := h.value];
        } else {
          if h.kind != AssignKind(c) {
            return Some(UnexpectedType(c));
          }
          if c == ID {
            cells := cells[ID := if h.value.Some? then h.value.value else Int(0)];
          } else if Taken(h).Some? {
            cells := cells[c := Taken(h).value];
          }
        }
      }
      assert columns[..|columns|] == columns;
      return None;
    }
  }

  /** The fields after assignValues went through the columns. */
  function Assigned(columns: seq<Column>, values: seq<Holder>, cells: Cells, selected: map<string,
                    Option<Datum>>): (Cells, map<string, Option<Datum>>)
    requires |columns| <= |values|
    decreases |columns|
  {
    if columns == [] then (cells, selected)
    else
      var n := |columns| - 1;
      var (before, other) := Assigned(columns[..n], values, cells, selected);
      var c, h := columns[n], values[n];
      if c.Selected? then (before, other[c.name := h.value])
      else if c == ID then (before[ID := if h.value.Some? then h.value.value else Int(0)], other)
      else if Taken(h).Some? then (before[c := Taken(h).value], other)
      else (before, other)
  }

  lemma {:induction false} AssignedCells(row: Cells, columns: seq<Column>, values: seq<Holder>)
    requires forall i | 0 <= i < |columns| :: !columns[i].Selected?
    requires |columns| <= |values| && forall i | 0 <= i < |columns| ::
             Scan(row, columns[i], ScanKind(columns[i])) == Some(values[i])
    requires ID in row && forall c | c in row :: row[c] != Document("")
    ensures Assigned(columns, values, map[], map[]).0 == map c | c in row && c in columns :: row[c]
    decreases |columns|
  {
    if columns != [] {
      var n := |columns| - 1;
      AssignedCells(row, columns[..n], values);
      assert columns == columns[..n] + [columns[n]];
    }
  }

  /** Every cell that was written fits the room that is made for it. */
  lemma {:induction false} RowFits(a: NewAccount, row: Cells, id: int, c: Column)
    requires WellTyped(a.fields) && HoldsAll(row, a)
    ensures Scan(row[ID := Int(id)], c, ScanKind(c))
            == Some(Holder(ScanKind(c), if c in row[ID := Int(id)] then Some(row[ID := Int(id)][c]) else None))
  {
    SwitchesAgree(c);
  }

  /**
   Create, then read: for every accepted set of fields, reading the row that createSpec denotes, in
   any columns and in any order, meets no type mismatch, and gives the node's own fields.
   */
  method CreateThenRead(a: NewAccount, id: int, columns: seq<Column>)
    returns (node: Cells, read: Node, err: Option<ReadError>)
    requires WellTyped(a.fields) && forall i | 0 <= i < |columns| :: !columns[i].Selected?
    ensures err == None && HoldsAll(node - {ID}, a) && ID in node && node[ID] == Int(id)
    ensures read.cells == map c | c in node && c in columns :: node[c]
  {
    var row;
    node, row := CreateSpec(a);
    SameCells(a, node, row);
    var stored := row[ID := Int(id)];
    var kinds := ScanValues(columns);
    var values: seq<Holder> := [];
    for i := 0 to |columns|
      invariant |values| == i && forall j | 0 <= j < i ::
                Scan(stored, columns[j], ScanKind(columns[j])) == Some(values[j])
      invariant forall j | 0 <= j < |columns| :: kinds[j] == ScanKind(columns[j])
    {
      RowFits(a, row, id, columns[i]);
      values := values + [Scan(stored, columns[i], kinds[i]).value];
    }
    read := new Node();
    forall i | 0 <= i < |columns| ensures values[i].kind == AssignKind(columns[i]) {
      SwitchesAgree(columns[i]);
    }
    err := read.AssignValues(columns, values);
    NoEmptyDocument(a, stored, id);
    AssignedCells(stored, columns, values);
    assert node[ID := Int(id)] - {ID} == node;
    node := node[ID := Int(id)];
  }

  lemma {:induction false} SameCells(a: NewAccount, node: Cells, row: Cells)
    requires HoldsAll(node, a) && HoldsAll(row, a)
    ensures node == row
  {
    forall c ensures c in node <==> c in row {
      if c.Of? {
        assert Of(c.field) in node <==> Of(c.field) in row;
      }
    }
    forall c | c in node ensures node[c] == row[c] {
      if c.Of? {
        assert node[Of(c.field)] == row[Of(c.field)];
      }
    }
  }

  lemma {:induction false} NoEmptyDocument(a: NewAccount, stored: Cells, id: int)
    requires WellTyped(a.fields) && ID in stored && stored[ID] == Int(id) && HoldsAll(stored - {ID}, a)
    ensures forall c | c in stored :: stored[c] != Document("")
  {
    forall c | c in stored ensures stored[c] != Document("") {
      if c.Of? {
        assert Of(c.field) in stored - {ID};
      } else if c != ID {
        assert c in stored - {ID};
      }
    }
  }
}
