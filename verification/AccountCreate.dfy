/** AccountCreate: the defaults and checks that every new account passes before it is saved. */
module AccountCreate {
  import opened Options

  datatype Field =
    | CreatedAt | UpdatedAt | DeletedAt | Name | Notes | Platform | Type | Credentials | Extra
    | ProxyFallbackOriginID | Concurrency | LoadFactor | Priority | RateMultiplier | Status | ErrorMessage
    | LastUsedAt | ExpiresAt | AutoPauseOnExpired | Schedulable | RateLimitedAt | RateLimitResetAt
    | OverloadUntil | TempUnschedulableUntil | TempUnschedulableReason | SessionWindowStart
    | SessionWindowEnd | SessionWindowStatus | QuotaDimension

  /** A value of a field; a time is its instant, a JSON value its canonical text. */
  datatype Datum =
    | Int(i: int)
    | Float(x: real)
    | Text(s: string)
    | Bool(b: bool)
    | Time(t: int)
    | Document(json: string)

  /** The fields that are set, with their values. */
  type Mutation = map<Field, Datum>

  datatype Error =
    | Uninitialized(field: Field)
    | Missing(field: Field)
    | Invalid(field: Field)
    | Other(message: string)

  /** The generated package variables: default values, absent for a nil default function, and validators. */
  datatype Config = Config(default: Field -> Option<Datum>, valid: (Field, Datum) -> bool)

  /** The fields that get a default, in the order of `defaults`. */
  const DEFAULTED: seq<Field> := [
    CreatedAt, UpdatedAt, Credentials, Extra, Concurrency, Priority, RateMultiplier, Status,
    AutoPauseOnExpired, Schedulable, QuotaDimension]

  datatype Step = Require(field: Field) | Validate(field: Field)

  /** The steps of `check`, in order. */
  const CHECKS: seq<Step> := [
    Require(CreatedAt), Require(UpdatedAt), Require(Name), Validate(Name), Require(Platform), Validate(Platform),
    Require(Type), Validate(Type), Require(Credentials), Require(Extra), Require(Concurrency), Require(Priority),
    Require(RateMultiplier), Require(Status), Validate(Status), Require(AutoPauseOnExpired), Require(Schedulable),
    Validate(SessionWindowStatus), Require(QuotaDimension), Validate(QuotaDimension)]

  const REQUIRED: set<Field> := {
    CreatedAt, UpdatedAt, Name, Platform, Type, Credentials, Extra, Concurrency, Priority, RateMultiplier, Status,
    AutoPauseOnExpired, Schedulable, QuotaDimension}

  const VALIDATED: set<Field> := {Name, Platform, Type, Status, SessionWindowStatus, QuotaDimension}

  // ----- defaults ------------------------------------------------------------------------------------------

  /** The mutation after `defaults`: values already set stay, and a missing default function ends it early. */
  function Defaulted(config: Config, m: Mutation, fields: seq<Field>): Mutation
    decreases |fields|
  {
    if fields == [] then m
    else if fields[0] in m then Defaulted(config, m, fields[1..])
    else if config.default(fields[0]).None? then m
    else Defaulted(config, m[fields[0] := config.default(fields[0]).value], fields[1..])
  }

  function DefaultsError(config: Config, m: Mutation, fields: seq<Field>): Option<Error> {
    if fields == [] then None
    else if fields[0] !in m && config.default(fields[0]).None? then Some(Uninitialized(fields[0]))
    else DefaultsError(config, m, fields[1..])
  }

  method Defaults(config: Config, m: Mutation) returns (r: Mutation, err: Option<Error>)
    ensures r == Defaulted(config, m, DEFAULTED)
    ensures err == DefaultsError(config, m, DEFAULTED)
  {
    NoDefaultRepeats();
    r, err := SetDefaults(config, m, DEFAULTED);
  }

  method SetDefaults(config: Config, m: Mutation, fields: seq<Field>) returns (r: Mutation, err: Option<Error>)
    requires NoRepeats(fields)
    ensures r == Defaulted(config, m, fields)
    ensures err == DefaultsError(config, m, fields)
  {
    r := m;
    for i := 0 to |fields|
      invariant Defaulted(config, m, fields) == Defaulted(config, r, fields[i..])
      invariant DefaultsError(config, m, fields) == DefaultsError(config, r, fields[i..])
    {
      var field := fields[i];
      assert fields[i..][1..] == fields[i + 1..];
      if field !in r {
        var default := config.default(field);
        if default.None? {
          return r, Some(Uninitialized(field));
        }
        SetElsewhere(config, r, field, default.value, fields[i + 1..]);
        r := r[field := default.value];
      }
    }
    return r, None;
  }

  lemma {:induction false} NoDefaultRepeats()
    ensures NoRepeats(DEFAULTED)
  {
  }

  predicate NoRepeats(fields: seq<Field>) {
    forall i, j | 0 <= i < j < |fields| :: fields[i] != fields[j]
  }

  lemma {:induction false} SetElsewhere(config: Config, m: Mutation, field: Field, v: Datum, fields: seq<Field>)
    requires field !in fields
    ensures DefaultsError(config, m[field := v], fields) == DefaultsError(config, m, fields)
  {
    if fields != [] {
      SetElsewhere(config, m, field, v, fields[1..]);
    }
  }

  // ----- check ---------------------------------------------------------------------------------------------

  predicate Passes(config: Config, m: Mutation, step: Step) {
    match step
    case Require(field) => field in m
    case Validate(field) => field in m ==> config.valid(field, m[field])
  }

  method Check(config: Config, m: Mutation) returns (err: Option<Error>)
    ensures err == CheckError(config, m, CHECKS)
  {
    err := RunChecks(config, m, CHECKS);
  }

  method RunChecks(config: Config, m: Mutation, steps: seq<Step>) returns (err: Option<Error>)
    ensures err == CheckError(config, m, steps)
  {
    for i := 0 to |steps|
      invariant CheckError(config, m, steps) == CheckError(config, m, steps[i..])
    {
      match steps[i]
      case Require(field) =>
        if field !in m {
          return Some(Missing(field));
        }
      case Validate(field) =>
        if field in m && !config.valid(field, m[field]) {
          return Some(Invalid(field));
        }
    }
    return None;
  }

  function CheckError(config: Config, m: Mutation, steps: seq<Step>): Option<Error> {
    if steps == [] then None
    else if Passes(config, m, steps[0]) then CheckError(config, m, steps[1..])
    else Some(match steps[0] case Require(field) => Missing(field) case Validate(field) => Invalid(field))
  }

  lemma {:induction false} CheckPasses(config: Config, m: Mutation, steps: seq<Step>)
    ensures CheckError(config, m, steps) == None <==> forall i | 0 <= i < |steps| :: Passes(config, m, steps[i])
  {
    if steps != [] {
      CheckPasses(config, m, steps[1..]);
      if CheckError(config, m, steps) == None {
        assert forall i | 0 < i < |steps| :: steps[i] == steps[1..][i - 1];
      } else if Passes(config, m, steps[0]) {
        var i :| 0 <= i < |steps[1..]| && !Passes(config, m, steps[1..][i]);
        assert steps[i + 1] == steps[1..][i];
      }
    }
  }

  /** A mutation may be saved. */
  predicate Savable(config: Config, m: Mutation) {
    && (forall field | field in REQUIRED :: field in m)
    && (forall field | field in VALIDATED && field in m :: config.valid(field, m[field]))
  }

  /** Where `check` looks for a required field. */
  function RequireAt(field: Field): nat {
    match field
    case CreatedAt => 0
    case UpdatedAt => 1
    case Name => 2
    case Platform => 4
    case Type => 6
    case Credentials => 8
    case Extra => 9
    case Concurrency => 10
    case Priority => 11
    case RateMultiplier => 12
    case Status => 13
    case AutoPauseOnExpired => 15
    case Schedulable => 16
    case QuotaDimension => 18
    case _ => |CHECKS|
  }

  /** Where `check` validates a field. */
  function ValidateAt(field: Field): nat {
    match field
    case Name => 3
    case Platform => 5
    case Type => 7
    case Status => 14
    case SessionWindowStatus => 17
    case QuotaDimension => 19
    case _ => |CHECKS|
  }

  lemma {:induction false} RequiredChecked(field: Field)
    ensures field in REQUIRED <==> RequireAt(field) < |CHECKS|
    ensures RequireAt(field) < |CHECKS| ==> CHECKS[RequireAt(field)] == Require(field)
  {
  }

  lemma {:induction false} ValidatedChecked(field: Field)
    ensures field in VALIDATED <==> ValidateAt(field) < |CHECKS|
    ensures ValidateAt(field) < |CHECKS| ==> CHECKS[ValidateAt(field)] == Validate(field)
  {
  }

  lemma {:induction false} StepListed(i: nat)
    requires i < |CHECKS|
    ensures CHECKS[i].field in if CHECKS[i].Require? then REQUIRED else VALIDATED
  {
  }

  /** A list of steps that requires and validates exactly the right fields. */
  predicate Covers(steps: seq<Step>) {
    && (forall field | field in REQUIRED :: RequireAt(field) < |steps| && steps[RequireAt(field)] == Require(field))
    && (forall field | field in VALIDATED :: ValidateAt(field) < |steps| && steps[ValidateAt(field)] == Validate(field))
    && (forall i | 0 <= i < |steps| :: steps[i].field in if steps[i].Require? then REQUIRED else VALIDATED)
  }

  lemma {:induction false} ChecksCover()
    ensures Covers(CHECKS)
  {
    forall field ensures field in REQUIRED ==>
      RequireAt(field) < |CHECKS| && CHECKS[RequireAt(field)] == Require(field) {
      RequiredChecked(field);
    }
    forall field ensures field in VALIDATED ==>
      ValidateAt(field) < |CHECKS| && CHECKS[ValidateAt(field)] == Validate(field) {
      ValidatedChecked(field);
    }
    forall i | 0 <= i < |CHECKS| ensures CHECKS[i].field in if CHECKS[i].Require? then REQUIRED else VALIDATED {
      StepListed(i);
    }
  }

  /** `check` accepts exactly the mutations that have every required field and no invalid value. */
  lemma {:induction false} CheckExact(config: Config, m: Mutation)
    ensures CheckError(config, m, CHECKS) == None <==> Savable(config, m)
  {
    ChecksCover();
    StepsExact(config, m, CHECKS);
  }

  lemma {:induction false} StepsExact(config: Config, m: Mutation, steps: seq<Step>)
    requires Covers(steps)
    ensures CheckError(config, m, steps) == None <==> Savable(config, m)
  {
    CheckPasses(config, m, steps);
    if forall i | 0 <= i < |steps| :: Passes(config, m, steps[i]) {
      forall field | field in REQUIRED ensures field in m {
        assert Passes(config, m, steps[RequireAt(field)]);
      }
      forall field | field in VALIDATED && field in m ensures config.valid(field, m[field]) {
        assert Passes(config, m, steps[ValidateAt(field)]);
      }
    }
  }

  // ----- the discarded error ---------------------------------------------------------------------------------

  lemma {:induction false} KeepsValues(config: Config, m: Mutation, fields: seq<Field>)
    decreases |fields|
    ensures forall field | field in m ::
            field in Defaulted(config, m, fields) && Defaulted(config, m, fields)[field] == m[field]
    ensures forall field | field in Defaulted(config, m, fields) && field !in m ::
              field in fields && config.default(field) == Some(Defaulted(config, m, fields)[field])
  {
    if fields != [] {
      if fields[0] in m {
        KeepsValues(config, m, fields[1..]);
      } else if config.default(fields[0]).Some? {
        KeepsValues(config, m[fields[0] := config.default(fields[0]).value], fields[1..]);
      }
    }
  }

  /** An error of `defaults` names a field that it left unset. */
  lemma {:induction false} ErrorLeavesGap(config: Config, m: Mutation, fields: seq<Field>)
    requires NoRepeats(fields)
    decreases |fields|
    ensures DefaultsError(config, m, fields) == None ==> forall field | field in fields ::
            field in Defaulted(config, m, fields)
    ensures DefaultsError(config, m, fields).Some? ==>
              exists field | field in fields ::
                DefaultsError(config, m, fields) == Some(Uninitialized(field)) && field !in Defaulted(config, m, fields)
  {
    if fields != [] {
      var field, rest := fields[0], fields[1..];
      if field in m {
        ErrorLeavesGap(config, m, rest);
        KeepsValues(config, m, rest);
      } else if config.default(field).Some? {
        var next := m[field := config.default(field).value];
        SetElsewhere(config, m, field, config.default(field).value, rest);
        ErrorLeavesGap(config, next, rest);
        KeepsValues(config, next, rest);
      }
    }
  }

  /**
   Dropping the error of `defaults` is safe: a builder whose `defaults` failed is rejected by
   `check`, with a missing field, unless something sets that field in between.
   */
  lemma {:induction false} DroppedErrorIsCaught(config: Config, m: Mutation)
    requires DefaultsError(config, m, DEFAULTED).Some?
    ensures CheckError(config, Defaulted(config, m, DEFAULTED), CHECKS).Some?
    ensures exists field | field in REQUIRED ::
              DefaultsError(config, m, DEFAULTED) == Some(Uninitialized(field))
                && field !in Defaulted(config, m, DEFAULTED)
  {
    NoDefaultRepeats();
    ErrorLeavesGap(config, m, DEFAULTED);
    CheckExact(config, Defaulted(config, m, DEFAULTED));
    assert forall field | field in DEFAULTED :: field in REQUIRED;
  }
}
