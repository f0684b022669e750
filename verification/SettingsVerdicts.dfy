/** What a payload means to a setting, what is stored for it and what is read back, told from
    the texts and columns. */
module SettingsVerdicts {
  import opened Common
  import opened Text
  import opened Settings
  import opened SettingsLaws
  import Decimal

  // ---- What a value means ------------------------------------------------------------------------

  predicate SaysYes(s: string) {
    Lower(Strip(s)) in {"1", "true", "yes", "on"}
  }

  predicate SaysNo(s: string) {
    Lower(Strip(s)) in {"0", "false", "no", "off"}
  }

  ghost predicate MeansFlag(v: Value, flag: bool) {
    v == Bool(flag) || (v.Str? && if flag then SaysYes(v.text) else SaysNo(v.text))
  }

  ghost predicate MeansNumber(v: Value, i: int) {
    v == Int(i) || (v == Bool(true) && i == 1) || (v == Bool(false) && i == 0) || (v.Str? && Decimal.Reads(v.text, i))
  }

  ghost predicate MeansText(v: Value, s: string) {
    match v
    case Null => false
    case Bool(b) => s == if b then "True" else "False"
    case Int(i) => Decimal.IsPlain(s) && Decimal.IsInteger(s, i)
    case Str(text) => s == text
    case Composite(repr) => s == repr
  }

  /** As a value of type `t`, `v` is `x`. */
  ghost predicate Means(t: ValueType, v: Value, x: Value) {
    match t
    case Boolean => x.Bool? && MeansFlag(v, x.flag)
    case Integer => x.Int? && MeansNumber(v, x.number)
    case String => x.Str? && MeansText(v, x.text)
    case Json => x == v && v != Null
  }

  lemma FlagVerdict(v: Value, flag: bool)
    ensures CoerceBoolean(v) == Some(Bool(flag)) <==> MeansFlag(v, flag)
    ensures CoerceBoolean(v).Some? ==> CoerceBoolean(v).value.Bool?
  {
  }

  lemma NumberVerdict(v: Value, i: int)
    ensures CoerceInteger(v).Some? && AsNumber(CoerceInteger(v).value) == Some(i) <==> MeansNumber(v, i)
    ensures CoerceInteger(v).Some? ==> AsNumber(CoerceInteger(v).value).Some?
  {
    if v.Str? {
      Decimal.ParseVerdict(v.text, i);
    }
  }

  lemma TextVerdict(v: Value, s: string)
    requires v != Null
    ensures s == AsText(v) <==> MeansText(v, s)
  {
    if v.Int? {
      Decimal.PrintVerdict(v.number, s);
    }
  }

  /** The value that `coerced` comes to once an integer setting reads a flag as a number. */
  function AsTyped(t: ValueType, coerced: Value): Value {
    if t.Integer? && AsNumber(coerced).Some? then Int(AsNumber(coerced).value) else coerced
  }

  /** Coercion finds what a value means, and fails exactly when it means nothing. */
  lemma CoercionVerdict(t: ValueType, v: Value)
    requires v != Null
    ensures forall x :: CoerceValue(t, v).Some? && AsTyped(t, CoerceValue(t, v).value) == x <==> Means(t, v, x)
  {
    forall x ensures CoerceValue(t, v).Some? && AsTyped(t, CoerceValue(t, v).value) == x <==> Means(t, v, x) {
      match t
      case Boolean => { FlagVerdict(v, x.Bool? && x.flag); }
      case Integer => { NumberVerdict(v, if x.Int? then x.number else 0); }
      case String => { TextVerdict(v, if x.Str? then x.text else ""); }
      case Json => {}
    }
  }

  // ---- What a payload asks for ---------------------------------------------------------------------

  /** The value a payload gives: its text, or else what it has as JSON. */
  predicate Asks(p: Payload, v: Value) {
    || (p.text.Set? && p.text.value.Some? && v == Str(p.text.value.value))
    || (p.text in {Unset, Set(None)} && p.json == Set(v))
  }

  /** A restricted setting wants the text, without blanks around it and in lower case, to be one of
      the allowed ones; any other takes the value as it is. */
  ghost predicate Chooses(spec: Spec, y: Value, x: Value) {
    if spec.allowed == {} then x == y
    else y.Str? && x == Str(Lower(Strip(y.text))) && x.text in spec.allowed
  }

  predicate WithinBounds(spec: Spec, x: Value) {
    x.Int? && spec.valueType == Integer ==>
      (spec.min.Some? ==> x.number >= spec.min.value) && (spec.max.Some? ==> x.number <= spec.max.value)
  }

  ghost predicate Comes(spec: Spec, p: Payload, v: Value, y: Value, x: Value) {
    Asks(p, v) && Means(spec.valueType, v, y) && Chooses(spec, y, x) && WithinBounds(spec, x)
  }

  /** The payload asks to set `x`. */
  ghost predicate Admissible(spec: Spec, p: Payload, x: Value) {
    exists v, y :: Comes(spec, p, v, y, x)
  }

  lemma AsksVerdict(p: Payload, v: Value)
    requires v != Null
    ensures Asks(p, v) <==> PayloadValue(p) == v
  {
  }

  lemma AcceptOfMeaning(spec: Spec, p: Payload, v: Value, x: Value)
    requires v != Null && PayloadValue(p) == v
    ensures Accept(spec, p) == Ok(x) <==>
            CoerceValue(spec.valueType, v).Some?
            && Chooses(spec, AsTyped(spec.valueType, CoerceValue(spec.valueType, v).value), x) && WithinBounds(spec, x)
  {
  }

  /** Validation accepts exactly what is asked for and admissible. */
  lemma AcceptVerdict(spec: Spec, p: Payload, x: Value)
    ensures Accept(spec, p) == Ok(x) <==> Admissible(spec, p, x)
  {
    var v := PayloadValue(p);
    if v != Null {
      CoercionVerdict(spec.valueType, v);
      AcceptOfMeaning(spec, p, v, x);
      if Accept(spec, p) == Ok(x) {
        AsksVerdict(p, v);
        assert Comes(spec, p, v, AsTyped(spec.valueType, CoerceValue(spec.valueType, v).value), x);
      }
    }
    if v', y :| Comes(spec, p, v', y, x) {
      AsksVerdict(p, v');
    }
  }

  /** Why a payload is refused. */
  lemma RefusalVerdict(spec: Spec, p: Payload)
    ensures Accept(spec, p) == Err(ValueRequired) <==> forall v | Asks(p, v) :: v == Null
    ensures Accept(spec, p) == Err(WrongType) <==> exists v :: v != Null && Asks(p, v) && forall y :: !Means(spec.valueType, v, y)
  {
    var v := PayloadValue(p);
    if v != Null {
      AsksVerdict(p, v);
      CoercionVerdict(spec.valueType, v);
      if CoerceValue(spec.valueType, v).Some? {
        assert Means(spec.valueType, v, AsTyped(spec.valueType, CoerceValue(spec.valueType, v).value));
      }
    }
    forall w | w != Null && Asks(p, w) ensures w == v {
      AsksVerdict(p, w);
    }
  }

  ghost predicate Chosen(spec: Spec, p: Payload, y: Value) {
    exists v :: v != Null && Asks(p, v) && Means(spec.valueType, v, y)
  }

  predicate IsTyped(spec: Spec, p: Payload, y: Value) {
    var v := PayloadValue(p);
    v != Null && CoerceValue(spec.valueType, v).Some? && AsTyped(spec.valueType, CoerceValue(spec.valueType, v).value) == y
  }

  lemma ChosenIsTyped(spec: Spec, p: Payload, y: Value)
    requires Chosen(spec, p, y)
    ensures IsTyped(spec, p, y)
  {
    var v :| v != Null && Asks(p, v) && Means(spec.valueType, v, y);
    AsksVerdict(p, v);
    CoercionVerdict(spec.valueType, v);
  }

  lemma TypedRefused(spec: Spec, p: Payload, y: Value)
    requires IsTyped(spec, p, y)
    ensures Accept(spec, p) == Err(UnhashableValue) <==> spec.allowed != {} && y.Composite?
    ensures Accept(spec, p) == Err(NotAllowed) <==>
            spec.allowed != {} && !y.Composite? && !(y.Str? && Lower(Strip(y.text)) in spec.allowed)
  {
  }

  lemma TypedOutOfBounds(spec: Spec, p: Payload, y: Value)
    requires IsTyped(spec, p, y) && spec.allowed == {} && spec.valueType == Integer && y.Int?
    ensures Accept(spec, p) == Err(TooSmall) <==> spec.min.Some? && y.number < spec.min.value
    ensures Accept(spec, p) == Err(TooLarge) <==> !(spec.min.Some? && y.number < spec.min.value) && spec.max.Some? && spec.max.value < y.number
  {
  }

  /** A value out of bounds, or not among the allowed ones, is refused as such. */
  lemma ValueRefused(spec: Spec, p: Payload, y: Value)
    requires Chosen(spec, p, y)
    ensures Accept(spec, p) == Err(UnhashableValue) <==> spec.allowed != {} && y.Composite?
    ensures Accept(spec, p) == Err(NotAllowed) <==>
            spec.allowed != {} && !y.Composite? && !(y.Str? && Lower(Strip(y.text)) in spec.allowed)
    ensures spec.allowed == {} && spec.valueType == Integer && y.Int? ==>
              && (Accept(spec, p) == Err(TooSmall) <==> spec.min.Some? && y.number < spec.min.value)
              && (Accept(spec, p) == Err(TooLarge) <==> !(spec.min.Some? && y.number < spec.min.value) && spec.max.Some? && spec.max.value < y.number)
  {
    ChosenIsTyped(spec, p, y);
    TypedRefused(spec, p, y);
    if spec.allowed == {} && spec.valueType == Integer && y.Int? {
      TypedOutOfBounds(spec, p, y);
    }
  }

  // ---- What is read ------------------------------------------------------------------------------------

  /** What a row holds: its text, or else its JSON. */
  predicate HoldsValue(row: Option<Row>, v: Value) {
    match row
    case None => v == Null
    case Some(r) => if r.text.Some? then v == Str(r.text.value) else v == r.json
  }

  lemma UsableIsRead(spec: Spec, row: Option<Row>, v: Value, x: Value)
    requires HoldsValue(row, v) && v != Null && Means(spec.valueType, v, x) && Fits(spec, x)
    ensures Resolve(spec, row) == Gives(x)
  {
    CoercionVerdict(spec.valueType, v);
  }

  lemma DefaultReadsItself(spec: Spec, row: Option<Row>)
    requires Sound(spec) && HoldsValue(row, Null)
    ensures Resolve(spec, row) == Gives(spec.default)
  {
  }

  lemma UnusableReadsDefault(spec: Spec, row: Option<Row>, v: Value)
    requires Sound(spec) && HoldsValue(row, v) && v != Null
    requires forall x :: !(Means(spec.valueType, v, x) && Fits(spec, x))
    ensures Resolve(spec, row) == Gives(spec.default)
  {
    CoercionVerdict(spec.valueType, v);
    if CoerceValue(spec.valueType, v).Some? {
      assert Means(spec.valueType, v, AsTyped(spec.valueType, CoerceValue(spec.valueType, v).value));
    }
  }

  /** Reading gives what the row holds when that means a value the setting may have, and the
      default otherwise, on any row whoever wrote it. */
  lemma ReadVerdict(spec: Spec, row: Option<Row>, v: Value)
    requires Sound(spec) && HoldsValue(row, v)
    ensures forall x | v != Null && Means(spec.valueType, v, x) && Fits(spec, x) :: Resolve(spec, row) == Gives(x)
    ensures (forall x :: !(v != Null && Means(spec.valueType, v, x) && Fits(spec, x))) ==> Resolve(spec, row) == Gives(spec.default)
  {
    if v == Null {
      DefaultReadsItself(spec, row);
    } else if x :| Means(spec.valueType, v, x) && Fits(spec, x) {
      forall x' | Means(spec.valueType, v, x') && Fits(spec, x') ensures Resolve(spec, row) == Gives(x') {
        UsableIsRead(spec, row, v, x');
      }
    } else {
      UnusableReadsDefault(spec, row, v);
    }
  }

  // ---- Setting a value ---------------------------------------------------------------------------------

  /** Specification `j` is the one for the key. */
  predicate IsSpecOf(specs: seq<Spec>, domain: Domain, key: string, j: nat) {
    && j < |specs| && specs[j].domain == domain && specs[j].key == key
    && forall i | 0 <= i < j :: specs[i].domain != domain || specs[i].key != key
  }

  predicate IsRowOf(rows: seq<Row>, domain: Domain, key: string, i: nat) {
    && i < |rows| && rows[i].domain == domain && rows[i].key == key
    && forall j | 0 <= j < i :: rows[j].domain != domain || rows[j].key != key
  }

  /** The two columns as `x` is stored in them. */
  predicate Stores(t: ValueType, row: Row, x: Value) {
    match t
    case Boolean => x.Bool? && row.text == Some(if x.flag then "true" else "false") && row.json == x
    case Integer => x.Int? && row.text.Some? && Decimal.IsPlain(row.text.value) && Decimal.IsInteger(row.text.value, x.number) && row.json == Null
    case String => x.Str? && row.text == Some(x.text) && row.json == Null
    case Json => row.text == None && row.json == x
  }

  lemma StoresVerdict(spec: Spec, p: Payload, x: Value)
    requires Accept(spec, p) == Ok(x)
    ensures forall row: Row | row.text == NormalizeForDb(spec.valueType, x).0 && row.json == NormalizeForDb(spec.valueType, x).1 ::
              Stores(spec.valueType, row, x)
  {
    AcceptedFits(spec, p);
    if x.Int? {
      Decimal.PrintVerdict(x.number, Decimal.Print(x.number));
    }
  }

  /** A payload's flag, or the one there was, or the one of new rows. */
  predicate Flagged(given: Field<Option<bool>>, before: Option<bool>, initial: bool, after: bool) {
    match given
    case Set(Some(b)) => after == b
    case Set(None) => before.None? && after == initial
    case Unset => after == (if before.Some? then before.value else initial)
  }

  /** The row of the setting after `x` was set. */
  predicate IsSetTo(spec: Spec, p: Payload, before: Option<Row>, after: Row, x: Value) {
    && after.valueType == spec.valueType && Stores(spec.valueType, after, x)
    && (if spec.secret then after.secret
        else Flagged(p.secret, if before.Some? then Some(before.value.secret) else None, false, after.secret))
    && Flagged(p.active, if before.Some? then Some(before.value.active) else None, true, after.active)
  }

  lemma SpecFound(specs: seq<Spec>, domain: Domain, key: string, j: nat)
    ensures GetSpec(specs, domain, key) == Some(j) <==> IsSpecOf(specs, domain, key, j)
  {
  }

  lemma RowFound(rows: seq<Row>, domain: Domain, key: string, i: nat)
    ensures FindRow(rows, domain, key) == Some(i) <==> IsRowOf(rows, domain, key, i)
  {
  }

  lemma OverwrittenIsSet(spec: Spec, p: Payload, row: Row, x: Value)
    requires Accept(spec, p) == Ok(x) && NullFree(NormalizedPayload(spec, p, x))
    ensures IsSetTo(spec, p, Some(row), Overwritten(row, NormalizedPayload(spec, p, x)), x)
  {
    StoresVerdict(spec, p, x);
  }

  lemma CreatedIsSet(spec: Spec, p: Payload, domain: Domain, key: string, x: Value)
    requires Accept(spec, p) == Ok(x)
    ensures IsSetTo(spec, p, None, CreatedRow(domain, key, NormalizedPayload(spec, p, x)), x)
  {
    StoresVerdict(spec, p, x);
  }

  /** A flag that may not be null is set to null. */
  predicate NullsFlag(spec: Spec, p: Payload) {
    (p.secret == Set(None) && !spec.secret) || p.active == Set(None)
  }

  /** A setting is set exactly when its domain has a service, the payload is admissible, and no flag of
      an existing row would become null. */
  lemma SetExactlyWhen(rows: seq<Row>, specs: seq<Spec>, domain: Domain, key: string, p: Payload, j: nat, x: Value)
    requires IsSpecOf(specs, domain, key, j) && Admissible(specs[j], p, x)
    ensures UpsertSetting(rows, specs, domain, key, p).result.Ok? <==>
            domain in {Auth, Audit, Scheduler, Billing} && !(NullsFlag(specs[j], p) && exists i: nat :: IsRowOf(rows, domain, key, i))
  {
    SpecFound(specs, domain, key, j);
    AcceptVerdict(specs[j], p, x);
    if FindRow(rows, domain, key).Some? {
      RowFound(rows, domain, key, FindRow(rows, domain, key).value);
    }
    forall i: nat ensures FindRow(rows, domain, key) == Some(i) <==> IsRowOf(rows, domain, key, i) {
      RowFound(rows, domain, key, i);
    }
  }

  /** Setting an admissible value makes its row hold that value, and reading give it. */
  lemma SetVerdict(rows: seq<Row>, specs: seq<Spec>, domain: Domain, key: string, p: Payload, j: nat, x: Value) returns (i: nat)
    requires IsSpecOf(specs, domain, key, j) && Admissible(specs[j], p, x)
    requires UpsertSetting(rows, specs, domain, key, p).result.Ok?
    ensures var after := UpsertSetting(rows, specs, domain, key, p).rows;
            && IsRowOf(after, domain, key, i) && (i < |rows| <==> IsRowOf(rows, domain, key, i))
            && IsSetTo(specs[j], p, if i < |rows| then Some(rows[i]) else None, after[i], x)
            && |after| == (if i < |rows| then |rows| else |rows| + 1)
            && (forall k | 0 <= k < |rows| && k != i :: after[k] == rows[k])
            && ResolveValue(after, specs, domain, key) == Gives(x)
  {
    SpecFound(specs, domain, key, j);
    AcceptVerdict(specs[j], p, x);
    var payload := NormalizedPayload(specs[j], p, x);
    RoundTrip(rows, specs, domain, key, p);
    UpsertIsFound(rows, domain, key, payload);
    i := FindRow(UpsertSetting(rows, specs, domain, key, p).rows, domain, key).value;
    RowFound(UpsertSetting(rows, specs, domain, key, p).rows, domain, key, i);
    RowFound(rows, domain, key, i);
    if FindRow(rows, domain, key).Some? {
      OverwrittenIsSet(specs[j], p, rows[i], x);
    } else {
      CreatedIsSet(specs[j], p, domain, key, x);
    }
  }

  // ---- The other operations on the table -----------------------------------------------------------------

  /** A deletion clears the active flag of one row there is, of the service's domain if it has one. */
  lemma DeleteVerdict(rows: seq<Row>, scope: Option<Domain>, id: nat)
    ensures var done, found := Delete(rows, scope, id), id < |rows| && scope in {None, Some(rows[id].domain)};
            && (done.result == Ok(()) <==> found) && (done.result == Err(NotFound) <==> !found)
            && |done.rows| == |rows|
            && forall k | 0 <= k < |rows| :: done.rows[k] == if found && k == id then rows[k].(active := false) else rows[k]
  {
  }

  /** Ensuring a key leaves a row that has it alone, and else adds one with the given columns, active. */
  lemma EnsureVerdict(rows: seq<Row>, domain: Domain, key: string, t: ValueType, text: Option<string>, json: Value, secret: bool)
    ensures var done := EnsureByKey(rows, domain, key, t, text, json, secret);
            && (forall i: nat | IsRowOf(rows, domain, key, i) :: done == Outcome(rows, Ok(rows[i])))
            && ((forall i: nat :: !IsRowOf(rows, domain, key, i)) ==>
                  var row := Row(domain, key, t, text, json, secret, true); done == Outcome(rows + [row], Ok(row)))
  {
    forall i: nat ensures FindRow(rows, domain, key) == Some(i) <==> IsRowOf(rows, domain, key, i) {
      RowFound(rows, domain, key, i);
    }
  }
}
