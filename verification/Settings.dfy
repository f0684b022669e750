/** Typed settings: how a value is validated, stored and read back
    (app/services/settings_spec.py, app/services/settings_api.py,
    app/services/domain_settings.py). */
module Settings {
  import opened Common
  import opened Text
  import Decimal

  datatype Domain = Auth | Audit | Scheduler | Billing | Marketing

  datatype ValueType = String | Integer | Boolean | Json

  /** A value as the API and the JSON column hold it.  A list or dictionary is known by its text. */
  datatype Value = Null | Bool(flag: bool) | Int(number: int) | Str(text: string) | Composite(repr: string)

  datatype Spec = Spec(
    domain: Domain,
    key: string,
    valueType: ValueType,
    default: Value,
    allowed: set<string>,  // empty for no restriction
    min: Option<int>,
    max: Option<int>,
    secret: bool)

  datatype Row = Row(
    domain: Domain,
    key: string,
    valueType: ValueType,
    text: Option<string>,
    json: Value,
    secret: bool,
    active: bool)

  /** A field of a partial update: left out, or given (possibly as null). */
  datatype Field<T> = Unset | Set(value: T)

  datatype Payload = Payload(
    valueType: Field<Option<ValueType>>,
    text: Field<Option<string>>,
    json: Field<Value>,
    secret: Field<Option<bool>>,
    active: Field<Option<bool>>)

  datatype Error =
    | InvalidKey | ValueRequired | WrongType | NotAllowed | TooSmall | TooLarge
    | UnknownDomain | DomainRequired | NotFound | UnhashableValue | NullColumn | DuplicateKey

  datatype Result<T> = Ok(value: T) | Err(error: Error)

  /** What `resolve_value` returns, or an uncaught TypeError. */
  datatype Resolved = Gives(value: Value) | Raises

  // ---- Coercion ----------------------------------------------------------------------------

  const TRUE_WORDS := {"1", "true", "yes", "on"}
  const FALSE_WORDS := {"0", "false", "no", "off"}

  /** `str(value)` */
  function AsText(v: Value): string {
    match v
    case Null => "None"
    case Bool(b) => if b then "True" else "False"
    case Int(i) => Decimal.Print(i)
    case Str(s) => s
    case Composite(repr) => repr
  }

  /** The number a Python `int` is, where a bool is an int too. */
  function AsNumber(v: Value): Option<int> {
    match v
    case Bool(b) => Some(if b then 1 else 0)
    case Int(i) => Some(i)
    case _ => None
  }

  function CoerceBoolean(raw: Value): Option<Value> {
    match raw
    case Bool(b) => Some(raw)
    case Str(s) =>
      var word := Lower(Strip(s));
      if word in TRUE_WORDS then Some(Bool(true)) else if word in FALSE_WORDS then Some(Bool(false)) else None
    case _ => None
  }

  function CoerceInteger(raw: Value): Option<Value> {
    match raw
    case Bool(_) => Some(raw)
    case Int(_) => Some(raw)
    case Str(s) =>
      (match Decimal.Parse(s)
       case None => None
       case Some(i) => Some(Int(i)))
    case _ => None
  }

  function CoerceValue(t: ValueType, raw: Value): Option<Value> {
    if raw.Null? then Some(Null)
    else
      match t
      case Boolean => CoerceBoolean(raw)
      case Integer => CoerceInteger(raw)
      case String => Some(Str(AsText(raw)))
      case Json => Some(raw)
  }

  // ---- Validation ----------------------------------------------------------------------------

  function Given<T>(f: Field<T>, default: T): T {
    match f
    case Unset => default
    case Set(v) => v
  }

  function PayloadValue(p: Payload): Value {
    match Given(p.text, None)
    case Some(s) => Str(s)
    case None => Given(p.json, Null)
  }

  function InRange(spec: Spec, i: int): Result<int> {
    if spec.min.Some? && i < spec.min.value then Err(TooSmall)
    else if spec.max.Some? && i > spec.max.value then Err(TooLarge)
    else Ok(i)
  }

  /** The value that a payload asks to be stored. */
  function Accept(spec: Spec, p: Payload): Result<Value> {
    var value := PayloadValue(p);
    if value.Null? then Err(ValueRequired)
    else
      match CoerceValue(spec.valueType, value)
      case None => Err(WrongType)
      case Some(coerced) =>
        var folded := if coerced.Str? && spec.allowed != {} then Str(Lower(Strip(coerced.text))) else coerced;
        if spec.allowed != {} && folded.Composite? then Err(UnhashableValue)
        else if spec.allowed != {} && !(folded.Str? && folded.text in spec.allowed) then Err(NotAllowed)
        else if spec.valueType.Integer? && AsNumber(folded).Some? then
          (match InRange(spec, AsNumber(folded).value)
           case Ok(i) => Ok(Int(i))
           case Err(e) => Err(e))
        else Ok(folded)
  }

  predicate Truthy(v: Value) {
    match v
    case Null => false
    case Bool(b) => b
    case Int(i) => i != 0
    case Str(s) => s != ""
    case Composite(repr) => repr != "[]" && repr != "{}"
  }

  /** The two columns that hold a value. */
  function NormalizeForDb(t: ValueType, v: Value): (Option<string>, Value) {
    match t
    case Boolean => (Some(if Truthy(v) then "true" else "false"), Bool(Truthy(v)))
    case Integer => (Some(AsText(v)), Null)
    case String => (Some(AsText(v)), Null)
    case Json => (None, v)
  }

  function NormalizedPayload(spec: Spec, p: Payload, v: Value): Payload {
    var (text, json) := NormalizeForDb(spec.valueType, v);
    Payload(Set(Some(spec.valueType)), Set(text), Set(json), (if spec.secret then Set(Some(true)) else p.secret), p.active)
  }

  // ---- The table -------------------------------------------------------------------------------

  function FindRow(rows: seq<Row>, domain: Domain, key: string): Option<nat> {
    First(rows, (r: Row) => r.domain == domain && r.key == key)
  }

  /** No column that must hold a value is set to null. */
  predicate NullFree(p: Payload) {
    && p.valueType != Set(None)
    && p.secret != Set(None)
    && p.active != Set(None)
  }

  function Overwritten(r: Row, p: Payload): Row
    requires NullFree(p)
  {
    Row(r.domain, r.key,
        (if p.valueType.Set? then p.valueType.value.value else r.valueType),
        Given(p.text, r.text),
        Given(p.json, r.json),
        (if p.secret.Set? then p.secret.value.value else r.secret),
        (if p.active.Set? then p.active.value.value else r.active))
  }

  function OrElse<T>(o: Option<T>, default: T): T {
    match o
    case None => default
    case Some(v) => v
  }

  function CreatedRow(domain: Domain, key: string, p: Payload): Row {
    Row(domain, key, OrElse(Given(p.valueType, None), String), Given(p.text, None), Given(p.json, Null),
        OrElse(Given(p.secret, None), false), OrElse(Given(p.active, None), true))
  }

  datatype Outcome<T> = Outcome(rows: seq<Row>, result: Result<T>)

  function UpsertByKey(rows: seq<Row>, domain: Domain, key: string, p: Payload): Outcome<Row> {
    match FindRow(rows, domain, key)
    case Some(i) =>
      if !NullFree(p) then Outcome(rows, Err(NullColumn))
      else Outcome(rows[i := Overwritten(rows[i], p)], Ok(Overwritten(rows[i], p)))
    case None => Outcome(rows + [CreatedRow(domain, key, p)], Ok(CreatedRow(domain, key, p)))
  }

  function EnsureByKey(rows: seq<Row>, domain: Domain, key: string, t: ValueType, text: Option<string>, json: Value, secret: bool): Outcome<Row> {
    match FindRow(rows, domain, key)
    case Some(i) => Outcome(rows, Ok(rows[i]))
    case None =>
      var r := Row(domain, key, t, text, json, secret, true);
      Outcome(rows + [r], Ok(r))
  }

  function Delete(rows: seq<Row>, scope: Option<Domain>, id: nat): Outcome<()> {
    if id >= |rows| || (scope.Some? && rows[id].domain != scope.value) then Outcome(rows, Err(NotFound))
    else Outcome(rows[id := rows[id].(active := false)], Ok(()))
  }

  function GetSpec(specs: seq<Spec>, domain: Domain, key: string): Option<nat> {
    First(specs, (s: Spec) => s.domain == domain && s.key == key)
  }

  /** The domains that DOMAIN_SETTINGS_SERVICE maps to a service. */
  predicate HasService(domain: Domain) {
    !domain.Marketing?
  }

  function UpsertSetting(rows: seq<Row>, specs: seq<Spec>, domain: Domain, key: string, p: Payload): Outcome<Row> {
    match GetSpec(specs, domain, key)
    case None => Outcome(rows, Err(InvalidKey))
    case Some(j) =>
      match Accept(specs[j], p)
      case Err(e) => Outcome(rows, Err(e))
      case Ok(v) =>
        if !HasService(domain) then Outcome(rows, Err(UnknownDomain))
        else UpsertByKey(rows, domain, key, NormalizedPayload(specs[j], p, v))
  }

  // ---- Reading back ----------------------------------------------------------------------------

  function ExtractDbValue(row: Option<Row>): Value {
    match row
    case None => Null
    case Some(r) => if r.text.Some? then Str(r.text.value) else r.json
  }

  function Coerced(spec: Spec, row: Option<Row>): Value {
    var stored := ExtractDbValue(row);
    var raw := if stored.Null? then spec.default else stored;
    OrElse(CoerceValue(spec.valueType, raw), spec.default)
  }

  function Admitted(spec: Spec, v: Value): Resolved {
    if spec.allowed == {} || v.Null? then Gives(v)
    else if v.Composite? then Raises
    else if v.Str? && v.text in spec.allowed then Gives(v)
    else Gives(spec.default)
  }

  /** `int(value)`, or the default where that fails. */
  function Parsed(spec: Spec, v: Value): Value {
    var number := if v.Str? then Decimal.Parse(v.text) else AsNumber(v);
    match number
    case Some(i) => Int(i)
    case None => if AsNumber(spec.default).Some? then spec.default else Null
  }

  /** Replaces the value by the default when it is on the wrong side of a bound; comparing text
      with a number raises. */
  function Bounded(spec: Spec, v: Value, bound: Option<int>, outside: (int, int) -> bool): Resolved {
    if bound.None? || v.Null? then Gives(v)
    else
      match AsNumber(v)
      case None => Raises
      case Some(i) => Gives(if outside(i, bound.value) then spec.default else v)
  }

  function Ranged(spec: Spec, v: Value): Resolved {
    match Bounded(spec, Parsed(spec, v), spec.min, (i, b) => i < b)
    case Raises => Raises
    case Gives(w) => Bounded(spec, w, spec.max, (i, b) => i > b)
  }

  function Resolve(spec: Spec, row: Option<Row>): Resolved {
    match Admitted(spec, Coerced(spec, row))
    case Raises => Raises
    case Gives(v) => if spec.valueType.Integer? && !v.Null? then Ranged(spec, v) else Gives(v)
  }

  function StoredRow(rows: seq<Row>, domain: Domain, key: string): Option<Row> {
    match FindRow(rows, domain, key)
    case Some(i) => if HasService(domain) then Some(rows[i]) else None
    case None => None
  }

  function ResolveValue(rows: seq<Row>, specs: seq<Spec>, domain: Domain, key: string): Resolved {
    match GetSpec(specs, domain, key)
    case None => Gives(Null)
    case Some(j) => Resolve(specs[j], StoredRow(rows, domain, key))
  }
}
