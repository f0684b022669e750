/** What is stored is what is read, and what is read keeps to its specification. */
module SettingsLaws {
  import opened Common
  import opened Text
  import opened Settings
  import Decimal

  predicate HasType(t: ValueType, v: Value) {
    match t
    case String => v.Str?
    case Integer => v.Int?
    case Boolean => v.Bool?
    case Json => !v.Null?
  }

  predicate InBounds(spec: Spec, i: int) {
    && (spec.min.Some? ==> spec.min.value <= i)
    && (spec.max.Some? ==> i <= spec.max.value)
  }

  /** A value a setting may have: of its type, among the allowed ones, within the bounds. */
  predicate Fits(spec: Spec, v: Value) {
    && HasType(spec.valueType, v)
    && (spec.allowed != {} ==> v.Str? && v.text in spec.allowed)
    && (spec.valueType.Integer? && v.Int? ==> InBounds(spec, v.number))
  }

  predicate NullOrFits(spec: Spec, v: Value) {
    v.Null? || Fits(spec, v)
  }

  // ---- Round trip ------------------------------------------------------------------------------

  /** Validation lets through only values that fit, and never null. */
  lemma AcceptedFits(spec: Spec, p: Payload)
    ensures Accept(spec, p).Ok? ==> Fits(spec, Accept(spec, p).value)
  {
  }

  lemma BooleanWords()
    ensures CoerceBoolean(Str("true")) == Some(Bool(true))
    ensures CoerceBoolean(Str("false")) == Some(Bool(false))
  {
    StripBothTrims("true", IsSpace);
    StripBothTrims("false", IsSpace);
    assert Lower("true") == "true";
    assert Lower("false") == "false";
  }

  /** The columns a value is stored in give the value back, whatever the row held before. */
  lemma StoredIsRead(spec: Spec, v: Value, row: Row)
    requires HasType(spec.valueType, v)
    requires (row.text, row.json) == NormalizeForDb(spec.valueType, v)
    ensures Coerced(spec, Some(row)) == v
  {
    if spec.valueType.Integer? {
      Decimal.ParsePrint(v.number);
    } else if spec.valueType.Boolean? {
      BooleanWords();
    }
  }

  lemma FittingIsKept(spec: Spec, row: Option<Row>)
    requires Fits(spec, Coerced(spec, row))
    ensures Resolve(spec, row) == Gives(Coerced(spec, row))
  {
  }

  /** One setting: any stored row, overwritten with an accepted value, resolves to that value. */
  lemma OverwrittenIsRead(spec: Spec, p: Payload, old_: Row)
    requires Accept(spec, p).Ok? && NullFree(NormalizedPayload(spec, p, Accept(spec, p).value))
    ensures Resolve(spec, Some(Overwritten(old_, NormalizedPayload(spec, p, Accept(spec, p).value)))) == Gives(Accept(spec, p).value)
  {
    var v := Accept(spec, p).value;
    var row := Overwritten(old_, NormalizedPayload(spec, p, v));
    AcceptedFits(spec, p);
    StoredIsRead(spec, v, row);
    FittingIsKept(spec, Some(row));
  }

  lemma CreatedIsRead(spec: Spec, p: Payload, domain: Domain, key: string)
    requires Accept(spec, p).Ok?
    ensures Resolve(spec, Some(CreatedRow(domain, key, NormalizedPayload(spec, p, Accept(spec, p).value)))) == Gives(Accept(spec, p).value)
  {
    var v := Accept(spec, p).value;
    var row := CreatedRow(domain, key, NormalizedPayload(spec, p, v));
    AcceptedFits(spec, p);
    StoredIsRead(spec, v, row);
    FittingIsKept(spec, Some(row));
  }

  ghost predicate UniqueKeys(rows: seq<Row>) {
    forall i, j | 0 <= i < j < |rows| :: rows[i].domain != rows[j].domain || rows[i].key != rows[j].key
  }

  /** An upsert writes the row that a lookup finds, and no other. */
  lemma UpsertIsFound(rows: seq<Row>, domain: Domain, key: string, p: Payload)
    requires UpsertByKey(rows, domain, key, p).result.Ok?
    ensures var done := UpsertByKey(rows, domain, key, p);
            var i := FindRow(done.rows, domain, key);
            && i == Some(if FindRow(rows, domain, key).Some? then FindRow(rows, domain, key).value else |rows|)
            && done.rows[i.value] == done.result.value
  {
    var after := UpsertByKey(rows, domain, key, p).rows;
    if FindRow(rows, domain, key).Some? {
      var i := FindRow(rows, domain, key).value;
      assert after[i].domain == domain && after[i].key == key;
      assert forall j | 0 <= j < i :: after[j] == rows[j];
    } else {
      assert forall j | 0 <= j < |rows| :: after[j] == rows[j];
      assert after[|rows|].domain == domain && after[|rows|].key == key;
    }
  }

  /** A lookup sees only the rows with its key. */
  lemma FindSame(rows: seq<Row>, after: seq<Row>, d: Domain, k: string)
    requires |rows| <= |after|
    requires forall j | 0 <= j < |rows| :: after[j].domain == rows[j].domain && after[j].key == rows[j].key
    requires forall j | |rows| <= j < |after| :: after[j].domain != d || after[j].key != k
    ensures FindRow(after, d, k) == FindRow(rows, d, k)
  {
    match FindRow(rows, d, k)
    case Some(i) => assert after[i].domain == d && after[i].key == k;
    case None => assert FindRow(after, d, k).None?;
  }

  lemma UpsertKeepsOthers(rows: seq<Row>, domain: Domain, key: string, p: Payload, d: Domain, k: string)
    requires d != domain || k != key
    ensures StoredRow(UpsertByKey(rows, domain, key, p).rows, d, k) == StoredRow(rows, d, k)
  {
    FindSame(rows, UpsertByKey(rows, domain, key, p).rows, d, k);
  }

  lemma UpsertKeepsUnique(rows: seq<Row>, domain: Domain, key: string, p: Payload)
    requires UniqueKeys(rows)
    ensures UniqueKeys(UpsertByKey(rows, domain, key, p).rows)
  {
    var after := UpsertByKey(rows, domain, key, p).rows;
    assert forall j | 0 <= j < |rows| :: after[j].domain == rows[j].domain && after[j].key == rows[j].key;
  }

  /** Setting a value makes it the value, on either path and over any table; no other setting
      moves, and a refused value changes nothing. */
  lemma RoundTrip(rows: seq<Row>, specs: seq<Spec>, domain: Domain, key: string, p: Payload)
    ensures var done := UpsertSetting(rows, specs, domain, key, p);
            && (done.result.Ok? ==>
                  && GetSpec(specs, domain, key).Some?
                  && var accepted := Accept(specs[GetSpec(specs, domain, key).value], p);
                     && accepted.Ok?
                     && ResolveValue(done.rows, specs, domain, key) == Gives(accepted.value))
            && (done.result.Err? ==> done.rows == rows)
  {
    var done := UpsertSetting(rows, specs, domain, key, p);
    if done.result.Ok? {
      var spec := specs[GetSpec(specs, domain, key).value];
      var payload := NormalizedPayload(spec, p, Accept(spec, p).value);
      UpsertIsFound(rows, domain, key, payload);
      match FindRow(rows, domain, key)
      case Some(i) => OverwrittenIsRead(spec, p, rows[i]);
      case None => CreatedIsRead(spec, p, domain, key);
    }
  }

  lemma OthersKeepTheirValue(rows: seq<Row>, specs: seq<Spec>, domain: Domain, key: string, p: Payload, d: Domain, k: string)
    requires d != domain || k != key
    ensures ResolveValue(UpsertSetting(rows, specs, domain, key, p).rows, specs, d, k) == ResolveValue(rows, specs, d, k)
  {
    match GetSpec(specs, domain, key)
    case None =>
    case Some(j) =>
      match Accept(specs[j], p)
      case Err(_) =>
      case Ok(v) => UpsertKeepsOthers(rows, domain, key, NormalizedPayload(specs[j], p, v), d, k);
  }

  /** Deleting a setting only clears its active flag, which reading never looks at: every setting
      keeps its value. */
  lemma DeletionDoesNotUnset(rows: seq<Row>, specs: seq<Spec>, scope: Option<Domain>, id: nat, d: Domain, k: string)
    ensures ResolveValue(Delete(rows, scope, id).rows, specs, d, k) == ResolveValue(rows, specs, d, k)
  {
    FindSame(rows, Delete(rows, scope, id).rows, d, k);
  }

  // ---- Reading any row ---------------------------------------------------------------------------

  /** The setting can be read, and what is read may be its value. */
  predicate ReadsWell(spec: Spec, row: Option<Row>) {
    match Resolve(spec, row)
    case Raises => false
    case Gives(v) => NullOrFits(spec, v)
  }

  ghost predicate AlwaysReadsWell(spec: Spec) {
    forall row :: ReadsWell(spec, row)
  }

  predicate DefaultTyped(spec: Spec) {
    spec.default.Null? || HasType(spec.valueType, spec.default)
  }

  /** A specification no stored row can defeat.  A list or dictionary cannot be looked up in a set,
      so a JSON setting must not restrict its values. */
  predicate Sound(spec: Spec) {
    NullOrFits(spec, spec.default) && !(spec.valueType.Json? && spec.allowed != {})
  }

  lemma CoercedHasType(spec: Spec, row: Option<Row>)
    requires DefaultTyped(spec)
    ensures var v := Coerced(spec, row);
            v.Null? || HasType(spec.valueType, v) || (spec.valueType.Integer? && v.Bool?)
  {
  }

  lemma RangedFits(spec: Spec, v: Value)
    requires spec.valueType.Integer? && spec.allowed == {} && AsNumber(v).Some?
    requires NullOrFits(spec, spec.default)
    ensures match Ranged(spec, v) case Raises => false case Gives(w) => NullOrFits(spec, w)
  {
  }

  lemma SoundReadsWell(spec: Spec, row: Option<Row>)
    requires Sound(spec)
    ensures ReadsWell(spec, row)
  {
    CoercedHasType(spec, row);
    if spec.valueType.Integer? && spec.allowed == {} && AsNumber(Coerced(spec, row)).Some? {
      RangedFits(spec, Coerced(spec, row));
    }
  }

  lemma UnsoundReadsBadly(spec: Spec)
    requires DefaultTyped(spec) && !Sound(spec)
    ensures exists row :: !ReadsWell(spec, row)
  {
    if spec.valueType.Json? && spec.allowed != {} {
      var list := Row(spec.domain, spec.key, Json, None, Composite("[]"), false, true);
      assert Resolve(spec, Some(list)) == Raises;
      assert !ReadsWell(spec, Some(list));
    } else {
      DefaultIsRead(spec);
      assert !ReadsWell(spec, None);
    }
  }

  lemma DefaultIsRead(spec: Spec)
    requires DefaultTyped(spec)
    ensures Resolve(spec, None) == Gives(spec.default) || Resolve(spec, None) == Raises
  {
  }

  /** Reading keeps to the allowed set and the bounds on every stored row, whatever wrote it, exactly
      when the default does (and no JSON setting restricts its values). */
  lemma ReadsWellExactlyWhenSound(spec: Spec)
    requires DefaultTyped(spec)
    ensures AlwaysReadsWell(spec) <==> Sound(spec)
  {
    if Sound(spec) {
      forall row ensures ReadsWell(spec, row) {
        SoundReadsWell(spec, row);
      }
    } else {
      UnsoundReadsBadly(spec);
    }
  }
}
