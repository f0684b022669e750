/** The settings table, changed in place, and the two step-by-step computations on a value. */
module SettingsService {
  import opened Common
  import opened Text
  import opened Settings
  import opened SettingsLaws
  import Decimal

  class DomainSettings {
    var rows: seq<Row>
    const specs: seq<Spec>

    constructor (specs: seq<Spec>)
      ensures rows == [] && this.specs == specs
    {
      this.rows := [];
      this.specs := specs;
    }

    method FindSpec(domain: Domain, key: string) returns (r: Option<nat>)
      ensures r == GetSpec(specs, domain, key)
    {
      for j := 0 to |specs|
        invariant forall i | 0 <= i < j :: specs[i].domain != domain || specs[i].key != key
      {
        if specs[j].domain == domain && specs[j].key == key {
          return Some(j);
        }
      }
      return None;
    }

    method GetByKey(service: Option<Domain>, key: string) returns (r: Result<Row>)
      ensures service.None? ==> r == Err(DomainRequired)
      ensures r.Ok? ==> r.value in rows && r.value.domain == service.value && r.value.key == key
      ensures service.Some? && r.Err? ==> r.error.NotFound? && forall row | row in rows :: row.domain != service.value || row.key != key
      ensures service.Some? && r.Ok? ==> forall i | 0 <= i < |rows| && rows[i].domain == service.value && rows[i].key == key ::
                (exists j :: 0 <= j <= i && rows[j] == r.value)
    {
      if service.None? {
        return Err(DomainRequired);
      }
      var found := FindRow(rows, service.value, key);
      if found.None? {
        return Err(NotFound);
      }
      return Ok(rows[found.value]);
    }

    method UpsertByKey(service: Option<Domain>, key: string, p: Payload) returns (r: Result<Row>)
      modifies this
      ensures Outcome(rows, r) ==
              if service.None? then Outcome(old(rows), Err(DomainRequired))
              else Settings.UpsertByKey(old(rows), service.value, key, p)
      ensures UniqueKeys(old(rows)) ==> UniqueKeys(rows)
    {
      if service.None? {
        return Err(DomainRequired);
      }
      UpsertMeets(rows, service.value, key, p);
      var found := FindRow(rows, service.value, key);
      if found.Some? {
        var row := rows[found.value];
        if p.valueType == Set(None) || p.secret == Set(None) || p.active == Set(None) {
          return Err(NullColumn);
        }
        if p.valueType.Set? {
          row := row.(valueType := p.valueType.value.value);
        }
        if p.text.Set? {
          row := row.(text := p.text.value);
        }
        if p.json.Set? {
          row := row.(json := p.json.value);
        }
        if p.secret.Set? {
          row := row.(secret := p.secret.value.value);
        }
        if p.active.Set? {
          row := row.(active := p.active.value.value);
        }
        rows := rows[found.value := row];
        return Ok(row);
      }
      var created := CreatedRow(service.value, key, p);
      rows := rows + [created];
      return Ok(created);
    }

    lemma UpsertMeets(rows: seq<Row>, domain: Domain, key: string, p: Payload)
      ensures UniqueKeys(rows) ==> UniqueKeys(Settings.UpsertByKey(rows, domain, key, p).rows)
    {
      if UniqueKeys(rows) {
        UpsertKeepsUnique(rows, domain, key, p);
      }
    }

    method EnsureByKey(service: Option<Domain>, key: string, t: ValueType, text: Option<string>, json: Value, secret: bool)
      returns (r: Result<Row>)
      modifies this
      ensures Outcome(rows, r) ==
              if service.None? then Outcome(old(rows), Err(DomainRequired))
              else Settings.EnsureByKey(old(rows), service.value, key, t, text, json, secret)
      ensures UniqueKeys(old(rows)) ==> UniqueKeys(rows)
    {
      if service.None? {
        return Err(DomainRequired);
      }
      var found := FindRow(rows, service.value, key);
      if found.Some? {
        return Ok(rows[found.value]);
      }
      var created := Row(service.value, key, t, text, json, secret, true);
      rows := rows + [created];
      return Ok(created);
    }

    method Delete(service: Option<Domain>, id: nat) returns (r: Result<()>)
      modifies this
      ensures Outcome(rows, r) == Settings.Delete(old(rows), service, id)
      ensures UniqueKeys(old(rows)) ==> UniqueKeys(rows)
    {
      if id >= |rows| || (service.Some? && rows[id].domain != service.value) {
        return Err(NotFound);
      }
      rows := rows[id := rows[id].(active := false)];
      return Ok(());
    }

    method NormalizeSpecSetting(domain: Domain, key: string, p: Payload) returns (r: Result<Payload>)
      ensures r == match GetSpec(specs, domain, key)
                   case None => Err(InvalidKey)
                   case Some(j) =>
                     match Accept(specs[j], p)
                     case Err(e) => Err(e)
                     case Ok(v) => Ok(NormalizedPayload(specs[j], p, v))
    {
      var found := FindSpec(domain, key);
      if found.None? {
        return Err(InvalidKey);
      }
      var spec := specs[found.value];
      var value := PayloadValue(p);
      if value.Null? {
        return Err(ValueRequired);
      }
      var attempt := CoerceValue(spec.valueType, value);
      if attempt.None? {
        return Err(WrongType);
      }
      var coerced := attempt.value;
      if coerced.Str? && spec.allowed != {} {
        coerced := Str(Lower(Strip(coerced.text)));
      }
      if spec.allowed != {} {
        if coerced.Composite? {
          return Err(UnhashableValue);
        }
        if !coerced.Str? || coerced.text !in spec.allowed {
          return Err(NotAllowed);
        }
      }
      if spec.valueType.Integer? {
        var parsed := AsNumber(coerced);
        if parsed.Some? {
          if spec.min.Some? && parsed.value < spec.min.value {
            return Err(TooSmall);
          }
          if spec.max.Some? && parsed.value > spec.max.value {
            return Err(TooLarge);
          }
          coerced := Int(parsed.value);
        }
      }
      return Ok(NormalizedPayload(spec, p, coerced));
    }

    method UpsertDomainSetting(domain: Domain, key: string, p: Payload) returns (r: Result<Row>)
      modifies this
      ensures Outcome(rows, r) == UpsertSetting(old(rows), specs, domain, key, p)
    {
      var normalized := NormalizeSpecSetting(domain, key, p);
      if normalized.Err? {
        return Err(normalized.error);
      }
      if !HasService(domain) {
        return Err(UnknownDomain);
      }
      r := UpsertByKey(Some(domain), key, normalized.value);
    }

    method ResolveValue(domain: Domain, key: string) returns (r: Resolved)
      ensures r == Settings.ResolveValue(rows, specs, domain, key)
    {
      var found := FindSpec(domain, key);
      if found.None? {
        return Gives(Null);
      }
      var spec := specs[found.value];
      var setting: Option<Row> := None;
      if HasService(domain) {
        var got := GetByKey(Some(domain), key);
        setting := if got.Ok? then Some(got.value) else None;
      }
      var raw := ExtractDbValue(setting);
      if raw.Null? {
        raw := spec.default;
      }
      var attempt := CoerceValue(spec.valueType, raw);
      var value := OrElse(attempt, spec.default);
      r := CheckAllowed(spec, value);
      if r.Raises? {
        return;
      }
      value := r.value;
      if spec.valueType.Integer? && !value.Null? {
        r := ClampInteger(spec, value);
        return;
      }
      return Gives(value);
    }

    method CheckAllowed(spec: Spec, value: Value) returns (r: Resolved)
      ensures r == Admitted(spec, value)
    {
      if spec.allowed != {} && !value.Null? {
        if value.Composite? {
          return Raises;
        }
        if !(value.Str? && value.text in spec.allowed) {
          return Gives(spec.default);
        }
      }
      return Gives(value);
    }

    method ClampInteger(spec: Spec, value: Value) returns (r: Resolved)
      ensures r == Ranged(spec, value)
    {
      var parsed := Parsed(spec, value);
      if spec.min.Some? && !parsed.Null? {
        var number := AsNumber(parsed);
        if number.None? {
          return Raises;
        }
        if number.value < spec.min.value {
          parsed := spec.default;
        }
      }
      if spec.max.Some? && !parsed.Null? {
        var number := AsNumber(parsed);
        if number.None? {
          return Raises;
        }
        if number.value > spec.max.value {
          parsed := spec.default;
        }
      }
      return Gives(parsed);
    }
  }
}
