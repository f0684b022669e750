/** The settings of the application, as app/services/settings_spec.py lists them. */
module SettingsTable {
  import opened Common
  import opened Settings
  import opened SettingsLaws

  const AUTH_SPECS: seq<Spec> := [
    Spec(Auth, "jwt_secret", String, Null, {}, None, None, true),
    Spec(Auth, "jwt_algorithm", String, Str("HS256"), {}, None, None, false),
    Spec(Auth, "jwt_access_ttl_minutes", Integer, Int(15), {}, Some(1), None, false),
    Spec(Auth, "jwt_refresh_ttl_days", Integer, Int(30), {}, Some(1), None, false),
    Spec(Auth, "refresh_cookie_name", String, Str("refresh_token"), {}, None, None, false),
    Spec(Auth, "refresh_cookie_secure", Boolean, Bool(false), {}, None, None, false),
    Spec(Auth, "refresh_cookie_samesite", String, Str("lax"), {"lax", "strict", "none"}, None, None, false),
    Spec(Auth, "refresh_cookie_domain", String, Null, {}, None, None, false),
    Spec(Auth, "refresh_cookie_path", String, Str("/auth"), {}, None, None, false),
    Spec(Auth, "totp_issuer", String, Str("starter_template"), {}, None, None, false),
    Spec(Auth, "totp_encryption_key", String, Null, {}, None, None, true),
    Spec(Auth, "api_key_rate_window_seconds", Integer, Int(60), {}, Some(1), None, false),
    Spec(Auth, "api_key_rate_max", Integer, Int(5), {}, Some(1), None, false),
    Spec(Auth, "default_auth_provider", String, Str("local"), {"local", "sso"}, None, None, false)
  ]

  const AUDIT_SPECS: seq<Spec> := [
    Spec(Audit, "enabled", Boolean, Bool(true), {}, None, None, false),
    Spec(Audit, "methods", Json, Composite("['POST', 'PUT', 'PATCH', 'DELETE']"), {}, None, None, false),
    Spec(Audit, "skip_paths", Json, Composite("['/static', '/web', '/health']"), {}, None, None, false),
    Spec(Audit, "read_trigger_header", String, Str("x-audit-read"), {}, None, None, false),
    Spec(Audit, "read_trigger_query", String, Str("audit"), {}, None, None, false)
  ]

  const SCHEDULER_SPECS: seq<Spec> := [
    Spec(Scheduler, "broker_url", String, Null, {}, None, None, false),
    Spec(Scheduler, "result_backend", String, Null, {}, None, None, false),
    Spec(Scheduler, "timezone", String, Str("UTC"), {}, None, None, false),
    Spec(Scheduler, "beat_max_loop_interval", Integer, Int(5), {}, Some(1), None, false),
    Spec(Scheduler, "beat_refresh_seconds", Integer, Int(30), {}, Some(1), None, false)
  ]

  const BILLING_SPECS: seq<Spec> := [
    Spec(Billing, "default_currency", String, Str("usd"), {}, None, None, false),
    Spec(Billing, "tax_rate_percent", Integer, Int(0), {}, Some(0), Some(100), false),
    Spec(Billing, "invoice_prefix", String, Str("INV-"), {}, None, None, false),
    Spec(Billing, "trial_period_days", Integer, Int(14), {}, Some(0), None, false),
    Spec(Billing, "dunning_max_retries", Integer, Int(3), {}, Some(0), None, false),
    Spec(Billing, "grace_period_days", Integer, Int(3), {}, Some(0), None, false),
    Spec(Billing, "webhook_tolerance_seconds", Integer, Int(300), {}, Some(1), None, false)
  ]

  const SPECS: seq<Spec> := AUTH_SPECS + AUDIT_SPECS + SCHEDULER_SPECS + BILLING_SPECS

  ghost predicate AllSound(specs: seq<Spec>) {
    forall i | 0 <= i < |specs| :: Sound(specs[i])
  }

  lemma AuthSpecsAreSound()
    ensures AllSound(AUTH_SPECS)
  {
  }

  lemma AuditSpecsAreSound()
    ensures AllSound(AUDIT_SPECS)
  {
  }

  lemma SchedulerSpecsAreSound()
    ensures AllSound(SCHEDULER_SPECS)
  {
  }

  lemma BillingSpecsAreSound()
    ensures AllSound(BILLING_SPECS)
  {
  }

  lemma SoundTogether(a: seq<Spec>, b: seq<Spec>)
    requires AllSound(a) && AllSound(b)
    ensures AllSound(a + b)
  {
  }

  lemma SpecsAreSound()
    ensures AllSound(SPECS)
  {
    AuthSpecsAreSound();
    AuditSpecsAreSound();
    SchedulerSpecsAreSound();
    BillingSpecsAreSound();
    SoundTogether(AUTH_SPECS, AUDIT_SPECS);
    SoundTogether(AUTH_SPECS + AUDIT_SPECS, SCHEDULER_SPECS);
    SoundTogether(AUTH_SPECS + AUDIT_SPECS + SCHEDULER_SPECS, BILLING_SPECS);
  }

  /** Whatever the table holds, every setting of the application reads as null or as a value its
      specification allows. */
  lemma EverySettingReadsWell(rows: seq<Row>, domain: Domain, key: string)
    ensures match GetSpec(SPECS, domain, key)
            case None => ResolveValue(rows, SPECS, domain, key) == Gives(Null)
            case Some(j) =>
              match ResolveValue(rows, SPECS, domain, key)
              case Raises => false
              case Gives(v) => NullOrFits(SPECS[j], v)
  {
    SpecsAreSound();
    match GetSpec(SPECS, domain, key)
    case None =>
    case Some(j) => SoundReadsWell(SPECS[j], StoredRow(rows, domain, key));
  }
}
