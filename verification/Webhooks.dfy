/** The webhook object as the provider shows it, and the update computed from it. */
module Webhooks {
  import opened Options
  import opened Text
  import opened Json
  import opened Wire
  import Paths
  import Utf8

  const ENVELOPE := "webHook"
  const INSECURE_SSL := "insecureSsl"
  const SECRET := "secret"
  const HEADERS := "headers"

  // Reading a provider object.

  /** The official {"webHook": {...}} shape, or the legacy flat one. */
  function DecodeDocument(j: Json): Option<Fields> {
    if !j.Object? then None
    else if ENVELOPE in j.fields then
      if j.fields[ENVELOPE].Object? then Some(j.fields[ENVELOPE].fields) else None
    else Some(j.fields)
  }

  predicate AcceptsDocument(body: Body) {
    body.Value? && DecodeDocument(body.json).Some?
  }

  /** A 2xx reply without a body leaves the document without fields. */
  function DocumentOf(body: Body): Fields {
    if AcceptsDocument(body) then DecodeDocument(body.json).value else map[]
  }

  function DocumentId(d: Fields): Option<string> {
    if "id" in d && d["id"].String? && d["id"].text != "" then Some(d["id"].text) else None
  }

  function InsecureSsl(d: Fields): Option<bool> {
    if INSECURE_SSL in d then AsBool(d[INSECURE_SSL]) else None
  }

  predicate ValidSecret(s: string) {
    32 <= Utf8.Length(s) <= 64 && TrimSpace(s) == s
  }

  predicate SecretMatches(d: Fields, runtime: string) {
    && SECRET in d && ValidSecret(runtime)
    && d[SECRET].String? && ValidSecret(d[SECRET].text) && d[SECRET].text == runtime
  }

  predicate IsAuthorization(name: string) {
    EqualFold(name, "Authorization")
  }

  datatype Headers = NoHeaders | HeaderMap(entries: Fields) | BadHeaders

  function HeadersOf(d: Fields): Headers {
    if HEADERS !in d || d[HEADERS].Null? then NoHeaders
    else if d[HEADERS].Object? then HeaderMap(d[HEADERS].fields)
    else BadHeaders
  }

  predicate HasAuthorization(h: Headers) {
    h.HeaderMap? && exists name | name in h.entries :: IsAuthorization(name)
  }

  // The update.

  function WithoutAuthorization(headers: Fields): Fields {
    map name | name in headers && !IsAuthorization(name) :: headers[name]
  }

  function DesiredFields(d: Fields, migrate: bool, runtime: string): Option<Fields> {
    var secured := d[INSECURE_SSL := Bool(false)];
    if !migrate then Some(secured)
    else
      var signed := secured[SECRET := String(runtime)];
      match HeadersOf(signed)
      case NoHeaders => Some(signed)
      case BadHeaders => None
      case HeaderMap(h) => Some(signed[HEADERS := Object(WithoutAuthorization(h))])
  }

  /** The frame of the update, key by key and header by header. */
  ghost predicate IsFrameOf(d: Fields, migrate: bool, runtime: string, r: Fields) {
    && r.Keys == d.Keys + {"insecureSsl"} + (if migrate then {"secret"} else {})
    && r["insecureSsl"] == Bool(false)
    && (migrate ==> r["secret"] == String(runtime))
    && (forall name | name in d && name != "insecureSsl" && !(migrate && name in {"secret", "headers"}) ::
          r[name] == d[name])
    && (migrate && "headers" in d ==>
          if d["headers"].Null? then r["headers"].Null?
          else
            && d["headers"].Object? && r["headers"].Object?
            && (forall name :: name in r["headers"].fields <==>
                  name in d["headers"].fields && !EqualFold(name, "Authorization"))
            && (forall name | name in r["headers"].fields :: r["headers"].fields[name] == d["headers"].fields[name]))
  }

  // What a document shows, read off its JSON.

  predicate ShowsId(d: Fields, id: string) {
    id != "" && "id" in d && d["id"] == String(id)
  }

  /** null reads as false. */
  predicate ShowsSsl(d: Fields, insecure: bool) {
    "insecureSsl" in d && (d["insecureSsl"] == Bool(insecure) || (d["insecureSsl"].Null? && !insecure))
  }

  predicate ShowsSecret(d: Fields, secret: string) {
    ValidSecret(secret) && "secret" in d && d["secret"] == String(secret)
  }

  predicate ShowsHeaders(d: Fields) {
    "headers" in d ==> d["headers"].Null? || d["headers"].Object?
  }

  predicate ShowsAuthorization(d: Fields) {
    && "headers" in d && d["headers"].Object?
    && exists name | name in d["headers"].fields :: EqualFold(name, "Authorization")
  }

  lemma AccessorsRead(d: Fields)
    ensures forall id :: DocumentId(d) == Some(id) <==> ShowsId(d, id)
    ensures forall b :: InsecureSsl(d) == Some(b) <==> ShowsSsl(d, b)
    ensures forall secret :: SecretMatches(d, secret) <==> ShowsSecret(d, secret)
    ensures HeadersOf(d).BadHeaders? <==> !ShowsHeaders(d)
    ensures HasAuthorization(HeadersOf(d)) <==> ShowsAuthorization(d)
  {
    hide ValidSecret, EqualFold;
  }

  /** Both response shapes, and what is refused. */
  lemma DocumentShapes(j: Json)
    ensures j.Object? && "webHook" in j.fields && j.fields["webHook"].Object? ==>
              AcceptsDocument(Value(j)) && DocumentOf(Value(j)) == j.fields["webHook"].fields
    ensures j.Object? && "webHook" !in j.fields ==> AcceptsDocument(Value(j)) && DocumentOf(Value(j)) == j.fields
    ensures !j.Object? || ("webHook" in j.fields && !j.fields["webHook"].Object?) ==> !AcceptsDocument(Value(j))
    ensures !AcceptsDocument(NotJson) && DocumentOf(Empty) == map[]
  {
  }

  /** Copying a map entry by entry, in an arbitrary order. */
  method CopyFields(d: Fields) returns (fields: Fields)
    ensures fields == d
  {
    fields := map[];
    var pending := d.Keys;
    while pending != {}
      invariant pending <= d.Keys
      invariant fields.Keys == d.Keys - pending
      invariant forall name | name in fields :: fields[name] == d[name]
      decreases |pending|
    {
      var name :| name in pending;
      fields := fields[name := d[name]];
      pending := pending - {name};
    }
  }

  /** Deleting from a map while ranging over it, in an arbitrary order. */
  method DeleteAuthorization(original: Fields) returns (headers: Fields)
    ensures headers == WithoutAuthorization(original)
  {
    headers := original;
    var pending := headers.Keys;
    while pending != {}
      invariant pending <= original.Keys
      invariant forall name :: name in headers <==> name in original && (name in pending || !IsAuthorization(name))
      invariant forall name | name in headers :: headers[name] == original[name]
      decreases |pending|
    {
      var name :| name in pending;
      if IsAuthorization(name) {
        headers := headers - {name};
      }
      pending := pending - {name};
    }
  }

  lemma DesiredFieldsFrame(d: Fields, migrate: bool, runtime: string)
    ensures DesiredFields(d, migrate, runtime).None? <==> migrate && HeadersOf(d).BadHeaders?
    ensures DesiredFields(d, migrate, runtime).Some? ==>
              IsFrameOf(d, migrate, runtime, DesiredFields(d, migrate, runtime).value)
  {
    if migrate && HeadersOf(d).HeaderMap? {
      assert HEADERS in d;
    }
  }

  /** desiredFields, with both loops visiting their map in an arbitrary order. */
  method BuildDesiredFields(d: Fields, migrate: bool, runtime: string) returns (r: Option<Fields>)
    ensures r == DesiredFields(d, migrate, runtime)
    ensures r.None? <==> migrate && HeadersOf(d).BadHeaders?
    ensures r.Some? ==> IsFrameOf(d, migrate, runtime, r.value)
  {
    DesiredFieldsFrame(d, migrate, runtime);
    var fields := CopyFields(d);
    fields := fields[INSECURE_SSL := Bool(false)];
    if !migrate {
      return Some(fields);
    }
    fields := fields[SECRET := String(runtime)];
    if HEADERS !in fields || fields[HEADERS].Null? {
      return Some(fields);
    }
    if !fields[HEADERS].Object? {
      return None;
    }
    var headers := DeleteAuthorization(fields[HEADERS].fields);
    return Some(fields[HEADERS := Object(headers)]);
  }

  lemma DesiredFieldsIdempotent(d: Fields, migrate: bool, runtime: string)
    requires DesiredFields(d, migrate, runtime).Some?
    ensures var f := DesiredFields(d, migrate, runtime).value; DesiredFields(f, migrate, runtime) == Some(f)
  {
    var f := DesiredFields(d, migrate, runtime).value;
    if migrate && HeadersOf(d).HeaderMap? {
      var h := HeadersOf(d).entries;
      assert WithoutAuthorization(WithoutAuthorization(h)) == WithoutAuthorization(h);
    }
    assert DesiredFields(f, migrate, runtime).value == f;
  }

  // The caller's input.

  datatype EnsureInput = EnsureInput(
    id: string,
    insecureSsl: Option<bool>,
    setHmac: bool,
    removeAuthorization: bool,
    confirmMigrationId: string,
    ref: string,
    confirmId: string)

  /** Every error text of these operations; the texts differ exactly when these values (or the operation) do. */
  datatype Refusal =
    | NotAnObject
    | IdNotString
    | InsecureSslNotBool
    | MigrationFlagNotBool
    | AuthorizationFlagNotBool
    | MigrationConfirmationNotString
    | RefNotString
    | ConfirmIdNotString
    | UnsupportedFields
    | InvalidId
    | DestroyOnlyFields
    | InsecureSslRequired
    | InsecureSslForbidden
    | IncompleteMigration
    | InvalidRuntimeCredential
    | ProviderStatus(status: int)
    | ProviderCanceled
    | ProviderTimedOut
    | ProviderFailed
    | IdMismatch
    | InsecureSslOmitted
    | MigrationRequired
    | HeadersNotPreserved
    | TlsNotConfirmed
    | ConfirmationInvalid
    | MigrationNotConfirmed
    | RefMismatch
    | TargetMismatch
    | ConfirmMismatch

  /** What decoding one desired field complains about, whatever the other fields are. */
  function FieldRefusal(name: string, raw: Json): Option<Refusal> {
    if name == "id" then (if AsString(raw).Some? then None else Some(IdNotString))
    else if name == "insecure_ssl" then (if raw.Null? || raw.Bool? then None else Some(InsecureSslNotBool))
    else if name == "set_hmac_from_runtime" then (if raw.Bool? then None else Some(MigrationFlagNotBool))
    else if name == "remove_legacy_authorization" then (if raw.Bool? then None else Some(AuthorizationFlagNotBool))
    else if name == "confirm_security_migration_id" then
      (if raw.String? then None else Some(MigrationConfirmationNotString))
    else if name == "ref" then (if AsString(raw).Some? then None else Some(RefNotString))
    else if name == "confirm_id" then (if AsString(raw).Some? then None else Some(ConfirmIdNotString))
    else if "__" <= name then None
    else Some(UnsupportedFields)
  }

  predicate FlagField(fields: Fields, name: string) {
    name in fields && fields[name] == Bool(true)
  }

  function DecodedInput(fields: Fields): EnsureInput {
    EnsureInput(
      StringField(fields, "id"),
      if "insecure_ssl" in fields && fields["insecure_ssl"].Bool? then Some(fields["insecure_ssl"].value) else None,
      FlagField(fields, "set_hmac_from_runtime"),
      FlagField(fields, "remove_legacy_authorization"),
      StringField(fields, "confirm_security_migration_id"),
      StringField(fields, "ref"),
      StringField(fields, "confirm_id"))
  }

  datatype Decoded = Accepted(input: EnsureInput) | Rejected(why: Refusal)

  /** Storing one acceptable field into the receiver. */
  function TakeField(input: EnsureInput, name: string, raw: Json): EnsureInput
    requires FieldRefusal(name, raw).None?
  {
    if name == "id" then input.(id := AsString(raw).value)
    else if name == "insecure_ssl" then input.(insecureSsl := if raw.Null? then None else Some(raw.value))
    else if name == "set_hmac_from_runtime" then input.(setHmac := raw.value)
    else if name == "remove_legacy_authorization" then input.(removeAuthorization := raw.value)
    else if name == "confirm_security_migration_id" then input.(confirmMigrationId := raw.text)
    else if name == "ref" then input.(ref := AsString(raw).value)
    else if name == "confirm_id" then input.(confirmId := AsString(raw).value)
    else input
  }

  lemma TakeFieldDecodes(seen: Fields, name: string, raw: Json)
    requires name !in seen && FieldRefusal(name, raw).None?
    ensures TakeField(DecodedInput(seen), name, raw) == DecodedInput(seen[name := raw])
  {
    var before, after := DecodedInput(seen), DecodedInput(seen[name := raw]);
    assert name != "id" ==> after.id == before.id;
    assert name != "insecure_ssl" ==> after.insecureSsl == before.insecureSsl;
    assert name != "set_hmac_from_runtime" ==> after.setHmac == before.setHmac;
    assert name != "remove_legacy_authorization" ==> after.removeAuthorization == before.removeAuthorization;
    assert name != "confirm_security_migration_id" ==> after.confirmMigrationId == before.confirmMigrationId;
    assert name != "ref" ==> after.ref == before.ref;
    assert name != "confirm_id" ==> after.confirmId == before.confirmId;
  }

  /** UnmarshalJSON of the desired input; None stands for an empty payload. */
  method DecodeEnsureInput(data: Option<Json>) returns (r: Decoded)
    ensures data.None? ==> r == Accepted(DecodedInput(map[]))
    ensures data.Some? && !data.value.Object? ==> r == Rejected(NotAnObject)
    ensures data.Some? && data.value.Object? ==>
              var fields := data.value.fields;
              && (r.Accepted? <==> forall name | name in fields :: FieldRefusal(name, fields[name]).None?)
              && (r.Accepted? ==> r.input == DecodedInput(fields))
              && (r.Rejected? ==> exists name | name in fields :: FieldRefusal(name, fields[name]) == Some(r.why))
  {
    var input := EnsureInput("", None, false, false, "", "", "");
    if data.None? {
      return Accepted(input);
    }
    if !data.value.Object? {
      return Rejected(NotAnObject);
    }
    var fields := data.value.fields;
    var pending := fields.Keys;
    ghost var seen: Fields := map[];
    while pending != {}
      invariant pending <= fields.Keys && seen.Keys == fields.Keys - pending
      invariant forall name | name in seen :: seen[name] == fields[name] && FieldRefusal(name, fields[name]).None?
      invariant input == DecodedInput(seen)
      decreases |pending|
    {
      var name :| name in pending;
      var refusal := FieldRefusal(name, fields[name]);
      if refusal.Some? {
        return Rejected(refusal.value);
      }
      TakeFieldDecodes(seen, name, fields[name]);
      input := TakeField(input, name, fields[name]);
      seen := seen[name := fields[name]];
      pending := pending - {name};
    }
    assert seen == fields;
    return Accepted(input);
  }

  predicate IsIdChar(c: char) {
    Paths.IsAlphanumeric(c) || c == '-' || c == '_' || c == '.'
  }

  predicate ValidWebhookId(id: string) {
    && id != "" && id != "." && id != ".."
    && Utf8.Length(id) <= 128 && TrimSpace(id) == id
    && forall i | 0 <= i < |id| :: IsIdChar(id[i])
  }

  function WebhookPath(id: string): string {
    "/v2/webhooks/" + Paths.Escape(id)
  }

  lemma WebhookPathIs(id: string)
    ensures WebhookPath(id) == Paths.PathOf(Paths.Webhook(id))
  {
    hide Paths.Escape, Paths.Route;
    var e := Paths.Escape(id);
    assert Paths.Join(["v2", "webhooks", e]) == "/v2/webhooks/" + e by {
      assert ["v2", "webhooks", e][1..] == ["webhooks", e] && ["webhooks", e][1..] == [e];
      assert Paths.Join([e]) == "/" + e;
      assert Paths.Join(["webhooks", e]) == "/webhooks" + ("/" + e);
    }
  }

  lemma WebhookPathRoutes(id: string)
    ensures Paths.Route(WebhookPath(id)) == Some(Paths.Webhook(id))
  {
    WebhookPathIs(id);
    Paths.PathRoundTrip(Paths.Webhook(id));
  }

  /** The two ids a dot-removing server would misread are refused. */
  lemma ValidIdSurvivesDots(id: string)
    requires ValidWebhookId(id)
    ensures Paths.Route(Paths.RemoveDotSegments(WebhookPath(id))) == Some(Paths.Webhook(id))
  {
    WebhookPathIs(id);
    Paths.DotlessRoundTripIff(Paths.Webhook(id));
    hide WebhookPath, Paths.PathOf, Paths.Route, Paths.RemoveDotSegments;
  }

  lemma ValidIdPath(id: string)
    requires ValidWebhookId(id)
    ensures WebhookPath(id) == "/v2/webhooks/" + id
  {
    forall i | 0 <= i < |id| ensures Paths.IsLiteral(id[i]) {
      assert IsIdChar(id[i]);
    }
    Paths.LiteralsEscapeToThemselves(id);
  }

  predicate MigrationRequested(input: EnsureInput) {
    input.setHmac || input.removeAuthorization || input.confirmMigrationId != ""
  }

  function ValidateEnsure(input: EnsureInput, runtime: string): Option<Refusal> {
    if !ValidWebhookId(input.id) then Some(InvalidId)
    else if input.ref != "" || input.confirmId != "" then Some(DestroyOnlyFields)
    else if input.insecureSsl.None? then Some(InsecureSslRequired)
    else if input.insecureSsl.value then Some(InsecureSslForbidden)
    else if !MigrationRequested(input) then None
    else if !input.setHmac || !input.removeAuthorization || input.confirmMigrationId != input.id then
      Some(IncompleteMigration)
    else if !ValidSecret(runtime) then Some(InvalidRuntimeCredential)
    else None
  }

  /** The inputs an ensure acts on: an exact id, insecure_ssl false, nothing of destroy, all of a migration or none. */
  predicate IsAcceptable(input: EnsureInput, runtime: string) {
    && ValidWebhookId(input.id) && input.insecureSsl == Some(false) && input.ref == "" && input.confirmId == ""
    && (input.setHmac <==> input.removeAuthorization)
    && input.confirmMigrationId == (if input.setHmac then input.id else "")
    && (input.setHmac ==> ValidSecret(runtime))
  }

  /** A refusal names something that is wrong with the input. */
  predicate IsGround(why: Refusal, input: EnsureInput, runtime: string) {
    match why
    case InvalidId => !ValidWebhookId(input.id)
    case DestroyOnlyFields => input.ref != "" || input.confirmId != ""
    case InsecureSslRequired => input.insecureSsl.None?
    case InsecureSslForbidden => input.insecureSsl == Some(true)
    case IncompleteMigration =>
      && (input.setHmac || input.removeAuthorization || input.confirmMigrationId != "")
      && !(input.setHmac && input.removeAuthorization && input.confirmMigrationId == input.id)
    case InvalidRuntimeCredential => input.setHmac && !ValidSecret(runtime)
    case _ => false
  }

  /** Validation lets exactly those through, whatever order its checks come in. */
  lemma ValidatesIff(input: EnsureInput, runtime: string)
    ensures ValidateEnsure(input, runtime).None? <==> IsAcceptable(input, runtime)
    ensures ValidateEnsure(input, runtime).Some? ==> IsGround(ValidateEnsure(input, runtime).value, input, runtime)
  {
    hide ValidWebhookId, ValidSecret;
    ValidIdIsNotEmpty(input.id);
  }

  lemma ValidIdIsNotEmpty(id: string)
    ensures ValidWebhookId(id) ==> id != ""
  {
  }

  function CauseRefusal(cause: Cause): Refusal {
    match cause
    case Canceled => ProviderCanceled
    case DeadlineExceeded => ProviderTimedOut
    case OtherCause => ProviderFailed
  }

  /** sanitizeWebhookProviderError: only the effective status and the kind of failure survive. */
  function Sanitize(error: Error): Refusal {
    match error
    case Api(status, _, _) => ProviderStatus(status)
    case Network(cause) => CauseRefusal(cause)
    case ContextDone(cause) => CauseRefusal(cause)
    case _ => ProviderFailed
  }

  // The checks on texts, for texts in printable ASCII, where bytes are characters.

  predicate IsPlainText(s: string) {
    forall i | 0 <= i < |s| :: '!' <= s[i] <= '~'
  }

  lemma {:induction false} PlainLength(s: string)
    requires IsPlainText(s)
    ensures Utf8.Length(s) == |s|
  {
    if s != "" {
      PlainLength(s[1..]);
    }
  }

  lemma PlainIsTrimmed(s: string)
    requires IsPlainText(s)
    ensures TrimSpace(s) == s
  {
  }

  lemma ValidSecretIff(s: string)
    requires IsPlainText(s)
    ensures ValidSecret(s) <==> 32 <= |s| <= 64
  {
    PlainLength(s);
    PlainIsTrimmed(s);
  }

  /** The ids let through, for all strings. */
  lemma ValidIdIff(id: string)
    ensures ValidWebhookId(id)
       <==> && 1 <= |id| <= 128 && id != "." && id != ".."
            && forall i | 0 <= i < |id| ::
                 'a' <= id[i] <= 'z' || 'A' <= id[i] <= 'Z' || '0' <= id[i] <= '9' || id[i] in "-_."
  {
    if forall i | 0 <= i < |id| :: IsIdChar(id[i]) {
      PlainLength(id);
      PlainIsTrimmed(id);
    }
  }

  // The caller's input, field by field.

  /** What each field of the desired input may hold; names outside the list must be reserved ones. */
  predicate MayHold(name: string, raw: Json) {
    if name in {"id", "ref", "confirm_id"} then raw.String? || raw.Null?
    else if name == "insecure_ssl" then raw.Bool? || raw.Null?
    else if name in {"set_hmac_from_runtime", "remove_legacy_authorization"} then raw.Bool?
    else if name == "confirm_security_migration_id" then raw.String?
    else "__" <= name
  }

  lemma AcceptedFieldsIff(fields: Fields)
    ensures (forall name | name in fields :: FieldRefusal(name, fields[name]).None?)
       <==> forall name | name in fields :: MayHold(name, fields[name])
  {
    forall name | name in fields ensures FieldRefusal(name, fields[name]).None? <==> MayHold(name, fields[name]) {
    }
  }

  lemma DecodedFields(fields: Fields)
    ensures var input := DecodedInput(fields);
            && ("id" in fields && fields["id"].String? ==> input.id == fields["id"].text)
            && ("ref" in fields && fields["ref"].String? ==> input.ref == fields["ref"].text)
            && ("confirm_id" in fields && fields["confirm_id"].String? ==> input.confirmId == fields["confirm_id"].text)
            && ("insecure_ssl" in fields && fields["insecure_ssl"].Bool? ==>
                  input.insecureSsl == Some(fields["insecure_ssl"].value))
            && ("insecure_ssl" !in fields || fields["insecure_ssl"].Null? ==> input.insecureSsl == None)
            && (input.setHmac <==> "set_hmac_from_runtime" in fields && fields["set_hmac_from_runtime"] == Bool(true))
            && (input.removeAuthorization <==>
                  "remove_legacy_authorization" in fields && fields["remove_legacy_authorization"] == Bool(true))
            && ("confirm_security_migration_id" in fields && fields["confirm_security_migration_id"].String? ==>
                  input.confirmMigrationId == fields["confirm_security_migration_id"].text)
  {
  }
}
