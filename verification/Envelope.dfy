/** The two rewrites applied to an execute envelope before dispatch. */
module Envelope {
  import opened Options
  import opened Text
  import opened Json

  const DESTROY_SERVICE_INVOICE := "destroy_service_invoice"

  /** A field that carries no value: missing, null or the empty string. */
  predicate IsAbsent(fields: Fields, name: string) {
    name !in fields || fields[name].Null? || fields[name] == String("")
  }

  /** Decoding into a struct: null leaves it zeroed. */
  function AsStruct(j: Json): Option<Fields> {
    match j
    case Object(fields) => Some(fields)
    case Null => Some(map[])
    case _ => None
  }

  /** A struct-valued field of a struct. */
  function Nested(fields: Fields, name: string): Option<Fields> {
    if name in fields then AsStruct(fields[name]) else Some(map[])
  }

  function NonEmpty(s: string): Option<string> {
    if s == "" then None else Some(s)
  }

  /** integration.instance.name, trimmed, when the whole structure decodes. */
  function InstanceName(env: Fields): Option<string> {
    if "integration" !in env || AsStruct(env["integration"]).None? then None
    else
      match Nested(AsStruct(env["integration"]).value, "instance")
      case None => None
      case Some(instance) =>
        if "name" !in instance || AsString(instance["name"]).None? then None
        else NonEmpty(TrimSpace(AsString(instance["name"]).value))
  }

  /** metadata.idempotency, trimmed. */
  function IdempotencyKey(env: Fields): Option<string> {
    if "metadata" !in env then None
    else
      match AsStruct(env["metadata"])
      case None => None
      case Some(metadata) =>
        if "idempotency" !in metadata || AsString(metadata["idempotency"]).None? then None
        else NonEmpty(TrimSpace(AsString(metadata["idempotency"]).value))
  }

  function Lift(env: Fields, name: string, value: Option<string>): Fields {
    if IsAbsent(env, name) && value.Some? then env[name := String(value.value)] else env
  }

  function Lifted(env: Fields): Fields {
    Lift(Lift(env, "instance_id", InstanceName(env)), "idempotency", IdempotencyKey(env))
  }

  function OperationAt(env: Fields, name: string): string {
    if name in env && AsString(env[name]).Some? then TrimSpace(AsString(env[name]).value) else ""
  }

  /** operation wins, capability is the fallback. */
  function Operation(env: Fields): string {
    FirstNonEmpty(OperationAt(env, "operation"), OperationAt(env, "capability"))
  }

  const REF_NAMES := ["ref", "service_invoice_id", "id"]

  function FirstPresent(input: Fields, names: seq<string>): Option<Json> {
    if names == [] then None
    else if !IsAbsent(input, names[0]) then Some(input[names[0]])
    else FirstPresent(input, names[1..])
  }

  /** The reference the dispatch infers: the first of the three names that carries a value. */
  function InferredRef(input: Fields): Option<Json> {
    FirstPresent(input, REF_NAMES)
  }

  /** The documented invoice_id, when it is usable as a reference. */
  function InvoiceId(input: Fields): Option<string> {
    if "invoice_id" in input && AsString(input["invoice_id"]).Some?
       && TrimSpace(AsString(input["invoice_id"]).value) != ""
    then AsString(input["invoice_id"]) else None
  }

  function Referenced(env: Fields): Fields {
    if Operation(env) == DESTROY_SERVICE_INVOICE && "input" in env && env["input"].Object?
       && InferredRef(env["input"].fields).None? && InvoiceId(env["input"].fields).Some?
    then
      var input := env["input"].fields;
      env["input" := Object(input["ref" := String(InvoiceId(input).value)])]
    else env
  }

  /** Only a JSON object is rewritten; None stands for bytes that are not JSON. */
  function Rewritten(body: Option<Json>, rewrite: Fields -> Fields): Option<Json> {
    if body.Some? && body.value.Object? then Some(Object(rewrite(body.value.fields))) else body
  }

  /** withEnvelopeInstance. */
  method WithEnvelopeInstance(body: Option<Json>) returns (r: Option<Json>)
    ensures r == Rewritten(body, Lifted)
  {
    if body.None? || !body.value.Object? {
      return body;
    }
    var env, changed := body.value.fields, false;
    if IsAbsent(env, "instance_id") {
      var name := InstanceName(env);
      if name.Some? {
        env, changed := env["instance_id" := String(name.value)], true;
      }
    }
    if IsAbsent(env, "idempotency") {
      var key := IdempotencyKey(env);
      if key.Some? {
        env, changed := env["idempotency" := String(key.value)], true;
      }
    }
    if !changed {
      return body;
    }
    return Some(Object(env));
  }

  /** withServiceInvoiceDestroyRef. */
  method WithServiceInvoiceDestroyRef(body: Option<Json>) returns (r: Option<Json>)
    ensures r == Rewritten(body, Referenced)
  {
    if body.None? || !body.value.Object? {
      return body;
    }
    var env := body.value.fields;
    if Operation(env) != DESTROY_SERVICE_INVOICE || "input" !in env || !env["input"].Object? {
      return body;
    }
    var input := env["input"].fields;
    var i := 0;
    while i < |REF_NAMES|
      invariant 0 <= i <= |REF_NAMES|
      invariant InferredRef(input) == FirstPresent(input, REF_NAMES[i..])
    {
      if !IsAbsent(input, REF_NAMES[i]) {
        return body;
      }
      assert REF_NAMES[i..][1..] == REF_NAMES[i + 1..];
      i := i + 1;
    }
    var invoiceId := InvoiceId(input);
    if invoiceId.None? {
      return body;
    }
    input := input["ref" := String(invoiceId.value)];
    env := env["input" := Object(input)];
    return Some(Object(env));
  }

  predicate SameField(env: Fields, other: Fields, name: string) {
    (name in other <==> name in env) && (name in env ==> other[name] == env[name])
  }

  /** integration.instance.name as the envelope spells it, where it is there to be read. */
  function SpelledName(env: Fields): Option<string> {
    if "integration" in env && env["integration"].Object? then
      var integration := env["integration"].fields;
      if "instance" in integration && integration["instance"].Object? then
        var instance := integration["instance"].fields;
        if "name" in instance && instance["name"].String? then Some(instance["name"].text) else None
      else None
    else None
  }

  /** metadata.idempotency as the envelope spells it. */
  function SpelledKey(env: Fields): Option<string> {
    if "metadata" in env && env["metadata"].Object? then
      var metadata := env["metadata"].fields;
      if "idempotency" in metadata && metadata["idempotency"].String? then Some(metadata["idempotency"].text) else None
    else None
  }

  predicate IsBlank(spelled: Option<string>) {
    spelled.None? || TrimSpace(spelled.value) == ""
  }

  lemma InstanceNameIsSpelled(env: Fields)
    ensures InstanceName(env) == if IsBlank(SpelledName(env)) then None else Some(TrimSpace(SpelledName(env).value))
  {
  }

  lemma IdempotencyKeyIsSpelled(env: Fields)
    ensures IdempotencyKey(env) == if IsBlank(SpelledKey(env)) then None else Some(TrimSpace(SpelledKey(env).value))
  {
  }

  /** Whatever else the envelope holds, instance_id changes exactly when it was absent and a name is there to lift. */
  lemma LiftsInstanceIff(env: Fields)
    ensures !SameField(env, Lifted(env), "instance_id") <==> IsAbsent(env, "instance_id") && !IsBlank(SpelledName(env))
    ensures IsAbsent(env, "instance_id") && !IsBlank(SpelledName(env)) ==>
              "instance_id" in Lifted(env) && Lifted(env)["instance_id"] == String(TrimSpace(SpelledName(env).value))
  {
    InstanceNameIsSpelled(env);
    hide TrimSpace, InstanceName, IdempotencyKey, SpelledName;
  }

  /** The same for idempotency, which workflow steps do not send. */
  lemma LiftsIdempotencyIff(env: Fields)
    ensures !SameField(env, Lifted(env), "idempotency") <==> IsAbsent(env, "idempotency") && !IsBlank(SpelledKey(env))
    ensures IsAbsent(env, "idempotency") && !IsBlank(SpelledKey(env)) ==>
              "idempotency" in Lifted(env) && Lifted(env)["idempotency"] == String(TrimSpace(SpelledKey(env).value))
  {
    IdempotencyKeyIsSpelled(env);
    hide TrimSpace, InstanceName, IdempotencyKey, SpelledKey;
  }

  lemma LiftedKeeps(env: Fields)
    ensures InstanceName(Lifted(env)) == InstanceName(env) && IdempotencyKey(Lifted(env)) == IdempotencyKey(env)
    ensures Operation(Lifted(env)) == Operation(env)
    ensures "input" in Lifted(env) <==> "input" in env
    ensures "input" in env ==> Lifted(env)["input"] == env["input"]
  {
    hide TrimSpace, AsStruct, Nested;
  }

  lemma ReferencedKeeps(env: Fields)
    ensures InstanceName(Referenced(env)) == InstanceName(env) && IdempotencyKey(Referenced(env)) == IdempotencyKey(env)
    ensures Operation(Referenced(env)) == Operation(env)
  {
    hide TrimSpace, AsStruct, Nested, InferredRef, InvoiceId;
  }

  lemma LiftedIdempotent(env: Fields)
    ensures Lifted(Lifted(env)) == Lifted(env)
  {
    LiftedKeeps(env);
    hide InstanceName, Operation;
    NotBlank(env);
    hide IdempotencyKey;
  }

  /** A lifted value is never the empty string, so it counts as present afterwards. */
  lemma NotBlank(env: Fields)
    ensures InstanceName(env) != Some("") && IdempotencyKey(env) != Some("")
  {
    hide TrimSpace, AsStruct, Nested;
  }

  lemma ReferencedIdempotent(env: Fields)
    ensures Referenced(Referenced(env)) == Referenced(env)
  {
    ReferencedKeeps(env);
    hide Operation, TrimSpace;
    var referenced := Referenced(env);
    if referenced != env {
      var input := referenced["input"].fields;
      TrimmedEmpty(InvoiceId(env["input"].fields).value);
      assert !IsAbsent(input, REF_NAMES[0]);
      assert InferredRef(input).Some?;
    }
  }

  lemma RewritesCommute(env: Fields)
    ensures Lifted(Referenced(env)) == Referenced(Lifted(env))
  {
    LiftedKeeps(env);
    ReferencedKeeps(env);
    hide InstanceName, IdempotencyKey, Operation, InferredRef, InvoiceId;
  }

  /** A second pass of either rewrite changes nothing, and the two can be applied in either order. */
  lemma RewritesIdempotentAndCommute(env: Fields)
    ensures Lifted(Lifted(env)) == Lifted(env)
    ensures Referenced(Referenced(env)) == Referenced(env)
    ensures Lifted(Referenced(env)) == Referenced(Lifted(env))
  {
    LiftedIdempotent(env);
    ReferencedIdempotent(env);
    RewritesCommute(env);
  }

  lemma TrimmedEmpty(s: string)
    ensures s == "" ==> TrimSpace(s) == ""
  {
  }

  /** What the rewrites may touch, and that they never replace a value the caller supplied. */
  lemma RewritesFrame(env: Fields, name: string)
    ensures name in env && !IsAbsent(env, name) && name != "input" ==>
              name in Referenced(Lifted(env)) && Referenced(Lifted(env))[name] == env[name]
    ensures name !in {"instance_id", "idempotency", "input"} ==> SameField(env, Referenced(Lifted(env)), name)
    ensures Operation(env) != DESTROY_SERVICE_INVOICE ==> Referenced(env) == env
  {
    hide TrimSpace, InstanceName, IdempotencyKey, Operation, InferredRef, InvoiceId;
  }

  /** The identifier the dispatch infers: whatever it was before, or the invoice_id when there was none. */
  lemma IdentifierPrecedence(env: Fields)
    requires Operation(env) == DESTROY_SERVICE_INVOICE && "input" in env && env["input"].Object?
    ensures var before, after := env["input"].fields, Referenced(env)["input"];
            && after.Object?
            && (InferredRef(before).Some? ==> after.fields == before)
            && (InferredRef(before).None? && InvoiceId(before).Some? ==>
                  InferredRef(after.fields) == Some(String(InvoiceId(before).value)))
            && (InferredRef(before).None? && InvoiceId(before).None? ==> InferredRef(after.fields).None?)
            && (forall name | name != "ref" :: (name in after.fields <==> name in before)
                                               && (name in before ==> after.fields[name] == before[name]))
  {
    hide TrimSpace;
    var before := env["input"].fields;
    assert REF_NAMES[0] == "ref";
    if InvoiceId(before).Some? {
      TrimmedEmpty(InvoiceId(before).value);
    }
  }

  // The rewrites, read off the envelope.

  /** The operation is the first of the two names that spells one, trimmed. */
  lemma OperationIs(env: Fields)
    ensures Operation(env) ==
              if !IsBlank(SpelledAt(env, "operation")) then TrimSpace(SpelledAt(env, "operation").value)
              else if !IsBlank(SpelledAt(env, "capability")) then TrimSpace(SpelledAt(env, "capability").value)
              else ""
  {
    hide TrimSpace;
    assert TrimSpace("") == "" by { TrimmedEmpty(""); }
  }

  function SpelledAt(env: Fields, name: string): Option<string> {
    if name in env && env[name].String? then Some(env[name].text) else None
  }

  /** A name that carries a value of its own. */
  predicate Carries(input: Fields, name: string) {
    name in input && !input[name].Null? && input[name] != String("")
  }

  lemma InferredRefIs(input: Fields)
    ensures InferredRef(input) ==
              if Carries(input, "ref") then Some(input["ref"])
              else if Carries(input, "service_invoice_id") then Some(input["service_invoice_id"])
              else if Carries(input, "id") then Some(input["id"])
              else None
  {
    var names := REF_NAMES;
    assert names[0] == "ref" && names[1..][0] == "service_invoice_id" && names[1..][1..][0] == "id";
    assert FirstPresent(input, names[1..][1..][1..]) == None;
    assert FirstPresent(input, names[1..][1..]) == if Carries(input, "id") then Some(input["id"]) else None;
    assert FirstPresent(input, names[1..])
        == if Carries(input, "service_invoice_id") then Some(input["service_invoice_id"])
           else FirstPresent(input, names[1..][1..]);
  }

  /** The destroys that get their invoice_id as ref, and that nothing else about any envelope changes. */
  ghost predicate WantsRef(env: Fields) {
    && (if !IsBlank(SpelledAt(env, "operation")) then TrimSpace(SpelledAt(env, "operation").value)
        else if !IsBlank(SpelledAt(env, "capability")) then TrimSpace(SpelledAt(env, "capability").value)
        else "") == "destroy_service_invoice"
    && "input" in env && env["input"].Object?
    && !Carries(env["input"].fields, "ref") && !Carries(env["input"].fields, "service_invoice_id")
    && !Carries(env["input"].fields, "id")
    && !IsBlank(SpelledAt(env["input"].fields, "invoice_id"))
  }

  lemma ReferencedIff(env: Fields)
    ensures Referenced(env) ==
              if WantsRef(env) then
                env["input" := Object(env["input"].fields["ref" := env["input"].fields["invoice_id"]])]
              else env
  {
    OperationIs(env);
    if "input" in env && env["input"].Object? {
      InferredRefIs(env["input"].fields);
    }
    assert TrimSpace("") == "" by { TrimmedEmpty(""); }
    hide TrimSpace, Operation, InferredRef;
  }
}
