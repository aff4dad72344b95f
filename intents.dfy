/** The intent helper: a registry of intent handlers, the dispatch pipeline
    with its error taxonomy, slot validation, the service-call handler and
    the response object (openpeerpower/helpers/intent.py). */
module Intents {
  import opened Wrappers
  import opened Bits
  import Fuzzy

  const INTENT_TURN_OFF: string := "OppTurnOff"
  const INTENT_TURN_ON: string := "OppTurnOn"
  const INTENT_TOGGLE: string := "OppToggle"

  const SPEECH_TYPE_PLAIN: string := "plain"
  const SPEECH_TYPE_SSML: string := "ssml"
  const CARD_TYPE_SIMPLE: string := "simple"

  /** The key of the entity id in service-call data. */
  const ATTR_ENTITY_ID: string := "entity_id"

  // ---------------------------------------------------------------------
  // Values, states and errors.

  /** A JSON-like Python value, as slots carry them. */
  datatype Value =
    | Null
    | Bool(b: bool)
    | Int(i: int)
    | Str(s: string)
    | List(items: seq<Value>)
    | Dict(fields: map<string, Value>)

  /** Slot name to slot data, normally `{"value": ...}`. */
  type Slots = map<string, Value>

  /** The causal context of a call. */
  datatype Context = Context(id: string)

  /** The part of an entity state the intent helper reads: its id, its
      display name and its `supported_features` attribute, if set. */
  datatype State = State(entityId: string, name: string, supportedFeatures: Option<nat>)

  function StateName(s: State): string {
    s.name
  }

  /** The subclasses of `IntentError`. */
  datatype ErrorKind =
    | UnknownIntent
    | InvalidSlotInfo
    | IntentHandleError
    | IntentUnexpectedError
    | PlainIntentError

  /** An `IntentError` with its message and the exception it was raised
      from (`raise ... from err`). */
  datatype IntentError = IntentError(kind: ErrorKind, message: string, cause: Option<Raised>)

  /** An exception raised inside a handler: a voluptuous `Invalid`, an
      `IntentError`, or anything else (named by its class). */
  datatype Raised =
    | VolInvalid(message: string)
    | IntentErr(error: IntentError)
    | OtherException(typeName: string, message: string)

  /** A service call issued through `opp.services.async_call`. */
  datatype ServiceCall = ServiceCall(domain: string, service: string,
                                     data: map<string, string>, context: Context)

  /** An intent: the call's platform, type, slots, text and context. */
  datatype Intent = Intent(platform: string, intentType: string, slots: Slots,
                           textInput: Option<string>, context: Context)

  // ---------------------------------------------------------------------
  // Error classification in `async_handle`.

  /** How `async_handle` turns an exception escaping the handler into the
      error the caller sees. */
  function Classify(intentType: string, e: Raised): (r: IntentError)
    ensures r.kind != UnknownIntent && r.kind != PlainIntentError
    ensures r.kind == InvalidSlotInfo <==> e.VolInvalid?
    ensures r.kind == IntentHandleError <==> e.IntentErr? && e.error.kind == IntentHandleError
    ensures r.kind == IntentHandleError ==> Some(e) != r.cause && IntentErr(r) == e
    ensures r.kind != IntentHandleError ==> r.cause == Some(e)
    ensures r.kind == IntentUnexpectedError ==> r.message == "Error handling " + intentType
  {
    match e
    case VolInvalid(_) =>
      IntentError(InvalidSlotInfo, "Received invalid slot info for " + intentType, Some(e))
    case IntentErr(err) =>
      if err.kind == IntentHandleError then err
      else IntentError(IntentUnexpectedError, "Error handling " + intentType, Some(e))
    case OtherException(_, _) =>
      IntentError(IntentUnexpectedError, "Error handling " + intentType, Some(e))
  }

  // ---------------------------------------------------------------------
  // Small rules.

  /** `async_test_feature`: raise unless `supported_features` (default 0)
      shares a bit with `feature`. */
  function TestFeature(state: State, feature: nat, featureName: string): (r: Option<Raised>)
    ensures r.Some? <==> And(state.supportedFeatures.GetOr(0), feature) == 0
    ensures r.Some? ==> r.value.IntentErr? && r.value.error.kind == IntentHandleError
  {
    if And(state.supportedFeatures.GetOr(0), feature) == 0 then
      Some(IntentErr(IntentError(IntentHandleError,
        "Entity " + state.name + " does not support " + featureName, None)))
    else None
  }

  /** For a single-bit feature, the test raises exactly when that bit of
      `supported_features` is clear; a state without the attribute supports
      nothing. */
  lemma TestFeatureBit(state: State, k: nat, featureName: string)
    ensures TestFeature(state, Pow2(k), featureName).Some? <==>
      !BitSet(state.supportedFeatures.GetOr(0), k)
    ensures state.supportedFeatures.None? ==> TestFeature(state, Pow2(k), featureName).Some?
  {
    AndSingleBit(state.supportedFeatures.GetOr(0), k);
    AndZero(Pow2(k));
  }

  // ---------------------------------------------------------------------
  // Slot validation.

  /** A validator: the validated value, or `None` when it raises
      `vol.Invalid`. */
  type Validator = Value -> Option<Value>

  /** `cv.string`, restricted to its behaviour on strings and containers. */
  const CvString: Validator := (v: Value) => if v.Str? then Some(v) else None

  /** One entry of a slot schema: the key marker (`vol.Required` or a plain
      optional key) and the validator of the slot. */
  datatype SlotRule = SlotRule(required: bool, validator: Validator)

  type SlotSchema = map<string, SlotRule>

  /** `SLOT_SCHEMA.extend({"value": validator})`: the slot must be a dict;
      its optional `value` key is validated; other keys are kept. */
  function SlotEntrySchema(validator: Validator): Validator {
    (v: Value) =>
      if !v.Dict? then None
      else if "value" !in v.fields then Some(v)
      else match validator(v.fields["value"])
        case None => None
        case Some(w) => Some(Dict(v.fields["value" := w]))
  }

  /** The schema `async_validate_slots` builds once and caches in
      `_slot_schema`. */
  function Compile(schema: SlotSchema): SlotSchema {
    map k | k in schema :: SlotRule(schema[k].required, SlotEntrySchema(schema[k].validator))
  }

  predicate Rejects(rule: SlotRule, slots: Slots, k: string) {
    if k in slots then rule.validator(slots[k]).None? else rule.required
  }

  /** A dict schema with `extra=vol.ALLOW_EXTRA` applied to the slots. */
  function ApplySchema(schema: SlotSchema, slots: Slots): Result<Slots, Raised> {
    if exists k :: k in schema && Rejects(schema[k], slots, k) then
      Failure(VolInvalid("invalid slot info"))
    else
      Success(map k | k in slots ::
        if k in schema then schema[k].validator(slots[k]).GetOr(slots[k]) else slots[k])
  }

  /** What `async_validate_slots` returns for a handler's declared schema. */
  function ValidateSlotsSpec(schema: Option<SlotSchema>, slots: Slots): Result<Slots, Raised> {
    if schema.None? then Success(slots) else ApplySchema(Compile(schema.value), slots)
  }

  predicate SlotAccepted(validator: Validator, v: Value) {
    v.Dict? && ("value" in v.fields ==> validator(v.fields["value"]).Some?)
  }

  /** Slot validation in plain words: every declared slot that is present is
      a dict whose `value`, if any, passes its validator; every required slot
      is present. On success every slot is kept, undeclared ones unchanged
      and declared ones with their `value` replaced by the validated one. */
  lemma ValidationMeaning(schema: SlotSchema, slots: Slots)
    ensures ValidateSlotsSpec(Some(schema), slots).Success? <==>
      forall k :: k in schema ==>
        (k in slots ==> SlotAccepted(schema[k].validator, slots[k])) &&
        (schema[k].required ==> k in slots)
    ensures ValidateSlotsSpec(Some(schema), slots).Success? ==>
      var out := ValidateSlotsSpec(Some(schema), slots).value;
      && out.Keys == slots.Keys
      && (forall k :: k in slots && k !in schema ==> out[k] == slots[k])
      && (forall k :: k in slots && k in schema && "value" in slots[k].fields ==>
            out[k] == Dict(slots[k].fields["value" :=
                             schema[k].validator(slots[k].fields["value"]).value]))
  {
    var c := Compile(schema);
    if ApplySchema(c, slots).Success? {
      forall k | k in schema
        ensures (k in slots ==> SlotAccepted(schema[k].validator, slots[k])) &&
                (schema[k].required ==> k in slots)
      {
        assert !Rejects(c[k], slots, k);
      }
    } else {
      var k :| k in c && Rejects(c[k], slots, k);
      assert k in schema;
    }
  }

  // ---------------------------------------------------------------------
  // `str.format` for speech templates.

  /** Templates whose braces are all `{}` fields or `{{`/`}}` escapes. */
  predicate SupportedTemplate(t: string)
    decreases |t|
  {
    if t == [] then true
    else if |t| >= 2 && t[0] == '{' && (t[1] == '{' || t[1] == '}') then SupportedTemplate(t[2..])
    else if |t| >= 2 && t[0] == '}' && t[1] == '}' then SupportedTemplate(t[2..])
    else t[0] != '{' && t[0] != '}' && SupportedTemplate(t[1..])
  }

  predicate NoBraces(t: string) {
    forall i :: 0 <= i < |t| ==> t[i] != '{' && t[i] != '}'
  }

  function Prepend(s: string, r: Result<string, Raised>): Result<string, Raised> {
    match r
    case Success(v) => Success(s + v)
    case Failure(e) => Failure(e)
  }

  /** `template.format(arg)`: each `{}` takes the next positional argument,
      and there is only one; `used` says whether it has been taken. */
  function Format(t: string, arg: string, used: bool): Result<string, Raised>
    requires SupportedTemplate(t)
    decreases |t|
  {
    if t == [] then Success([])
    else if |t| >= 2 && t[0] == '{' && t[1] == '{' then Prepend("{", Format(t[2..], arg, used))
    else if |t| >= 2 && t[0] == '}' && t[1] == '}' then Prepend("}", Format(t[2..], arg, used))
    else if |t| >= 2 && t[0] == '{' && t[1] == '}' then
      if used then
        Failure(OtherException("IndexError", "Replacement index 1 out of range for positional args tuple"))
      else Prepend(arg, Format(t[2..], arg, true))
    else Prepend([t[0]], Format(t[1..], arg, used))
  }

  lemma {:induction false} FormatPlain(b: string, arg: string, used: bool)
    requires NoBraces(b)
    ensures SupportedTemplate(b) && Format(b, arg, used) == Success(b)
    decreases |b|
  {
    if b != [] {
      FormatPlain(b[1..], arg, used);
      assert [b[0]] + b[1..] == b;
    }
  }

  /** A template with one `{}` between brace-free text is filled in place. */
  lemma {:induction false} FormatOneField(a: string, b: string, arg: string)
    requires NoBraces(a) && NoBraces(b)
    ensures SupportedTemplate(a + "{}" + b)
    ensures Format(a + "{}" + b, arg, false) == Success(a + arg + b)
    decreases |a|
  {
    var t := a + "{}" + b;
    if a == [] {
      assert t[0] == '{' && t[1] == '}' && t[2..] == b;
      FormatPlain(b, arg, true);
      assert a + arg + b == arg + b;
    } else {
      var c := a[0];
      assert t[0] == c && c != '{' && c != '}';
      assert t[1..] == a[1..] + "{}" + b;
      assert NoBraces(a[1..]);
      FormatOneField(a[1..], b, arg);
      assert SupportedTemplate(t);
      assert Format(t, arg, false) == Prepend([c], Format(t[1..], arg, false));
      assert [c] + (a[1..] + arg + b) == a + arg + b;
    }
  }

  // ---------------------------------------------------------------------
  // The response object.

  /** `IntentResponse`: speech and card entries keyed by their type. */
  class IntentResponse {
    const intent: Option<Intent>
    var speech: map<string, map<string, Value>>
    var card: map<string, map<string, string>>

    constructor(intent: Option<Intent>)
      ensures this.intent == intent && speech == map[] && card == map[]
    {
      this.intent := intent;
      speech := map[];
      card := map[];
    }

    /** `async_set_speech`: overwrite the entry of this speech type only. */
    method SetSpeech(text: string, speechType: string, extraData: Value)
      modifies this
      ensures speech == old(speech)[speechType := map["speech" := Str(text), "extra_data" := extraData]]
      ensures card == old(card)
    {
      speech := speech[speechType := map["speech" := Str(text), "extra_data" := extraData]];
    }

    /** `async_set_card`: overwrite the entry of this card type only. */
    method SetCard(title: string, content: string, cardType: string)
      modifies this
      ensures card == old(card)[cardType := map["title" := title, "content" := content]]
      ensures speech == old(speech)
    {
      card := card[cardType := map["title" := title, "content" := content]];
    }

    /** `as_dict`: exactly the speech and card maps, nothing else. */
    function AsDict(): (d: map<string, Value>)
      reads this
      ensures d.Keys == {"speech", "card"}
      ensures d["speech"].Dict? && d["speech"].fields.Keys == speech.Keys
      ensures d["card"].Dict? && d["card"].fields.Keys == card.Keys
      ensures forall t :: t in speech ==> d["speech"].fields[t] == Dict(speech[t])
      ensures forall t :: t in card ==>
        d["card"].fields[t] == Dict(map f | f in card[t] :: Str(card[t][f]))
    {
      map["speech" := Dict(map t | t in speech :: Dict(speech[t])),
          "card" := Dict(map t | t in card :: Dict(map f | f in card[t] :: Str(card[t][f])))]
    }
  }

  // ---------------------------------------------------------------------
  // Matching a state by name.

  /** `async_match_state` on the given states: the best fuzzy match by
      display name, or `IntentHandleError` when none matches. */
  method MatchState(name: string, states: seq<State>) returns (r: Result<State, Raised>)
    ensures r.Failure? <==> forall i :: 0 <= i < |states| ==> Fuzzy.Search(name, states[i].name).None?
    ensures r.Failure? ==>
      r.error == IntentErr(IntentError(IntentHandleError, "Unable to find an entity called " + name, None))
    ensures r.Success? ==> exists i :: Fuzzy.IsBest(name, states, StateName, i) && r.value == states[i]
    ensures r == MatchStateSpec(name, states)
  {
    var m := Fuzzy.FuzzyMatch(name, states, StateName);
    if m.None? {
      return Failure(IntentErr(IntentError(IntentHandleError, "Unable to find an entity called " + name, None)));
    }
    return Success(m.value);
  }

  function MatchStateSpec(name: string, states: seq<State>): Result<State, Raised> {
    match Fuzzy.BestIndex(name, states, StateName)
    case None => Failure(IntentErr(IntentError(IntentHandleError, "Unable to find an entity called " + name, None)))
    case Some(i) => Success(states[i])
  }

  // ---------------------------------------------------------------------
  // Handlers.

  /** The handler classes of the helper: the abstract base and
      `ServiceIntentHandler` bound to a domain, a service and a speech
      template. */
  datatype HandlerKind = Base | Service(domain: string, service: string, speech: string)

  /** `ServiceIntentHandler.slot_schema`: `{vol.Required("name"): cv.string}`. */
  const SERVICE_SLOT_SCHEMA: SlotSchema := map["name" := SlotRule(true, CvString)]

  /** What a handler's `async_handle` does: the service call it issues, if
      any, and then the speech it sets or the exception it raises. */
  datatype Plan = Plan(call: Option<ServiceCall>, outcome: Result<string, Raised>)

  /** `ServiceIntentHandler.async_handle` after validation: read the name,
      match a state, call the service, format the speech. */
  function ServicePlan(domain: string, service: string, template: string, schema: Option<SlotSchema>,
                       slots: Slots, states: seq<State>, context: Context,
                       serviceResult: Option<Raised>): Plan
    requires SupportedTemplate(template)
  {
    match ValidateSlotsSpec(schema, slots)
    case Failure(e) => Plan(None, Failure(e))
    case Success(valid) =>
      if "name" !in valid then Plan(None, Failure(OtherException("KeyError", "name")))
      else if !valid["name"].Dict? then Plan(None, Failure(OtherException("TypeError", "name")))
      else if "value" !in valid["name"].fields then Plan(None, Failure(OtherException("KeyError", "value")))
      else if !valid["name"].fields["value"].Str? then Plan(None, Failure(OtherException("TypeError", "value")))
      else
        var name := valid["name"].fields["value"].s;
        match MatchStateSpec(name, states)
        case Failure(e) => Plan(None, Failure(e))
        case Success(state) =>
          var call := ServiceCall(domain, service, map[ATTR_ENTITY_ID := state.entityId], context);
          if serviceResult.Some? then Plan(Some(call), Failure(serviceResult.value))
          else Plan(Some(call), Format(template, state.name, false))
  }

  function HandlerPlan(kind: HandlerKind, schema: Option<SlotSchema>, intent: Intent,
                       states: seq<State>, serviceResult: Option<Raised>): Plan
    requires kind.Service? ==> SupportedTemplate(kind.speech)
  {
    match kind
    case Base => Plan(None, Failure(OtherException("NotImplementedError", "")))
    case Service(domain, service, speech) =>
      ServicePlan(domain, service, speech, schema, intent.slots, states, intent.context, serviceResult)
  }

  /** Slots of the form `{"name": {"value": name}}`. */
  function NameSlots(name: string): Slots {
    map["name" := Dict(map["value" := Str(name)])]
  }

  /** Slots carrying just a string name pass the service handler's schema
      unchanged. */
  lemma NameSlotsValid(name: string)
    ensures ValidateSlotsSpec(Some(SERVICE_SLOT_SCHEMA), NameSlots(name)) == Success(NameSlots(name))
  {
    var slots := NameSlots(name);
    var c := Compile(SERVICE_SLOT_SCHEMA);
    assert c.Keys == {"name"};
    var inner := Dict(map["value" := Str(name)]);
    assert inner.fields["value" := Str(name)] == inner.fields;
    assert c["name"].validator(slots["name"]) == Some(inner);
    assert !Rejects(c["name"], slots, "name");
    var r := ApplySchema(c, slots);
    assert r.Success? && r.value.Keys == slots.Keys;
    assert r.value["name"] == slots["name"];
    assert r.value == slots;
  }

  /** With a name no state matches, the service handler raises
      `IntentHandleError` and calls no service. */
  lemma ServiceNoMatch(domain: string, service: string, template: string, name: string,
                       states: seq<State>, context: Context, serviceResult: Option<Raised>)
    requires SupportedTemplate(template)
    requires forall i :: 0 <= i < |states| ==> Fuzzy.Search(name, states[i].name).None?
    ensures ServicePlan(domain, service, template, Some(SERVICE_SLOT_SCHEMA), NameSlots(name),
                        states, context, serviceResult)
         == Plan(None, Failure(IntentErr(IntentError(IntentHandleError,
                   "Unable to find an entity called " + name, None))))
  {
    NameSlotsValid(name);
    assert !exists j :: Fuzzy.Matches(name, states, StateName, j);
  }

  /** With a matching name, the service handler makes exactly one call, with
      the best match's entity id, and formats the speech with its name. */
  lemma ServiceMatch(domain: string, service: string, template: string, name: string,
                     states: seq<State>, context: Context, serviceResult: Option<Raised>)
    requires SupportedTemplate(template)
    requires exists i :: 0 <= i < |states| && Fuzzy.Search(name, states[i].name).Some?
    ensures var b := Fuzzy.BestIndex(name, states, StateName);
      var plan := ServicePlan(domain, service, template, Some(SERVICE_SLOT_SCHEMA), NameSlots(name),
                              states, context, serviceResult);
      && b.Some? && Fuzzy.IsBest(name, states, StateName, b.value)
      && plan.call == Some(ServiceCall(domain, service, map[ATTR_ENTITY_ID := states[b.value].entityId], context))
      && plan.outcome == (if serviceResult.Some? then Failure(serviceResult.value)
                          else Format(template, states[b.value].name, false))
  {
    NameSlotsValid(name);
    var i :| 0 <= i < |states| && Fuzzy.Search(name, states[i].name).Some?;
    assert Fuzzy.Matches(name, states, StateName, i);
  }

  /** One state whose display name is the requested name (a light named
      "Kitchen Light" and the template "Turned on {}", say): the service is
      called for that entity and the speech is the template with the name in
      place of its `{}`. */
  lemma ServiceSingleState(domain: string, service: string, a: string, b: string,
                           name: string, id: string, context: Context)
    requires NoBraces(a) && NoBraces(b)
    ensures SupportedTemplate(a + "{}" + b)
    ensures ServicePlan(domain, service, a + "{}" + b, Some(SERVICE_SLOT_SCHEMA), NameSlots(name),
                        [State(id, name, None)], context, None)
         == Plan(Some(ServiceCall(domain, service, map[ATTR_ENTITY_ID := id], context)),
                 Success(a + name + b))
  {
    var states := [State(id, name, None)];
    FormatOneField(a, b, name);
    Fuzzy.SearchSelf(name);
    assert Fuzzy.Matches(name, states, StateName, 0);
    ServiceMatch(domain, service, a + "{}" + b, name, states, context, None);
  }

  /** An intent handler: `IntentHandler` or `ServiceIntentHandler`. */
  class IntentHandler {
    const intentType: Option<string>
    const slotSchema: Option<SlotSchema>
    const platforms: Option<seq<string>>
    const kind: HandlerKind
    /** `_slot_schema`: the compiled schema, built on first validation. */
    var compiledSchema: Option<SlotSchema>

    ghost predicate Valid() reads this {
      && (kind.Service? ==> SupportedTemplate(kind.speech))
      && (compiledSchema.Some? ==> slotSchema.Some? && compiledSchema.value == Compile(slotSchema.value))
    }

    /** A handler of the base class with the given class attributes. */
    constructor Base(intentType: Option<string>, slotSchema: Option<SlotSchema>,
                     platforms: Option<seq<string>>)
      ensures Valid()
      ensures this.intentType == intentType && this.slotSchema == slotSchema
      ensures this.platforms == platforms && kind == HandlerKind.Base && compiledSchema.None?
    {
      this.intentType := intentType;
      this.slotSchema := slotSchema;
      this.platforms := platforms;
      kind := HandlerKind.Base;
      compiledSchema := None;
    }

    /** `ServiceIntentHandler(intent_type, domain, service, speech)`; the
        platform list keeps the class default `[]`. */
    constructor Service(intentType: string, domain: string, service: string, speech: string)
      requires SupportedTemplate(speech)
      ensures Valid()
      ensures this.intentType == Some(intentType) && slotSchema == Some(SERVICE_SLOT_SCHEMA)
      ensures platforms == Some([]) && kind == HandlerKind.Service(domain, service, speech)
      ensures compiledSchema.None?
    {
      this.intentType := Some(intentType);
      slotSchema := Some(SERVICE_SLOT_SCHEMA);
      platforms := Some([]);
      kind := HandlerKind.Service(domain, service, speech);
      compiledSchema := None;
    }

    /** `async_can_handle`: no platform list, or the intent's platform is
        in it; the default `[]` accepts no platform. */
    predicate CanHandle(intent: Intent) {
      platforms.None? || intent.platform in platforms.value
    }

    /** `async_validate_slots`, building and caching the schema once. */
    method ValidateSlots(slots: Slots) returns (r: Result<Slots, Raised>)
      requires Valid()
      modifies this`compiledSchema
      ensures Valid()
      ensures r == ValidateSlotsSpec(slotSchema, slots)
      ensures compiledSchema == if slotSchema.None? then old(compiledSchema)
                                else Some(Compile(slotSchema.value))
    {
      if slotSchema.None? {
        return Success(slots);
      }
      if compiledSchema.None? {
        compiledSchema := Some(Compile(slotSchema.value));
      }
      r := ApplySchema(compiledSchema.value, slots);
    }

    /** `async_handle` of the handler's class. The state store and the
        outcome of the service call are inputs; the call is recorded on the
        hub. */
    method Handle(intent: Intent, hub: Hub, states: seq<State>, serviceResult: Option<Raised>)
      returns (r: Result<IntentResponse, Raised>)
      requires Valid()
      modifies this`compiledSchema, hub`calls
      ensures Valid()
      ensures var plan := HandlerPlan(kind, slotSchema, intent, states, serviceResult);
        && hub.calls == old(hub.calls) + (if plan.call.Some? then [plan.call.value] else [])
        && (plan.outcome.Failure? ==> r == Failure(plan.outcome.error))
        && (plan.outcome.Success? ==>
              && r.Success? && fresh(r.value) && r.value.intent == Some(intent)
              && r.value.speech == map[SPEECH_TYPE_PLAIN := map["speech" := Str(plan.outcome.value),
                                                                "extra_data" := Null]]
              && r.value.card == map[])
    {
      if kind.Base? {
        return Failure(OtherException("NotImplementedError", ""));
      }
      var slots := ValidateSlots(intent.slots);
      if slots.Failure? {
        return Failure(slots.error);
      }
      var valid := slots.value;
      if "name" !in valid {
        return Failure(OtherException("KeyError", "name"));
      }
      if !valid["name"].Dict? {
        return Failure(OtherException("TypeError", "name"));
      }
      if "value" !in valid["name"].fields {
        return Failure(OtherException("KeyError", "value"));
      }
      if !valid["name"].fields["value"].Str? {
        return Failure(OtherException("TypeError", "value"));
      }
      var name := valid["name"].fields["value"].s;
      var matched := MatchState(name, states);
      if matched.Failure? {
        return Failure(matched.error);
      }
      var state := matched.value;
      hub.calls := hub.calls + [ServiceCall(kind.domain, kind.service,
                                            map[ATTR_ENTITY_ID := state.entityId], intent.context)];
      if serviceResult.Some? {
        return Failure(serviceResult.value);
      }
      var text := Format(kind.speech, state.name, false);
      if text.Failure? {
        return Failure(text.error);
      }
      var response := new IntentResponse(Some(intent));
      response.SetSpeech(text.value, SPEECH_TYPE_PLAIN, Null);
      return Success(response);
    }
  }

  /** With no platform list every platform is accepted; with the default
      `[]`, which `ServiceIntentHandler` keeps, none is. */
  lemma PlatformGate(h: IntentHandler, intent: Intent)
    ensures h.platforms.None? ==> h.CanHandle(intent)
    ensures h.platforms == Some([]) ==> !h.CanHandle(intent)
    ensures h.platforms.Some? ==> (h.CanHandle(intent) <==> intent.platform in h.platforms.value)
  {
  }

  // ---------------------------------------------------------------------
  // The registry and the dispatch pipeline.

  /** The hub state the intent helper touches: the handler registry kept in
      `opp.data["intent"]` and the service calls issued so far. */
  class Hub {
    var intents: map<string, IntentHandler>
    var calls: seq<ServiceCall>

    ghost predicate Valid()
      reads this, intents.Values
    {
      forall t :: t in intents ==> intents[t].Valid()
    }

    constructor()
      ensures Valid() && intents == map[] && calls == []
    {
      intents := map[];
      calls := [];
    }

    /** `async_register`: the handler replaces any earlier one of its type
        (the source only logs a warning, reported here as `overwritten`);
        no other entry changes. */
    method Register(handler: IntentHandler) returns (overwritten: bool)
      requires Valid() && handler.Valid()
      requires handler.intentType.Some?
      modifies this`intents
      ensures Valid()
      ensures intents == old(intents)[handler.intentType.value := handler]
      ensures overwritten <==> handler.intentType.value in old(intents)
      ensures calls == old(calls)
    {
      var t := handler.intentType.value;
      overwritten := t in intents;
      intents := intents[t := handler];
    }

    /** `async_handle`: look the handler up (`UnknownIntent` before anything
        else happens), build the intent with `{}` for missing slots and the
        fresh context for a missing one, run the handler and classify what
        it raises. */
    method Handle(platform: string, intentType: string, slots: Option<Slots>,
                  textInput: Option<string>, context: Option<Context>, freshContext: Context,
                  states: seq<State>, serviceResult: Option<Raised>)
      returns (r: Result<IntentResponse, IntentError>)
      requires Valid()
      modifies this`calls, intents.Values
      ensures Valid() && intents == old(intents)
      ensures intentType !in intents ==>
        && r == Failure(IntentError(UnknownIntent, "Unknown intent " + intentType, None))
        && calls == old(calls)
        && unchanged(intents.Values)
      ensures intentType in intents ==>
        var h := intents[intentType];
        var intent := Intent(platform, intentType, slots.GetOr(map[]), textInput,
                             context.GetOr(freshContext));
        var plan := HandlerPlan(h.kind, h.slotSchema, intent, states, serviceResult);
        && calls == old(calls) + (if plan.call.Some? then [plan.call.value] else [])
        && (plan.outcome.Failure? ==> r == Failure(Classify(intentType, plan.outcome.error)))
        && (plan.outcome.Success? ==>
              && r.Success? && fresh(r.value) && r.value.intent == Some(intent)
              && r.value.speech == map[SPEECH_TYPE_PLAIN := map["speech" := Str(plan.outcome.value),
                                                                "extra_data" := Null]]
              && r.value.card == map[])
    {
      if intentType !in intents {
        return Failure(IntentError(UnknownIntent, "Unknown intent " + intentType, None));
      }
      var handler := intents[intentType];
      var ctx := context.GetOr(freshContext);
      var intent := Intent(platform, intentType, slots.GetOr(map[]), textInput, ctx);
      var result := handler.Handle(intent, this, states, serviceResult);
      if result.Failure? {
        return Failure(Classify(intentType, result.error));
      }
      return Success(result.value);
    }
  }
}
