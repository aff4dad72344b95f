/** Device triggers of alarm control panels
    (openpeerpower/components/alarm_control_panel/device_trigger.py): the
    triggers a device offers, from its registry entries and the supported
    features of their states, and the state change each trigger type
    watches for. */
module AlarmTrigger {
  import opened Wrappers
  import opened Bits

  const DOMAIN: string := "alarm_control_panel"

  const TRIGGERED: string := "triggered"
  const DISARMED: string := "disarmed"
  const ARMED_HOME: string := "armed_home"
  const ARMED_AWAY: string := "armed_away"
  const ARMED_NIGHT: string := "armed_night"

  const TRIGGER_TYPES: set<string> := {TRIGGERED, DISARMED, ARMED_HOME, ARMED_AWAY, ARMED_NIGHT}

  /** A device trigger as `async_get_triggers` lists it. */
  datatype Trigger = Trigger(platform: string, deviceId: string, domain: string,
                             entityId: string, triggerType: string)

  /** An entity registry entry of the device. */
  datatype Entry = Entry(entityId: string, domain: string)

  /** The current state of an entity, reduced to its `supported_features`
      attribute, which may be missing. */
  datatype EntityState = EntityState(supportedFeatures: Option<nat>)

  /** The feature bits `SUPPORT_ALARM_ARM_HOME`, `SUPPORT_ALARM_ARM_AWAY`
      and `SUPPORT_ALARM_ARM_NIGHT`. */
  datatype Support = Support(home: nat, away: nat, night: nat)

  /** A failed lookup: the missing key. */
  datatype KeyError = KeyError(key: string)

  function DeviceTrigger(deviceId: string, entityId: string, triggerType: string): Trigger {
    Trigger("device", deviceId, DOMAIN, entityId, triggerType)
  }

  /** The triggers one entity offers, given its supported features. */
  function EntityTriggers(deviceId: string, entityId: string, features: nat, support: Support): seq<Trigger> {
    [DeviceTrigger(deviceId, entityId, DISARMED), DeviceTrigger(deviceId, entityId, TRIGGERED)]
    + (if And(features, support.home) != 0 then [DeviceTrigger(deviceId, entityId, ARMED_HOME)] else [])
    + (if And(features, support.away) != 0 then [DeviceTrigger(deviceId, entityId, ARMED_AWAY)] else [])
    + (if And(features, support.night) != 0 then [DeviceTrigger(deviceId, entityId, ARMED_NIGHT)] else [])
  }

  /** Where a trigger type stands in the order the triggers are listed. */
  function TypeRank(t: string): nat {
    if t == DISARMED then 0
    else if t == TRIGGERED then 1
    else if t == ARMED_HOME then 2
    else if t == ARMED_AWAY then 3
    else 4
  }

  function Types(triggers: seq<Trigger>): set<string> {
    set t | t in triggers :: t.triggerType
  }

  /** The armed trigger of one type, when its feature bit is set. */
  function Armed(deviceId: string, entityId: string, features: nat, bit: nat, triggerType: string): (r: seq<Trigger>)
    ensures Types(r) == if And(features, bit) != 0 then {triggerType} else {}
  {
    if And(features, bit) != 0 then [DeviceTrigger(deviceId, entityId, triggerType)] else []
  }

  lemma EntityTriggersParts(deviceId: string, entityId: string, features: nat, support: Support)
    ensures EntityTriggers(deviceId, entityId, features, support) ==
      [DeviceTrigger(deviceId, entityId, DISARMED), DeviceTrigger(deviceId, entityId, TRIGGERED)]
      + Armed(deviceId, entityId, features, support.home, ARMED_HOME)
      + Armed(deviceId, entityId, features, support.away, ARMED_AWAY)
      + Armed(deviceId, entityId, features, support.night, ARMED_NIGHT)
  {
  }

  /** The five trigger types are distinct. */
  lemma TypesDistinct()
    ensures DISARMED != TRIGGERED && DISARMED != ARMED_HOME && DISARMED != ARMED_AWAY && DISARMED != ARMED_NIGHT
    ensures TRIGGERED != ARMED_HOME && TRIGGERED != ARMED_AWAY && TRIGGERED != ARMED_NIGHT
    ensures ARMED_HOME != ARMED_AWAY && ARMED_HOME != ARMED_NIGHT && ARMED_AWAY != ARMED_NIGHT
  {
    assert DISARMED[0] != TRIGGERED[0] && DISARMED[0] != ARMED_HOME[0];
    assert TRIGGERED[0] != ARMED_HOME[0];
    assert ARMED_HOME[6] != ARMED_AWAY[6] && ARMED_HOME[6] != ARMED_NIGHT[6] && ARMED_AWAY[6] != ARMED_NIGHT[6];
  }

  /** An entity's triggers: between two and five, all for its device and
      itself with a type in `TRIGGER_TYPES`, `disarmed` then `triggered`
      first. */
  lemma EntityTriggersShape(deviceId: string, entityId: string, features: nat, support: Support)
    ensures var ts := EntityTriggers(deviceId, entityId, features, support);
      && 2 <= |ts| <= 5
      && ts[0].triggerType == DISARMED && ts[1].triggerType == TRIGGERED
      && (forall t :: t in ts ==> t == DeviceTrigger(deviceId, entityId, t.triggerType))
      && (forall t :: t in ts ==> t.triggerType in TRIGGER_TYPES)
  {
    var ts := EntityTriggers(deviceId, entityId, features, support);
    EntityTriggersParts(deviceId, entityId, features, support);
    var home := Armed(deviceId, entityId, features, support.home, ARMED_HOME);
    var away := Armed(deviceId, entityId, features, support.away, ARMED_AWAY);
    var night := Armed(deviceId, entityId, features, support.night, ARMED_NIGHT);
    var first := [DeviceTrigger(deviceId, entityId, DISARMED), DeviceTrigger(deviceId, entityId, TRIGGERED)];
    assert forall t :: t in ts <==> t in first || t in home || t in away || t in night;
  }

  /** The types an entity's triggers have. */
  lemma EntityTypes(deviceId: string, entityId: string, features: nat, support: Support)
    ensures Types(EntityTriggers(deviceId, entityId, features, support)) ==
      {DISARMED, TRIGGERED}
      + (if And(features, support.home) != 0 then {ARMED_HOME} else {})
      + (if And(features, support.away) != 0 then {ARMED_AWAY} else {})
      + (if And(features, support.night) != 0 then {ARMED_NIGHT} else {})
  {
    var home := Armed(deviceId, entityId, features, support.home, ARMED_HOME);
    var away := Armed(deviceId, entityId, features, support.away, ARMED_AWAY);
    var night := Armed(deviceId, entityId, features, support.night, ARMED_NIGHT);
    var disarmed := [DeviceTrigger(deviceId, entityId, DISARMED)];
    var triggered := [DeviceTrigger(deviceId, entityId, TRIGGERED)];
    assert EntityTriggers(deviceId, entityId, features, support) == disarmed + triggered + home + away + night by {
      EntityTriggersParts(deviceId, entityId, features, support);
      assert [DeviceTrigger(deviceId, entityId, DISARMED), DeviceTrigger(deviceId, entityId, TRIGGERED)] == disarmed + triggered;
    }
    TypesSingle(disarmed[0]);
    TypesSingle(triggered[0]);
    TypesConcat(disarmed, triggered);
    TypesConcat(disarmed + triggered, home);
    TypesConcat(disarmed + triggered + home, away);
    TypesConcat(disarmed + triggered + home + away, night);
  }

  lemma TypesSingle(t: Trigger)
    ensures Types([t]) == {t.triggerType}
  {
    assert forall u :: u in [t] <==> u == t;
  }

  /** Each armed type is offered exactly when its feature bit is set. */
  lemma EntityTriggersArmed(deviceId: string, entityId: string, features: nat, support: Support)
    ensures var ts := EntityTriggers(deviceId, entityId, features, support);
      && (ARMED_HOME in Types(ts) <==> And(features, support.home) != 0)
      && (ARMED_AWAY in Types(ts) <==> And(features, support.away) != 0)
      && (ARMED_NIGHT in Types(ts) <==> And(features, support.night) != 0)
  {
    EntityTypes(deviceId, entityId, features, support);
    TypesDistinct();
  }

  lemma TypesConcat(a: seq<Trigger>, b: seq<Trigger>)
    ensures Types(a + b) == Types(a) + Types(b)
  {
    assert forall t :: t in a + b <==> t in a || t in b;
  }

  /** The armed triggers come after `disarmed` and `triggered`, in the
      order home, away, night. */
  lemma EntityTriggersOrder(deviceId: string, entityId: string, features: nat, support: Support)
    ensures var ts := EntityTriggers(deviceId, entityId, features, support);
      forall i, j :: 0 <= i < j < |ts| ==> TypeRank(ts[i].triggerType) < TypeRank(ts[j].triggerType)
  {
    var ts := EntityTriggers(deviceId, entityId, features, support);
    EntityTriggersParts(deviceId, entityId, features, support);
    var ranks := seq(|ts|, k requires 0 <= k < |ts| => TypeRank(ts[k].triggerType));
    var h := And(features, support.home) != 0;
    var a := And(features, support.away) != 0;
    var n := And(features, support.night) != 0;
    assert ranks == [0, 1] + (if h then [2] else []) + (if a then [3] else []) + (if n then [4] else []);
    assert forall i :: 0 <= i < |ts| ==> ranks[i] == TypeRank(ts[i].triggerType);
  }

  /** The triggers of a device from its registry entries in order: entries
      of another domain or with no current state are skipped, and an entry
      whose state has no `supported_features` attribute is a `KeyError`. */
  function DeviceTriggers(deviceId: string, entries: seq<Entry>, states: map<string, EntityState>,
                          support: Support): Result<seq<Trigger>, KeyError>
    decreases |entries|
  {
    if entries == [] then Success([])
    else
      var previous := DeviceTriggers(deviceId, entries[..|entries| - 1], states, support);
      var entry := entries[|entries| - 1];
      if previous.Failure? then previous
      else if entry.domain != DOMAIN || entry.entityId !in states then previous
      else match states[entry.entityId].supportedFeatures
        case None => Failure(KeyError("supported_features"))
        case Some(features) => Success(previous.value + EntityTriggers(deviceId, entry.entityId, features, support))
  }

  /** `async_get_triggers`, over the registry entries of the device and the
      current states by entity id. */
  method GetTriggers(deviceId: string, entries: seq<Entry>, states: map<string, EntityState>, support: Support)
    returns (r: Result<seq<Trigger>, KeyError>)
    ensures r == DeviceTriggers(deviceId, entries, states, support)
  {
    var triggers := [];
    var i := 0;
    while i < |entries|
      invariant 0 <= i <= |entries|
      invariant DeviceTriggers(deviceId, entries[..i], states, support) == Success(triggers)
    {
      var entry := entries[i];
      EntrySteps(deviceId, entries[..i], entry, states, support);
      assert entries[..i + 1] == entries[..i] + [entry];
      if entry.domain != DOMAIN {
        i := i + 1;
        continue;
      }
      if entry.entityId !in states {
        i := i + 1;
        continue;
      }
      var supportedFeatures := states[entry.entityId].supportedFeatures;
      if supportedFeatures.None? {
        FailureSticks(deviceId, entries, i + 1, states, support);
        return Failure(KeyError("supported_features"));
      }
      var features := supportedFeatures.value;
      ghost var before := triggers;
      triggers := triggers + [DeviceTrigger(deviceId, entry.entityId, DISARMED),
                              DeviceTrigger(deviceId, entry.entityId, TRIGGERED)];
      if And(features, support.home) != 0 {
        triggers := triggers + [DeviceTrigger(deviceId, entry.entityId, ARMED_HOME)];
      }
      if And(features, support.away) != 0 {
        triggers := triggers + [DeviceTrigger(deviceId, entry.entityId, ARMED_AWAY)];
      }
      if And(features, support.night) != 0 {
        triggers := triggers + [DeviceTrigger(deviceId, entry.entityId, ARMED_NIGHT)];
      }
      EntityTriggersParts(deviceId, entry.entityId, features, support);
      assert triggers == before + EntityTriggers(deviceId, entry.entityId, features, support);
      i := i + 1;
    }
    assert entries[..i] == entries;
    return Success(triggers);
  }

  /** Once a lookup fails, the triggers of any longer prefix fail the same
      way. */
  lemma {:induction false} FailureSticks(deviceId: string, entries: seq<Entry>, i: nat,
                                         states: map<string, EntityState>, support: Support)
    requires i <= |entries|
    requires DeviceTriggers(deviceId, entries[..i], states, support).Failure?
    ensures DeviceTriggers(deviceId, entries, states, support) == DeviceTriggers(deviceId, entries[..i], states, support)
    decreases |entries| - i
  {
    if i == |entries| {
      assert entries[..i] == entries;
    } else {
      assert entries[..i + 1][..i] == entries[..i];
      FailureSticks(deviceId, entries, i + 1, states, support);
    }
  }

  /** An entry whose state is present and has its features contributes its
      own triggers; one of another domain or with no state contributes
      nothing. */
  predicate Qualifies(entry: Entry, states: map<string, EntityState>) {
    entry.domain == DOMAIN && entry.entityId in states
  }

  /** The triggers of several entries follow the entries' order: those of
      `a + b` are those of `a` followed by those of `b`. */
  lemma {:induction false} DeviceTriggersAppend(deviceId: string, a: seq<Entry>, b: seq<Entry>,
                                               states: map<string, EntityState>, support: Support)
    requires DeviceTriggers(deviceId, a, states, support).Success?
    requires DeviceTriggers(deviceId, b, states, support).Success?
    ensures DeviceTriggers(deviceId, a + b, states, support) ==
      Success(DeviceTriggers(deviceId, a, states, support).value + DeviceTriggers(deviceId, b, states, support).value)
    decreases |b|
  {
    if b == [] {
      assert a + b == a;
      var ta := DeviceTriggers(deviceId, a, states, support).value;
      assert ta + [] == ta;
    } else {
      var b' := b[..|b| - 1];
      var last := b[|b| - 1];
      assert b == b' + [last];
      assert a + b == (a + b') + [last];
      DeviceTriggersAppend(deviceId, a, b', states, support);
      EntrySteps(deviceId, a + b', last, states, support);
      EntrySteps(deviceId, b', last, states, support);
      var ta := DeviceTriggers(deviceId, a, states, support).value;
      var tb := DeviceTriggers(deviceId, b', states, support).value;
      if Qualifies(last, states) {
        var e := EntityTriggers(deviceId, last.entityId, states[last.entityId].supportedFeatures.value, support);
        assert ta + tb + e == ta + (tb + e);
      }
    }
  }

  /** A skipped entry leaves the triggers as they were; a qualifying one
      appends its entity's triggers. */
  lemma EntrySteps(deviceId: string, entries: seq<Entry>, entry: Entry, states: map<string, EntityState>,
                   support: Support)
    requires DeviceTriggers(deviceId, entries, states, support).Success?
    ensures !Qualifies(entry, states) ==>
      DeviceTriggers(deviceId, entries + [entry], states, support) == DeviceTriggers(deviceId, entries, states, support)
    ensures Qualifies(entry, states) && states[entry.entityId].supportedFeatures.None? ==>
      DeviceTriggers(deviceId, entries + [entry], states, support) == Failure(KeyError("supported_features"))
    ensures Qualifies(entry, states) && states[entry.entityId].supportedFeatures.Some? ==>
      DeviceTriggers(deviceId, entries + [entry], states, support) ==
        Success(DeviceTriggers(deviceId, entries, states, support).value +
                EntityTriggers(deviceId, entry.entityId, states[entry.entityId].supportedFeatures.value, support))
  {
    assert (entries + [entry])[..|entries|] == entries;
  }

  /** Every trigger of a device is a device trigger of this domain for the
      device and one of its qualifying entries, with a type in
      `TRIGGER_TYPES`. */
  lemma {:induction false} DeviceTriggersWellFormed(deviceId: string, entries: seq<Entry>,
                                                   states: map<string, EntityState>, support: Support)
    requires DeviceTriggers(deviceId, entries, states, support).Success?
    ensures forall t :: t in DeviceTriggers(deviceId, entries, states, support).value ==>
      && t.platform == "device" && t.deviceId == deviceId && t.domain == DOMAIN
      && t.triggerType in TRIGGER_TYPES
      && exists e :: e in entries && Qualifies(e, states) && e.entityId == t.entityId
    decreases |entries|
  {
    if entries != [] {
      var previous := entries[..|entries| - 1];
      var entry := entries[|entries| - 1];
      DeviceTriggersWellFormed(deviceId, previous, states, support);
      forall e | e in previous ensures e in entries { }
      if Qualifies(entry, states) {
        var features := states[entry.entityId].supportedFeatures.value;
        EntityTriggersShape(deviceId, entry.entityId, features, support);
      }
    }
  }

  // ---------------------------------------------------------------------
  // Attaching a trigger.

  /** The alarm panel states a trigger watches; their text is
      `openpeerpower.const`'s. */
  datatype AlarmState = Pending | Triggered | Disarmed | ArmedHome | ArmedAway | ArmedNight

  /** The state trigger a device trigger is attached as. */
  datatype StateTrigger = StateTrigger(platform: string, entityId: string, fromState: AlarmState, toState: AlarmState)

  /** The type check of `TRIGGER_SCHEMA`, then the choice of the state
      change in `async_attach_trigger`. */
  function AttachTrigger(config: Trigger): (r: Result<StateTrigger, string>)
    ensures r.Failure? <==> config.triggerType !in TRIGGER_TYPES
  {
    if config.triggerType !in TRIGGER_TYPES then Failure("value must be one of the trigger types")
    else
      var (fromState, toState) :=
        if config.triggerType == TRIGGERED then (Pending, Triggered)
        else if config.triggerType == DISARMED then (Triggered, Disarmed)
        else if config.triggerType == ARMED_HOME then (Pending, ArmedHome)
        else if config.triggerType == ARMED_AWAY then (Pending, ArmedAway)
        else (Pending, ArmedNight);
      Success(StateTrigger("state", config.entityId, fromState, toState))
  }

  /** The state change each type watches: `triggered` from pending to
      triggered, `disarmed` from triggered to disarmed, and each armed type
      from pending to its armed state; the entity is the config's. */
  lemma AttachMapping(config: Trigger)
    ensures config.triggerType == TRIGGERED ==>
      AttachTrigger(config) == Success(StateTrigger("state", config.entityId, Pending, Triggered))
    ensures config.triggerType == DISARMED ==>
      AttachTrigger(config) == Success(StateTrigger("state", config.entityId, Triggered, Disarmed))
    ensures config.triggerType == ARMED_HOME ==>
      AttachTrigger(config) == Success(StateTrigger("state", config.entityId, Pending, ArmedHome))
    ensures config.triggerType == ARMED_AWAY ==>
      AttachTrigger(config) == Success(StateTrigger("state", config.entityId, Pending, ArmedAway))
    ensures config.triggerType == ARMED_NIGHT ==>
      AttachTrigger(config) == Success(StateTrigger("state", config.entityId, Pending, ArmedNight))
  {
  }

  /** Every listed trigger can be attached, and distinct types watch
      distinct state changes. */
  lemma ListedTriggersAttach(deviceId: string, entries: seq<Entry>, states: map<string, EntityState>,
                             support: Support)
    requires DeviceTriggers(deviceId, entries, states, support).Success?
    ensures forall t :: t in DeviceTriggers(deviceId, entries, states, support).value ==>
      AttachTrigger(t).Success?
  {
    DeviceTriggersWellFormed(deviceId, entries, states, support);
  }

  lemma AttachInjective(c: Trigger, d: Trigger)
    requires AttachTrigger(c).Success? && AttachTrigger(d).Success?
    requires c.triggerType != d.triggerType
    ensures AttachTrigger(c).value.fromState != AttachTrigger(d).value.fromState ||
            AttachTrigger(c).value.toState != AttachTrigger(d).value.toState
  {
  }
}
