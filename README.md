# Open Peer Power: intents, translations, dependency linting and alarm triggers

A Dafny model of four pieces of Open Peer Power, a home-automation hub. Each
piece is proved against a specification.

- **Intent helper** (`openpeerpower/helpers/intent.py`). This covers:
  - the registry of intent handlers kept on the hub;
  - `async_handle`, which dispatches an intent to its handler and turns what
    the handler raises into the error taxonomy (`UnknownIntent`,
    `InvalidSlotInfo`, `IntentHandleError`, `IntentUnexpectedError`);
  - slot validation with a cached compiled schema;
  - the fuzzy matcher that picks an entity state by spoken name;
  - the feature test;
  - `ServiceIntentHandler`, which validates the `name` slot, matches a state,
    calls a service for it and answers with a formatted speech;
  - the `IntentResponse` object.
- **Translation helper** (`openpeerpower/helpers/translation.py`). This covers:
  - flattening nested translation dicts into dotted keys;
  - the rule that finds a component's translation file;
  - grouping the component translations by domain;
  - the per-language cache fill;
  - the English fallback merge.
- **Dependency linter** of the integration validator
  (`script/oppfest/dependencies.py`). This covers:
  - the import collector, which walks a Python syntax tree and records which
    integrations each file refers to;
  - the references a manifest allows;
  - the violations left over;
  - the errors reported for them and for dependencies that do not exist.
- **Alarm control panel device triggers**
  (`openpeerpower/components/alarm_control_panel/device_trigger.py`). This
  covers the triggers a device offers, given its registry entries and the
  supported features of their states, and the state change each trigger
  type watches for.

The modules:

| file | module | role |
|---|---|---|
| `wrappers.dfy` | `Wrappers` | `Option` and `Result` |
| `bits.dfy` | `Bits` | bitwise `&` on naturals |
| `strs.dfy` | `Strs` | `str.split(".")`, `".".join`, `pathlib` stem, Python string order, `sorted` of a set |
| `pydict.dfy` | `PyDict` | Python dicts as ordered items; item assignment and `dict.update` |
| `fuzzy.dfy` | `Fuzzy` | `_fuzzymatch` |
| `intents.dfy` | `Intents` | the rest of the intent helper |
| `translation.dfy` | `Translation` | the translation helper |
| `dependencies.dfy` | `Dependencies` | the dependency linter |
| `alarm_trigger.dfy` | `AlarmTrigger` | the alarm panel device triggers |

How the model is stated:

- Code that updates state in place is modelled as classes with `modifies`
  clauses:
  - the hub's handler registry;
  - the handler's cached schema;
  - the response's speech and card dicts;
  - the translation cache;
  - the collector's reference sets;
  - an integration's error list.
- Each such method is proved equal to a specification function. Lemmas state
  what the specification functions mean.
- Loops in the source are `while` loops here, with their invariants:
  - the two loops of `_fuzzymatch`;
  - `recursive_flatten`;
  - `build_resources`;
  - the cache fill;
  - the collector's visits;
  - `calc_allowed_references`;
  - the nested loops of `find_non_referenced_integrations`;
  - the error loops;
  - `async_get_triggers`.
- External calls are inputs:
  - the state machine's states;
  - the outcome of a service call;
  - a fresh `Context`;
  - `async_get_integration`'s result;
  - the JSON loader;
  - `DISCOVERY_INTEGRATIONS`;
  - the parsed source files;
  - the alarm feature bits.

## Model

| member | source | states |
|---|---|---|
| Fuzzy.FuzzyMatch | openpeerpower/helpers/intent.py:164-175 | `None` exactly when no item's key matches the name pattern; otherwise an item of least `(length, start, index)` rank, which is the one `BestIndex` names |
| Fuzzy.SearchIsLeftmostShortest | openpeerpower/helpers/intent.py:167-170 | for names without regex metacharacters, the computed search succeeds exactly when `".*?".join(name)` matches (case-insensitively, gaps not crossing newlines) somewhere in the key; it then returns the leftmost match, shortest among those at that start |
| Fuzzy.SearchSelf | openpeerpower/helpers/intent.py:167-170 | a key searched for its own text matches at 0 with its full length |
| Fuzzy.LazyNotShortest | openpeerpower/helpers/intent.py:167-170 | the lazy pattern is leftmost rather than globally shortest: `ab` in `a_xab` spans the whole key |
| Fuzzy.BestIndex | openpeerpower/helpers/intent.py:172-175 | some index exactly when some item matches, and then the index of least `(len(match.group()), match.start(), idx)` |
| Fuzzy.BestUnique | openpeerpower/helpers/intent.py:172-175 | the index in the tuple breaks every tie, so the best item is unique |
| Fuzzy.EmptyNameFirst | openpeerpower/helpers/intent.py:167-175 | an empty name matches every key, and the first item is returned |
| Fuzzy.VerbatimWins | openpeerpower/helpers/intent.py:164-175 | a name equal to some item's key always finds a match of the name's length at start 0, at that item or an earlier one |
| Bits.AndSingleBit | openpeerpower/helpers/intent.py:121 | `a & 2^k` is non-zero exactly when bit `k` of `a` is set |
| Intents.Hub.Register | openpeerpower/helpers/intent.py:32-45 | the registry maps the handler's type to the handler, every other entry is unchanged, and `overwritten` says whether an entry of that type existed |
| Intents.Hub.Handle | openpeerpower/helpers/intent.py:49-78 | unknown type: `UnknownIntent("Unknown intent <t>")` with no call made and no handler touched; otherwise the intent is built with `{}` for missing slots and the fresh context for a missing one, the handler's service call is recorded, and a raised exception is classified by `Classify` |
| Intents.Classify | openpeerpower/helpers/intent.py:68-78 | `vol.Invalid` becomes `InvalidSlotInfo`; `IntentHandleError` passes through unchanged; anything else, other intent errors included, becomes `IntentUnexpectedError("Error handling <t>")`; each wrapped error keeps the original as its cause |
| Intents.TestFeature | openpeerpower/helpers/intent.py:118-122 | raises `IntentHandleError("Entity <name> does not support <feature>")` exactly when `supported_features` (default 0) `& feature == 0` |
| Intents.TestFeatureBit | openpeerpower/helpers/intent.py:118-122 | for a single-bit feature the test raises exactly when that bit is clear, and always when the attribute is missing |
| Intents.PlatformGate | openpeerpower/helpers/intent.py:131-136 | no platform list accepts every platform; the default `[]` accepts none; otherwise membership decides |
| Intents.IntentHandler.ValidateSlots | openpeerpower/helpers/intent.py:138-153 | no schema returns the slots unchanged; otherwise the compiled schema is built once, cached, and applied |
| Intents.ValidationMeaning | openpeerpower/helpers/intent.py:139-153 | validation succeeds exactly when every required slot is present and every declared slot present is a dict whose `value`, if any, passes its validator; on success all slots are kept, undeclared ones unchanged and declared ones with the validated `value` |
| Intents.NameSlotsValid | openpeerpower/helpers/intent.py:184 | `{"name": {"value": s}}` passes `ServiceIntentHandler`'s schema unchanged |
| Intents.MatchState | openpeerpower/helpers/intent.py:101-115 | `IntentHandleError("Unable to find an entity called <name>")` exactly when no state's name matches; otherwise the best fuzzy match |
| Intents.IntentHandler.Service | openpeerpower/helpers/intent.py:184-193 | the handler keeps its type, domain, service and speech, the `{Required("name"): cv.string}` schema and the class default platforms `[]` |
| Intents.IntentHandler.Handle | openpeerpower/helpers/intent.py:195-210 | the base class raises `NotImplementedError`; the service handler records exactly the call of its plan and returns a fresh response for the intent whose only speech is the plain formatted template |
| Intents.ServiceNoMatch | openpeerpower/helpers/intent.py:195-199 | with a name no state matches, the handler raises `IntentHandleError` and calls no service |
| Intents.ServiceMatch | openpeerpower/helpers/intent.py:195-210 | with a matching name it calls the service once with `{entity_id: <best match's id>}` and the intent's context, then formats the speech with the match's name |
| Intents.ServiceSingleState | openpeerpower/helpers/intent.py:195-210 | with one state named as asked and a template `a{}b`, the call targets that entity and the speech is `a<name>b` |
| Intents.FormatOneField | openpeerpower/helpers/intent.py:209 | `"a{}b".format(x)` is `a + x + b` for brace-free `a` and `b` |
| Intents.FormatPlain | openpeerpower/helpers/intent.py:209 | formatting a brace-free template returns it unchanged |
| Intents.IntentResponse.constructor | openpeerpower/helpers/intent.py:244-248 | a response holds its intent and empty speech and card dicts |
| Intents.IntentResponse.SetSpeech | openpeerpower/helpers/intent.py:250-255 | only the entry of the speech type changes, to `{speech, extra_data}`; the card is untouched |
| Intents.IntentResponse.SetCard | openpeerpower/helpers/intent.py:257-262 | only the entry of the card type changes, to `{title, content}`; the speech is untouched |
| Intents.IntentResponse.AsDict | openpeerpower/helpers/intent.py:264-267 | exactly the keys `speech` and `card`, holding the two dicts |
| PyDict.SetMeaning | openpeerpower/helpers/translation.py:26 | item assignment sets that key and keeps every other key's value |
| PyDict.UpdateMeaning | openpeerpower/helpers/translation.py:24 | `d.update(e)` holds the keys of both, `e`'s values winning, and stays free of duplicate keys |
| PyDict.UpdateFresh | openpeerpower/helpers/translation.py:24 | updating with keys that are all new appends them in order |
| Translation.RecursiveFlatten | openpeerpower/helpers/translation.py:19-27 | the loop and recursion compute the specification fold `FlattenFold` |
| Translation.Flatten | openpeerpower/helpers/translation.py:30-32 | `flatten` is `recursive_flatten("", data)`, and `flatten({}) == {}` |
| Translation.FlattenMeaning | openpeerpower/helpers/translation.py:19-27 | the output holds exactly the leaves under their dotted paths, over what was there before, with no duplicate keys |
| Translation.FlattenLeaves | openpeerpower/helpers/translation.py:19-32 | `flatten(data)` maps each dotted leaf path to its leaf, and no value is a dict |
| Translation.LeavesPrefixed | openpeerpower/helpers/translation.py:19-27 | every key produced under a prefix starts with it |
| Translation.FlattenFlatIdentity | openpeerpower/helpers/translation.py:19-32 | a dict without nested dicts flattens to itself, in the same order |
| Strs.SplitJoin | openpeerpower/helpers/translation.py:48 | `".".join(s.split(".")) == s` |
| Strs.JoinSplit | openpeerpower/helpers/translation.py:48 | splitting the join of dot-free parts gives the parts back |
| Translation.DomainOf | openpeerpower/helpers/translation.py:88-91 | the domain is dot-free and is the component itself or the text before its first dot |
| Translation.DomainIsFirstPart | openpeerpower/helpers/translation.py:88-91 | that domain is the first part of `component.split(".")` |
| Translation.ComponentTranslationFile | openpeerpower/helpers/translation.py:35-65 | a platform `p.d` reads `<d path>/.translations/p.<lang>.json`; a component reads `<path>/.translations/<lang>.json`, or nothing when its integration is a single file |
| Translation.BuildResources | openpeerpower/helpers/translation.py:81-101 | the loop computes the specification fold `BuildFold` |
| Translation.BuildResourcesMeaning | openpeerpower/helpers/translation.py:81-101 | one entry per domain of the components, each the update-union of its components' translations in iteration order |
| Translation.FillCache | openpeerpower/helpers/translation.py:115-138 | the cache after the fill is `Filled`: cached components untouched, missing ones loaded, or `{}` without a file |
| Translation.FilledMeaning | openpeerpower/helpers/translation.py:109-138 | after the fill every component is cached; components cached before are not reloaded; a component without a file is cached as `{}`; nothing else is added |
| Translation.ComponentNamespace | openpeerpower/helpers/translation.py:140-144 | every returned key starts with `component.` |
| Translation.MergeFallbackMeaning | openpeerpower/helpers/translation.py:153-156 | `{**base, **resources}` holds the keys of both, the requested language winning |
| Translation.TranslationCache.GetComponentResources | openpeerpower/helpers/translation.py:104-144 | only the language's cache entry changes, to the filled cache, and the result is the flattened `component` namespace of the grouped resources |
| Translation.TranslationCache.GetTranslations | openpeerpower/helpers/translation.py:147-158 | English returns its own resources; any other language returns them merged over the English ones; the cache entries of the language and of English become their filled caches, and every other language's entry is unchanged |
| Dependencies.ComponentOfModule | script/oppfest/dependencies.py:42-45 | `openpeerpower.components.x` and every module below it belong to integration `x` |
| Dependencies.ImportForms | script/oppfest/dependencies.py:37-57 | an import-from with no module (`from . import x`) records nothing; `from openpeerpower.components.x[...]` records `x`; `from openpeerpower.components import a, b` records `a` and `b`; `import openpeerpower.components.x...` records `x` |
| Dependencies.ImportIgnoresOthers | script/oppfest/dependencies.py:52-57 | an import of modules outside the components package records nothing |
| Dependencies.AttributeForms | script/oppfest/dependencies.py:59-88 | `opp.components.x.f` and `self.opp.components.x.f` record `x`; `<other>.components.x` records nothing |
| Dependencies.ImportCollector.AddReference | script/oppfest/dependencies.py:33-35 | adds the domain to the current file's set only |
| Dependencies.ImportCollector.VisitImportFrom | script/oppfest/dependencies.py:37-50 | adds exactly the references of the `from` import to the current file |
| Dependencies.ImportCollector.VisitImport | script/oppfest/dependencies.py:52-57 | adds exactly the references of the `import` to the current file |
| Dependencies.ImportCollector.Visit | script/oppfest/dependencies.py:59-88 | adds exactly `Refs(node)` to the current file; a matched attribute is not descended into, any other node's children are |
| Dependencies.ImportCollector.Collect | script/oppfest/dependencies.py:22-31 | each file's entry is reset and then holds exactly the references of its tree; no file is current afterwards |
| Dependencies.CalcAllowedReferences | script/oppfest/dependencies.py:139-152 | the always-allowed set, the dependencies, the after-dependencies, and each discovery integration one of whose keys the manifest has |
| Dependencies.FindNonReferenced | script/oppfest/dependencies.py:155-200 | exactly the references of some file that no rule exempts (`Violations`) |
| Dependencies.FileViolations | script/oppfest/dependencies.py:172-198 | for one file, exactly its references that are violations |
| Dependencies.ViolationsBounds | script/oppfest/dependencies.py:172-198 | a violation is a reference of some file and never the integration itself, an allowed reference or a whitelisted pair |
| Dependencies.PlatformExemptions | script/oppfest/dependencies.py:162-194 | a platform file of another integration may name that integration, and the integration's own files may name its platform files and directories |
| Dependencies.SortedIsSortedSet | script/oppfest/dependencies.py:215-219 | a strictly sorted list of exactly a set's elements is `sorted` of that set |
| Strs.Sorted | script/oppfest/dependencies.py:215 | `sorted(set)`: strictly increasing in Python string order, each element once |
| Strs.StemOfModule | script/oppfest/dependencies.py:163-165 | the stem of `m.py` is `m` |
| Dependencies.ValidateDependencies | script/oppfest/dependencies.py:203-224 | a domain whitelisted as a whole gets no error; otherwise one `Using component ...` error per violation, in sorted order, appended to the integration's errors |
| Dependencies.Validate | script/oppfest/dependencies.py:227-241 | with `order` listing every integration once, every integration's errors grow by exactly `ValidateErrors` |
| Dependencies.ValidateIntegration | script/oppfest/dependencies.py:229-241 | an empty manifest adds nothing; otherwise the dependency violations, then one `Dependency <d> does not exist` per listed dependency that is no integration |
| Dependencies.MissingErrorsMeaning | script/oppfest/dependencies.py:237-241 | one error for each listed dependency that is no integration, and none when all exist |
| AlarmTrigger.GetTriggers | openpeerpower/components/alarm_control_panel/device_trigger.py:48-114 | the loop computes `DeviceTriggers`: entries in order, skipping those of another domain or without state, and a `KeyError` when a state lacks `supported_features` |
| AlarmTrigger.EntrySteps | openpeerpower/components/alarm_control_panel/device_trigger.py:54-112 | a skipped entry leaves the triggers as they were; a qualifying one appends exactly its entity's triggers |
| AlarmTrigger.FailureSticks | openpeerpower/components/alarm_control_panel/device_trigger.py:64 | once a state lacks `supported_features`, the whole call fails with that `KeyError` |
| AlarmTrigger.DeviceTriggersAppend | openpeerpower/components/alarm_control_panel/device_trigger.py:54-114 | the triggers follow registry order: those of `a + b` are those of `a` then those of `b` |
| AlarmTrigger.EntityTriggersShape | openpeerpower/components/alarm_control_panel/device_trigger.py:67-111 | an entity yields 2 to 5 triggers, `disarmed` then `triggered` first, each with platform `device`, the device id, the domain, the entity id and a type in `TRIGGER_TYPES` |
| AlarmTrigger.EntityTriggersArmed | openpeerpower/components/alarm_control_panel/device_trigger.py:83-112 | `armed_home`, `armed_away` and `armed_night` are offered exactly when their feature bit is set |
| AlarmTrigger.EntityTriggersOrder | openpeerpower/components/alarm_control_panel/device_trigger.py:67-112 | an entity's trigger types come in the order disarmed, triggered, home, away, night |
| AlarmTrigger.DeviceTriggersWellFormed | openpeerpower/components/alarm_control_panel/device_trigger.py:67-111 | every listed trigger is a `device` trigger of the domain for the device and a qualifying entry, with a type in `TRIGGER_TYPES` |
| AlarmTrigger.TypesDistinct | openpeerpower/components/alarm_control_panel/device_trigger.py:32-38 | the five trigger types are distinct |
| AlarmTrigger.AttachTrigger | openpeerpower/components/alarm_control_panel/device_trigger.py:124-140 | rejected by the schema exactly when the type is not in `TRIGGER_TYPES` |
| AlarmTrigger.AttachMapping | openpeerpower/components/alarm_control_panel/device_trigger.py:126-147 | `triggered` watches pending to triggered; `disarmed` watches triggered to disarmed; each armed type watches pending to its armed state; all for the config's entity as a `state` trigger |
| AlarmTrigger.ListedTriggersAttach | openpeerpower/components/alarm_control_panel/device_trigger.py:40-45 | every trigger `async_get_triggers` lists passes the trigger schema's type check |
| AlarmTrigger.AttachInjective | openpeerpower/components/alarm_control_panel/device_trigger.py:126-140 | distinct types watch distinct state changes |

## Left out

- Fuzzy.Search: reads every character of the name literally. The source
  joins the name into a regex without escaping it. A name holding a regex
  metacharacter therefore means something else there, or raises `re.error`.
  Agreement with the regex (`SearchIsLeftmostShortest`) is proved only for
  names without metacharacters or newlines.
- Fuzzy.Fold: `re.IGNORECASE` folds case for ASCII letters only here. The
  source's Unicode case folding is not modelled.
- Intents.CvString: `cv.string` accepts strings only here. The source also
  coerces numbers and other values to strings.
- Intents.ApplySchema: a failing slot schema raises one fixed `vol.Invalid`
  message. Voluptuous's own messages and error paths are not modelled.
- Intents.Format: `str.format` is modelled only for templates whose braces
  are `{}` fields or `{{`/`}}` escapes. Other templates are excluded by a
  precondition on the handler's speech.
- Intents.Hub.Handle: creating a `Context` is an input (`freshContext`), and
  logging is not modelled. The hub object that `Intent` holds is not
  modelled; the intent keeps only the call's data.
- The service call itself (`opp.services.async_call`) is an input
  outcome. The model records the call and does not model what the call
  does.
- `async_match_state` with `states=None` reads the state machine. Here the
  states are always passed in.
- `IntentHandler.__repr__` is left out because it only affects log text.
- Translation.ComponentTranslationFile: `async_get_integration` is a map
  from domain to the integration's path. The source's assertion that the
  integration exists becomes a precondition.
- Translation.TranslationCache.GetComponentResources: the loaded components
  and config flows are a sequence in iteration order. The source forms a set
  of them, whose order Python does not fix. `load_translations_files` and
  `load_json` are a `load` function parameter, and executor jobs are not
  modelled.
- Translation.BuildResources: requires every component to be cached. The
  source raises `KeyError` otherwise, which its caller never lets happen.
- Translation values are strings or nested dicts. Other JSON leaf types are
  not modelled.
- Dependencies.ImportCollector.Collect: file globbing, reading and
  `ast.parse` are left out. The parsed trees are inputs, and only the node
  kinds the collector inspects are distinguished.
- Dependencies.Integration: `integration.path` checks for `<ref>.py` files
  and `<ref>` directories are the sets `files` and `dirs`. `model.py`'s
  `Integration` and `add_error` are reduced to an append to `errors`.
- Dependencies.Allowed, Dependencies.CalcAllowedReferences,
  Dependencies.ValidateDependencies, Dependencies.ValidateIntegration,
  Dependencies.Validate: require a non-empty manifest to have a
  `dependencies` key. The source reads `manifest["dependencies"]` there
  and would raise `KeyError` without it. The integration manifest schema
  makes the key mandatory, so the crash path is not modelled. That schema
  lives in `script/oppfest/manifest.py`, which is not part of this model.
- Dependencies.Allowed: `DISCOVERY_INTEGRATIONS` is a parameter, because
  `openpeerpower/requirements.py` is not part of this model. Manifest values
  are lists of strings.
- Dependencies.Validate: the order in which integrations are visited is a
  parameter. The `config` argument is unused by the source and left out.
- AlarmTrigger.Support: the values of `SUPPORT_ALARM_ARM_HOME`,
  `SUPPORT_ALARM_ARM_AWAY` and `SUPPORT_ALARM_ARM_NIGHT` are parameters,
  because the constants module is not part of this model.
- AlarmTrigger.AlarmState: the `STATE_ALARM_*` constants are a datatype,
  because their strings live in `openpeerpower.const`, which is not part of
  this model.
- AlarmTrigger.GetTriggers: the registry lookup of a device's entries is an
  input sequence.
- AlarmTrigger.AttachTrigger: checks only the type against `TRIGGER_TYPES`.
  The rest of `TRIGGER_BASE_SCHEMA`, `cv.entity_id`, and the state trigger's
  own schema and attachment (`state.async_attach_trigger`) are not modelled.
- `async`/`await` is left out. Each awaited call is a sequential step.
