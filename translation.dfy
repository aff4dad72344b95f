/** Translation string lookup (openpeerpower/helpers/translation.py):
    flattening nested translation dicts into dotted keys, grouping
    per-component translations by domain, the per-language cache and the
    English fallback. */
module Translation {
  import opened Wrappers
  import opened PyDict
  import opened Strs

  /** A parsed translation JSON value: a string leaf or a nested dict. */
  datatype Node = Leaf(text: string) | Branch(children: Dict<Node>)

  // ---------------------------------------------------------------------
  // Flattening.

  /** The loop of `recursive_flatten` from item `i` on, with `out` the
      output built so far: a leaf is assigned under `prefix + key`, a
      nested dict is flattened under `prefix + key + "."` and merged in with
      `update`. */
  function FlattenFold(out: Dict<string>, prefix: string, items: Dict<Node>, i: nat): Dict<string>
    requires i <= |items|
    decreases Branch(items), |items| - i
  {
    if i == |items| then out
    else
      var k := items[i].0;
      var v := items[i].1;
      assert v.Leaf? || v == Branch(v.children);
      var out' := match v
        case Leaf(t) => Set(out, prefix + k, t)
        case Branch(c) => Update(out, FlattenFold([], prefix + k + ".", c, 0));
      FlattenFold(out', prefix, items, i + 1)
  }

  /** The leaves from item `i` on, depth first, each under the dotted path
      of keys that reaches it. */
  function Leaves(prefix: string, items: Dict<Node>, i: nat): Dict<string>
    requires i <= |items|
    decreases Branch(items), |items| - i
  {
    if i == |items| then []
    else
      var k := items[i].0;
      var v := items[i].1;
      assert v.Leaf? || v == Branch(v.children);
      (match v
        case Leaf(t) => [(prefix + k, t)]
        case Branch(c) => Leaves(prefix + k + ".", c, 0))
      + Leaves(prefix, items, i + 1)
  }

  /** `recursive_flatten(prefix, data)`. */
  method RecursiveFlatten(prefix: string, data: Dict<Node>) returns (output: Dict<string>)
    ensures output == FlattenFold([], prefix, data, 0)
    decreases Branch(data)
  {
    output := [];
    var i := 0;
    while i < |data|
      invariant 0 <= i <= |data|
      invariant FlattenFold(output, prefix, data, i) == FlattenFold([], prefix, data, 0)
    {
      var key := data[i].0;
      var value := data[i].1;
      if value.Branch? {
        assert value == Branch(value.children);
        var sub := RecursiveFlatten(prefix + key + ".", value.children);
        output := Update(output, sub);
      } else {
        output := Set(output, prefix + key, value.text);
      }
      i := i + 1;
    }
  }

  /** `flatten(data)`. */
  method Flatten(data: Dict<Node>) returns (output: Dict<string>)
    ensures output == FlattenFold([], "", data, 0)
    ensures data == [] ==> output == []
  {
    output := RecursiveFlatten("", data);
  }

  lemma {:induction false} MapPlusAssoc<V>(a: map<string, V>, b: map<string, V>, c: map<string, V>)
    ensures (a + b) + c == a + (b + c)
  {
  }

  /** Flattening holds exactly the leaves under their dotted paths; where
      two leaves share a dotted path the one reached later wins. */
  lemma {:induction false} FlattenMeaning(out: Dict<string>, prefix: string, items: Dict<Node>, i: nat)
    requires i <= |items| && Distinct(out)
    ensures Distinct(FlattenFold(out, prefix, items, i))
    ensures AsMap(FlattenFold(out, prefix, items, i)) == AsMap(out) + AsMap(Leaves(prefix, items, i))
    decreases Branch(items), |items| - i, 1
  {
    if i < |items| {
      match items[i].1 {
        case Leaf(t) => FlattenLeafCase(out, prefix, items, i, t);
        case Branch(c) => FlattenBranchCase(out, prefix, items, i, c);
      }
    }
  }

  lemma {:induction false} FlattenLeafCase(out: Dict<string>, prefix: string, items: Dict<Node>, i: nat, t: string)
    requires i < |items| && items[i].1 == Leaf(t) && Distinct(out)
    ensures Distinct(FlattenFold(out, prefix, items, i))
    ensures AsMap(FlattenFold(out, prefix, items, i)) == AsMap(out) + AsMap(Leaves(prefix, items, i))
    decreases Branch(items), |items| - i, 0
  {
    var k := items[i].0;
    SetMeaning(out, prefix + k, t);
    FlattenMeaning(Set(out, prefix + k, t), prefix, items, i + 1);
    FlattenLeafStep(out, prefix, items, i, t);
  }

  lemma {:induction false} FlattenBranchCase(out: Dict<string>, prefix: string, items: Dict<Node>, i: nat, c: Dict<Node>)
    requires i < |items| && items[i].1 == Branch(c) && Distinct(out)
    ensures Distinct(FlattenFold(out, prefix, items, i))
    ensures AsMap(FlattenFold(out, prefix, items, i)) == AsMap(out) + AsMap(Leaves(prefix, items, i))
    decreases Branch(items), |items| - i, 0
  {
    var k := items[i].0;
    var p := prefix + k + ".";
    var sub := FlattenFold([], p, c, 0);
    var out' := Update(out, sub);
    assert AsMap(sub) == AsMap(Leaves(p, c, 0)) by {
      assert Branch(c) < Branch(items) by {
        assert items[i].1 == Branch(c);
      }
      FlattenMeaning([], p, c, 0);
    }
    assert Distinct(out') && AsMap(out') == AsMap(out) + AsMap(sub) by {
      UpdateMeaning(out, sub);
    }
    assert Distinct(FlattenFold(out', prefix, items, i + 1))
      && AsMap(FlattenFold(out', prefix, items, i + 1)) == AsMap(out') + AsMap(Leaves(prefix, items, i + 1)) by {
      FlattenMeaning(out', prefix, items, i + 1);
    }
    FlattenBranchStep(out, prefix, items, i, c);
  }

  lemma FlattenLeafStep(out: Dict<string>, prefix: string, items: Dict<Node>, i: nat, t: string)
    requires i < |items| && items[i].1 == Leaf(t)
    requires var out' := Set(out, prefix + items[i].0, t);
      && AsMap(out') == AsMap(out)[prefix + items[i].0 := t]
      && Distinct(FlattenFold(out', prefix, items, i + 1))
      && AsMap(FlattenFold(out', prefix, items, i + 1)) == AsMap(out') + AsMap(Leaves(prefix, items, i + 1))
    ensures Distinct(FlattenFold(out, prefix, items, i))
    ensures AsMap(FlattenFold(out, prefix, items, i)) == AsMap(out) + AsMap(Leaves(prefix, items, i))
  {
    var key := prefix + items[i].0;
    var rest := Leaves(prefix, items, i + 1);
    assert FlattenFold(out, prefix, items, i) == FlattenFold(Set(out, key, t), prefix, items, i + 1);
    assert Leaves(prefix, items, i) == [(key, t)] + rest;
    AsMapConcat([(key, t)], rest);
    MapPlusAssign(AsMap(out), key, t, AsMap(rest));
  }

  lemma FlattenBranchStep(out: Dict<string>, prefix: string, items: Dict<Node>, i: nat, c: Dict<Node>)
    requires i < |items| && items[i].1 == Branch(c)
    requires var sub := FlattenFold([], prefix + items[i].0 + ".", c, 0);
      var out' := Update(out, sub);
      && AsMap(sub) == AsMap(Leaves(prefix + items[i].0 + ".", c, 0))
      && AsMap(out') == AsMap(out) + AsMap(sub)
      && Distinct(FlattenFold(out', prefix, items, i + 1))
      && AsMap(FlattenFold(out', prefix, items, i + 1)) == AsMap(out') + AsMap(Leaves(prefix, items, i + 1))
    ensures Distinct(FlattenFold(out, prefix, items, i))
    ensures AsMap(FlattenFold(out, prefix, items, i)) == AsMap(out) + AsMap(Leaves(prefix, items, i))
  {
    var p := prefix + items[i].0 + ".";
    var sub := FlattenFold([], p, c, 0);
    var rest := Leaves(prefix, items, i + 1);
    assert FlattenFold(out, prefix, items, i) == FlattenFold(Update(out, sub), prefix, items, i + 1);
    assert Leaves(prefix, items, i) == Leaves(p, c, 0) + rest;
    AsMapConcat(Leaves(p, c, 0), rest);
    MapPlusAssoc(AsMap(out), AsMap(sub), AsMap(rest));
  }

  /** Every dotted key produced under `prefix` starts with it. */
  lemma {:induction false} LeavesPrefixed(prefix: string, items: Dict<Node>, i: nat)
    requires i <= |items|
    ensures forall key :: key in Keys(Leaves(prefix, items, i)) ==> prefix <= key
    decreases Branch(items), |items| - i
  {
    if i < |items| {
      var k := items[i].0;
      var v := items[i].1;
      var rest := Leaves(prefix, items, i + 1);
      LeavesPrefixed(prefix, items, i + 1);
      match v {
        case Leaf(t) =>
          AsMapConcat([(prefix + k, t)], rest);
          assert [(prefix + k, t)][1..] == [];
          assert prefix <= prefix + k;
        case Branch(c) =>
          assert v == Branch(c);
          LeavesPrefixed(prefix + k + ".", c, 0);
          AsMapConcat(Leaves(prefix + k + ".", c, 0), rest);
          forall key | key in Keys(Leaves(prefix + k + ".", c, 0)) ensures prefix <= key {
            assert prefix <= prefix + k + ".";
          }
      }
    }
  }

  /** The flattened dict of `data` maps each dotted leaf path to its leaf,
      and to nothing else. */
  lemma {:induction false} FlattenLeaves(data: Dict<Node>)
    ensures Distinct(FlattenFold([], "", data, 0))
    ensures AsMap(FlattenFold([], "", data, 0)) == AsMap(Leaves("", data, 0))
  {
    FlattenMeaning([], "", data, 0);
  }

  predicate AllLeaves(items: Dict<Node>) {
    forall j :: 0 <= j < |items| ==> items[j].1.Leaf?
  }

  function Texts(items: Dict<Node>): (r: Dict<string>)
    requires AllLeaves(items)
    ensures |r| == |items|
    ensures forall j :: 0 <= j < |items| ==> r[j] == (items[j].0, items[j].1.text)
  {
    if items == [] then [] else [(items[0].0, items[0].1.text)] + Texts(items[1..])
  }

  lemma {:induction false} TextsKeys(items: Dict<Node>)
    requires AllLeaves(items)
    ensures Keys(Texts(items)) == Keys(items)
    ensures Distinct(items) ==> Distinct(Texts(items))
    decreases |items|
  {
    if items != [] {
      TextsKeys(items[1..]);
      assert Texts(items)[1..] == Texts(items[1..]);
    }
  }

  /** Flattening a dict without nested dicts returns it unchanged, in the
      same order. */
  lemma {:induction false} FlattenFlat(out: Dict<string>, items: Dict<Node>, i: nat)
    requires i <= |items| && AllLeaves(items) && Distinct(items[i..])
    requires Keys(out) !! Keys(items[i..])
    ensures FlattenFold(out, "", items, i) == out + Texts(items)[i..]
    decreases |items| - i
  {
    var texts := Texts(items);
    if i < |items| {
      var out' := out + [texts[i]];
      assert texts[i] == (items[i].0, items[i].1.text);
      FlattenFlatStep(out, items, i);
      FlattenFlat(out', items, i + 1);
      assert FlattenFold(out, "", items, i) == FlattenFold(out', "", items, i + 1);
      AppendSlice(out, texts, i);
    } else {
      assert texts[i..] == [];
      assert out + [] == out;
    }
  }

  lemma AppendSlice<T>(a: seq<T>, s: seq<T>, i: nat)
    requires i < |s|
    ensures (a + [s[i]]) + s[i + 1..] == a + s[i..]
  {
    assert s[i..] == [s[i]] + s[i + 1..];
  }

  lemma FlattenFlatStep(out: Dict<string>, items: Dict<Node>, i: nat)
    requires i < |items| && AllLeaves(items) && Distinct(items[i..])
    requires Keys(out) !! Keys(items[i..])
    ensures var out' := out + [(items[i].0, items[i].1.text)];
      && FlattenFold(out, "", items, i) == FlattenFold(out', "", items, i + 1)
      && Distinct(items[i + 1..])
      && Keys(out') !! Keys(items[i + 1..])
  {
    var k := items[i].0;
    var t := items[i].1.text;
    assert items[i..][0] == items[i] && items[i..][1..] == items[i + 1..];
    assert Keys(items[i..]) == {k} + Keys(items[i + 1..]);
    assert k !in Keys(out);
    assert "" + k == k;
    assert Set(out, k, t) == out + [(k, t)];
    AsMapConcat(out, [(k, t)]);
    assert [(k, t)][1..] == [];
  }

  /** `flatten` leaves a flat dict as it is. */
  lemma {:induction false} FlattenFlatIdentity(data: Dict<Node>)
    requires AllLeaves(data) && Distinct(data)
    ensures FlattenFold([], "", data, 0) == Texts(data)
  {
    assert data[0..] == data;
    FlattenFlat([], data, 0);
    assert Texts(data)[0..] == Texts(data);
  }

  // ---------------------------------------------------------------------
  // Component names and translation files.

  /** The domain `build_resources` files a component under: the component
      itself without a dot, else the text before its first dot. */
  function DomainOf(component: string): (d: string)
    ensures '.' !in d && d <= component
    ensures d == component || component[|d|] == '.'
  {
    if '.' !in component then component else component[..FirstDot(component)]
  }

  lemma {:induction false} DomainIsFirstPart(component: string)
    ensures DomainOf(component) == Split(component)[0]
  {
  }

  /** Where an integration's code lives: `integration.file_path` and the
      name of its last path component. */
  datatype IntegrationDir = IntegrationDir(filePath: string, dirName: string)

  /** The integration `component_translation_file` looks up: the last dotted
      part of the component. */
  function IntegrationOf(component: string): string {
    var parts := Split(component);
    parts[|parts| - 1]
  }

  /** `component_translation_file`: a platform `p.d` reads
      `<d's path>/.translations/p.<language>.json`; any other component
      reads `<path>/.translations/<language>.json`, unless its integration
      is a single file (its path's name is not the domain). */
  function ComponentTranslationFile(component: string, language: string,
                                    integrations: map<string, IntegrationDir>): (r: Option<string>)
    requires IntegrationOf(component) in integrations
    ensures var dir := integrations[IntegrationOf(component)];
      |Split(component)| == 2 ==>
        r == Some(dir.filePath + "/.translations/" + Split(component)[0] + "." + language + ".json")
    ensures var dir := integrations[IntegrationOf(component)];
      |Split(component)| != 2 ==>
        (r.None? <==> dir.dirName != IntegrationOf(component)) &&
        (r.Some? ==> r.value == dir.filePath + "/.translations/" + language + ".json")
  {
    var parts := Split(component);
    var domain := parts[|parts| - 1];
    var integration := integrations[domain];
    if |parts| == 2 then
      Some(integration.filePath + "/.translations/" + parts[0] + "." + language + ".json")
    else if integration.dirName != domain then None
    else Some(integration.filePath + "/.translations/" + language + ".json")
  }

  // ---------------------------------------------------------------------
  // Grouping by domain.

  /** The resources grouped by domain: domain to merged translations. */
  type Resources = Dict<Dict<Node>>

  /** The loop of `build_resources` from component `i` on. */
  function BuildFold(resources: Resources, cache: map<string, Dict<Node>>,
                     components: seq<string>, i: nat): Resources
    requires i <= |components|
    requires forall c :: c in components ==> c in cache
    decreases |components| - i
  {
    if i == |components| then resources
    else
      BuildFold(BuildNext(resources, cache, components[i]), cache, components, i + 1)
  }

  /** `build_resources`. The source raises `KeyError` for a component
      missing from the cache; its only caller fills the cache first. */
  method BuildResources(cache: map<string, Dict<Node>>, components: seq<string>)
    returns (resources: Resources)
    requires forall c :: c in components ==> c in cache
    ensures resources == BuildFold([], cache, components, 0)
  {
    resources := [];
    var i := 0;
    while i < |components|
      invariant 0 <= i <= |components|
      invariant BuildFold(resources, cache, components, i) == BuildFold([], cache, components, 0)
    {
      var component := components[i];
      var domain := DomainOf(component);
      var current := Get(resources, domain, []);
      resources := Set(resources, domain, Update(current, cache[component]));
      i := i + 1;
    }
  }

  /** The translations of `domain` gathered from the first `n` components:
      the union of their cached maps, later components overriding. */
  function Merged(cache: map<string, Dict<Node>>, components: seq<string>, domain: string, n: nat)
    : map<string, Node>
    requires n <= |components|
    requires forall c :: c in components ==> c in cache
  {
    if n == 0 then map[]
    else
      Merged(cache, components, domain, n - 1) +
      (if DomainOf(components[n - 1]) == domain then AsMap(cache[components[n - 1]]) else map[])
  }

  function Domains(components: seq<string>): set<string> {
    set c | c in components :: DomainOf(c)
  }

  /** What the grouped resources hold after the first `i` components. */
  ghost predicate GroupedUpTo(resources: Resources, cache: map<string, Dict<Node>>,
                              components: seq<string>, i: nat)
    requires i <= |components|
    requires forall c :: c in components ==> c in cache
  {
    && Distinct(resources)
    && Keys(resources) == Domains(components[..i])
    && forall d :: d in Keys(resources) ==>
         Distinct(AsMap(resources)[d]) && AsMap(AsMap(resources)[d]) == Merged(cache, components, d, i)
  }

  lemma {:induction false} BuildFoldMeaning(resources: Resources, cache: map<string, Dict<Node>>,
                                            components: seq<string>, i: nat)
    requires i <= |components|
    requires forall c :: c in components ==> c in cache
    requires GroupedUpTo(resources, cache, components, i)
    ensures GroupedUpTo(BuildFold(resources, cache, components, i), cache, components, |components|)
    decreases |components| - i
  {
    if i < |components| {
      var next := BuildNext(resources, cache, components[i]);
      assert BuildFold(resources, cache, components, i) == BuildFold(next, cache, components, i + 1);
      BuildStep(resources, cache, components, i);
      BuildFoldMeaning(next, cache, components, i + 1);
    }
  }

  /** One iteration of `build_resources` on `component`. */
  function BuildNext(resources: Resources, cache: map<string, Dict<Node>>, component: string): Resources
    requires component in cache
  {
    var domain := DomainOf(component);
    Set(resources, domain, Update(Get(resources, domain, []), cache[component]))
  }

  lemma BuildStep(resources: Resources, cache: map<string, Dict<Node>>, components: seq<string>, i: nat)
    requires i < |components|
    requires forall c :: c in components ==> c in cache
    requires GroupedUpTo(resources, cache, components, i)
    ensures GroupedUpTo(BuildNext(resources, cache, components[i]), cache, components, i + 1)
  {
    var c := components[i];
    var domain := DomainOf(c);
    var current := Get(resources, domain, []);
    var updated := Update(current, cache[c]);
    var next := Set(resources, domain, updated);
    assert Distinct(current) && AsMap(current) == Merged(cache, components, domain, i) by {
      if domain !in Keys(resources) {
        assert current == [];
        MergedOutside(cache, components, domain, i);
      }
    }
    assert Distinct(updated) && AsMap(updated) == Merged(cache, components, domain, i + 1) by {
      UpdateMeaning(current, cache[c]);
      MergedStep(cache, components, domain, i);
    }
    assert AsMap(next) == AsMap(resources)[domain := updated] by {
      SetMeaning(resources, domain, updated);
    }
    assert Keys(next) == Domains(components[..i + 1]) by {
      DomainsSnoc(components, i);
    }
    BuildStepValues(resources, next, domain, updated, cache, components, i);
  }

  lemma BuildStepValues(resources: Resources, next: Resources, domain: string, updated: Dict<Node>,
                        cache: map<string, Dict<Node>>, components: seq<string>, i: nat)
    requires i < |components| && domain == DomainOf(components[i])
    requires forall c :: c in components ==> c in cache
    requires AsMap(next) == AsMap(resources)[domain := updated]
    requires Distinct(updated) && AsMap(updated) == Merged(cache, components, domain, i + 1)
    requires forall d :: d in Keys(resources) ==>
      Distinct(AsMap(resources)[d]) && AsMap(AsMap(resources)[d]) == Merged(cache, components, d, i)
    ensures forall d :: d in Keys(next) ==>
      Distinct(AsMap(next)[d]) && AsMap(AsMap(next)[d]) == Merged(cache, components, d, i + 1)
  {
    forall d | d in Keys(next)
      ensures Distinct(AsMap(next)[d]) && AsMap(AsMap(next)[d]) == Merged(cache, components, d, i + 1)
    {
      if d != domain {
        MergedStep(cache, components, d, i);
        assert AsMap(next)[d] == AsMap(resources)[d];
      }
    }
  }

  lemma DomainsSnoc(components: seq<string>, i: nat)
    requires i < |components|
    ensures Domains(components[..i + 1]) == Domains(components[..i]) + {DomainOf(components[i])}
  {
    assert components[..i + 1] == components[..i] + [components[i]];
  }

  lemma MergedStep(cache: map<string, Dict<Node>>, components: seq<string>, domain: string, i: nat)
    requires i < |components|
    requires forall c :: c in components ==> c in cache
    ensures Merged(cache, components, domain, i + 1) ==
      if DomainOf(components[i]) == domain
      then Merged(cache, components, domain, i) + AsMap(cache[components[i]])
      else Merged(cache, components, domain, i)
  {
  }

  /** A domain none of the first `n` components belongs to has gathered
      nothing. */
  lemma {:induction false} MergedOutside(cache: map<string, Dict<Node>>, components: seq<string>,
                                         domain: string, n: nat)
    requires n <= |components|
    requires forall c :: c in components ==> c in cache
    requires domain !in Domains(components[..n])
    ensures Merged(cache, components, domain, n) == map[]
  {
    if n > 0 {
      assert components[..n - 1] == components[..n][..n - 1];
      assert components[n - 1] in components[..n];
      assert Domains(components[..n - 1]) <= Domains(components[..n]);
      MergedOutside(cache, components, domain, n - 1);
    }
  }

  /** `build_resources` has exactly one entry per domain, holding the union
      of that domain's component translations in iteration order. */
  lemma {:induction false} BuildResourcesMeaning(cache: map<string, Dict<Node>>, components: seq<string>)
    requires forall c :: c in components ==> c in cache
    ensures var r := BuildFold([], cache, components, 0);
      && Distinct(r)
      && Keys(r) == Domains(components)
      && forall d :: d in Keys(r) ==> AsMap(AsMap(r)[d]) == Merged(cache, components, d, |components|)
  {
    assert components[..0] == [];
    assert Domains([]) == {};
    BuildFoldMeaning([], cache, components, 0);
    assert components[..|components|] == components;
  }

  // ---------------------------------------------------------------------
  // The cache and the English fallback.

  /** The translations of a component once its file, if any, is loaded. */
  function LoadedFor(component: string, language: string, integrations: map<string, IntegrationDir>,
                     load: string -> Dict<Node>): Dict<Node>
    requires IntegrationOf(component) in integrations
  {
    match ComponentTranslationFile(component, language, integrations)
    case None => []
    case Some(path) => load(path)
  }

  /** The language cache after `async_get_component_resources`: cached
      components untouched, the others loaded, or `{}` without a file. */
  function Filled(languageCache: map<string, Dict<Node>>, components: seq<string>, language: string,
                  integrations: map<string, IntegrationDir>, load: string -> Dict<Node>)
    : map<string, Dict<Node>>
    requires forall c :: c in components ==> IntegrationOf(c) in integrations
  {
    languageCache + map c | c in components && c !in languageCache ::
      LoadedFor(c, language, integrations, load)
  }

  /** After the fill every component is cached, components cached before
      keep their translations (they are not reloaded), and a component
      without a translation file is cached as `{}`. */
  lemma FilledMeaning(languageCache: map<string, Dict<Node>>, components: seq<string>, language: string,
                      integrations: map<string, IntegrationDir>, load: string -> Dict<Node>)
    requires forall c :: c in components ==> IntegrationOf(c) in integrations
    ensures var r := Filled(languageCache, components, language, integrations, load);
      && (forall c :: c in components ==> c in r)
      && (forall c :: c in languageCache ==> c in r && r[c] == languageCache[c])
      && (forall c :: c in r ==> c in languageCache || c in components)
      && (forall c :: (c in components && c !in languageCache &&
                       ComponentTranslationFile(c, language, integrations).None?) ==> r[c] == [])
  {
  }

  /** The components' resources in the `component` namespace. */
  function ComponentResources(languageCache: map<string, Dict<Node>>, components: seq<string>)
    : Dict<string>
    requires forall c :: c in components ==> c in languageCache
  {
    var resources := BuildFold([], languageCache, components, 0);
    FlattenFold([], "", [("component", Branch(AsNodes(resources)))], 0)
  }

  function AsNodes(resources: Resources): (r: Dict<Node>)
    ensures |r| == |resources|
    ensures forall j :: 0 <= j < |r| ==> r[j] == (resources[j].0, Branch(resources[j].1))
  {
    if resources == [] then []
    else [(resources[0].0, Branch(resources[0].1))] + AsNodes(resources[1..])
  }

  /** Every key `async_get_component_resources` returns lies in the
      `component.` namespace. */
  lemma {:induction false} ComponentNamespace(languageCache: map<string, Dict<Node>>, components: seq<string>)
    requires forall c :: c in components ==> c in languageCache
    ensures forall key :: key in Keys(ComponentResources(languageCache, components)) ==>
      "component." <= key
  {
    var nodes := AsNodes(BuildFold([], languageCache, components, 0));
    var items := [("component", Branch(nodes))];
    var result := FlattenFold([], "", items, 0);
    var leaves := Leaves("component.", nodes, 0);
    assert Keys(result) == Keys(leaves) by {
      FlattenMeaning([], "", items, 0);
      assert Leaves("", items, 0) == leaves by {
        assert "" + "component" + "." == "component.";
        assert Leaves("", items, 1) == [];
        assert leaves + [] == leaves;
      }
      assert AsMap(result) == map[] + AsMap(leaves);
    }
    LeavesPrefixed("component.", nodes, 0);
  }

  /** `{**base, **resources}`. */
  function MergeFallback(base: Dict<string>, resources: Dict<string>): Dict<string> {
    Update(Update([], base), resources)
  }

  /** The merged translations hold the keys of both, with the requested
      language's values winning. */
  lemma {:induction false} MergeFallbackMeaning(base: Dict<string>, resources: Dict<string>)
    ensures Distinct(MergeFallback(base, resources))
    ensures Keys(MergeFallback(base, resources)) == Keys(base) + Keys(resources)
    ensures AsMap(MergeFallback(base, resources)) == AsMap(base) + AsMap(resources)
  {
    UpdateMeaning([], base);
    UpdateMeaning(Update([], base), resources);
  }

  /** The cache fill of `async_get_component_resources`: each component
      not yet cached is cached as `{}` when it has no translation file, and
      otherwise as its loaded file. */
  method FillCache(languageCache: map<string, Dict<Node>>, components: seq<string>, language: string,
                   integrations: map<string, IntegrationDir>, load: string -> Dict<Node>)
    returns (translationCache: map<string, Dict<Node>>)
    requires forall c :: c in components ==> IntegrationOf(c) in integrations
    ensures translationCache == Filled(languageCache, components, language, integrations, load)
  {
    translationCache := languageCache;
    var missingFiles: map<string, string> := map[];
    var i := 0;
    while i < |components|
      invariant 0 <= i <= |components|
      invariant forall c :: c in translationCache ==> c in languageCache || c in components[..i]
      invariant forall c :: c in languageCache ==>
        c in translationCache && translationCache[c] == languageCache[c]
      invariant forall c :: c in components[..i] && c !in languageCache ==>
        (ComponentTranslationFile(c, language, integrations).None? ==>
           c in translationCache && translationCache[c] == [] && c !in missingFiles) &&
        (ComponentTranslationFile(c, language, integrations).Some? ==>
           c in missingFiles && missingFiles[c] == ComponentTranslationFile(c, language, integrations).value &&
           c !in translationCache)
      invariant forall c :: c in missingFiles ==> c in components[..i] && c !in languageCache
    {
      var component := components[i];
      if component !in translationCache {
        var path := ComponentTranslationFile(component, language, integrations);
        if path.None? {
          translationCache := translationCache[component := []];
        } else {
          missingFiles := missingFiles[component := path.value];
        }
      }
      assert components[..i + 1] == components[..i] + [component];
      i := i + 1;
    }
    assert components[..i] == components;
    FillComplete(languageCache, components, language, integrations, load, translationCache, missingFiles);
    var loaded := LoadAll(missingFiles, load);
    translationCache := translationCache + loaded;
  }

  /** The state after the loop of the cache fill, with the missing files
      loaded, is the filled cache. */
  lemma FillComplete(languageCache: map<string, Dict<Node>>, components: seq<string>, language: string,
                     integrations: map<string, IntegrationDir>, load: string -> Dict<Node>,
                     before: map<string, Dict<Node>>, missingFiles: map<string, string>)
    requires forall c :: c in components ==> IntegrationOf(c) in integrations
    requires forall c :: c in before ==> c in languageCache || c in components
    requires forall c :: c in languageCache ==> c in before && before[c] == languageCache[c]
    requires forall c :: c in components && c !in languageCache ==>
      (ComponentTranslationFile(c, language, integrations).None? ==>
         c in before && before[c] == [] && c !in missingFiles) &&
      (ComponentTranslationFile(c, language, integrations).Some? ==>
         c in missingFiles && missingFiles[c] == ComponentTranslationFile(c, language, integrations).value &&
         c !in before)
    requires forall c :: c in missingFiles ==> c in components && c !in languageCache
    ensures WithLoaded(before, missingFiles, load)
         == Filled(languageCache, components, language, integrations, load)
  {
    var loaded := LoadAll(missingFiles, load);
    var after := WithLoaded(before, missingFiles, load);
    var filled := Filled(languageCache, components, language, integrations, load);
    forall c | c in filled
      ensures c in after && after[c] == filled[c]
    {
      if c in languageCache {
        assert c !in loaded;
      } else {
        var path := ComponentTranslationFile(c, language, integrations);
        assert filled[c] == LoadedFor(c, language, integrations, load);
        if path.None? {
          assert c !in loaded;
        } else {
          assert after[c] == loaded[c];
        }
      }
    }
    forall c | c in after ensures c in filled {
    }
    assert after.Keys == filled.Keys;
    assert after == filled;
  }

  /** `load_translations_files`: each missing component's file, loaded. */
  function LoadAll(missingFiles: map<string, string>, load: string -> Dict<Node>): map<string, Dict<Node>> {
    map c | c in missingFiles :: load(missingFiles[c])
  }

  /** `translation_cache.update(loaded_translations)`. */
  function WithLoaded(before: map<string, Dict<Node>>, missingFiles: map<string, string>,
                      load: string -> Dict<Node>): map<string, Dict<Node>> {
    before + LoadAll(missingFiles, load)
  }

  /** `opp.data["translation_string_cache"]`: language to component to its
      loaded translations. */
  class TranslationCache {
    var cache: map<string, map<string, Dict<Node>>>

    constructor()
      ensures cache == map[]
    {
      cache := map[];
    }

    function LanguageCache(language: string): map<string, Dict<Node>>
      reads this
    {
      if language in cache then cache[language] else map[]
    }

    /** `async_get_component_resources`. The loaded components and config
        flows are `components` in iteration order; `integrations` stands
        for `async_get_integration` and `load` for reading a JSON file. */
    method GetComponentResources(language: string, components: seq<string>,
                                 integrations: map<string, IntegrationDir>,
                                 load: string -> Dict<Node>)
      returns (r: Dict<string>)
      requires forall c :: c in components ==> IntegrationOf(c) in integrations
      modifies this
      ensures cache == old(cache)[language :=
        Filled(old(LanguageCache(language)), components, language, integrations, load)]
      ensures r == ComponentResources(cache[language], components)
    {
      var translationCache := FillCache(LanguageCache(language), components, language, integrations, load);
      cache := cache[language := translationCache];
      var resources := BuildResources(translationCache, components);
      r := Flatten([("component", Branch(AsNodes(resources)))]);
    }

    /** `async_get_translations`: the language's resources, over the English
        ones as fallback unless the language is English. */
    method GetTranslations(language: string, components: seq<string>,
                           integrations: map<string, IntegrationDir>,
                           load: string -> Dict<Node>)
      returns (r: Dict<string>)
      requires forall c :: c in components ==> IntegrationOf(c) in integrations
      modifies this
      ensures cache == old(cache)
        [language := Filled(old(LanguageCache(language)), components, language, integrations, load)]
        ["en" := Filled(old(LanguageCache("en")), components, "en", integrations, load)]
      ensures language == "en" ==>
        r == ComponentResources(Filled(old(LanguageCache("en")), components, "en", integrations, load), components)
      ensures language != "en" ==>
        r == MergeFallback(
               ComponentResources(Filled(old(LanguageCache("en")), components, "en", integrations, load), components),
               ComponentResources(Filled(old(LanguageCache(language)), components, language, integrations, load), components))
    {
      r := GetComponentResources(language, components, integrations, load);
      if language != "en" {
        var base := GetComponentResources("en", components, integrations, load);
        r := MergeFallback(base, r);
      }
    }
  }
}
