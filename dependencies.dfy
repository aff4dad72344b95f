/** The dependency linter of the integration validator
    (script/oppfest/dependencies.py): which integrations a source tree
    refers to, which references the manifest allows, and the errors
    reported for the others and for missing dependencies. */
module Dependencies {
  import opened Wrappers
  import opened Strs

  // ---------------------------------------------------------------------
  // Syntax trees and the references they hold.

  /** The parts of a Python syntax tree the collector looks at; every other
      node is `Other` with its child nodes. */
  datatype Ast =
    | Name(id: string)
    | Attribute(value: Ast, attr: string)
    | ImportFrom(source: Option<string>, names: seq<string>)
    | Import(names: seq<string>)
    | Other(children: seq<Ast>)

  const ROOT_PACKAGE: string := "openpeerpower"
  const COMPONENTS: string := "components"
  /** `openpeerpower.components`. */
  const COMPONENTS_PACKAGE: string := ROOT_PACKAGE + "." + COMPONENTS
  /** `openpeerpower.components.`. */
  const COMPONENTS_PREFIX: string := COMPONENTS_PACKAGE + "."

  lemma SplitComponents(s: string)
    ensures Split(COMPONENTS_PREFIX + s) == [ROOT_PACKAGE, COMPONENTS] + Split(s)
  {
    DotFree();
    SplitCons2(ROOT_PACKAGE, COMPONENTS, s);
  }

  lemma SplitCons2(a: string, b: string, s: string)
    requires '.' !in a && '.' !in b
    ensures Split(a + "." + b + "." + s) == [a, b] + Split(s)
  {
    DottedAssoc(a, b, s);
    SplitCons(b, s);
    SplitCons(a, b + "." + s);
    assert [a] + ([b] + Split(s)) == [a, b] + Split(s);
  }

  lemma DottedAssoc(a: string, b: string, s: string)
    ensures a + "." + b + "." + s == a + "." + (b + "." + s)
  {
  }

  lemma DotFree()
    ensures '.' !in ROOT_PACKAGE && '.' !in COMPONENTS
  {
  }

  /** The integration a module under `openpeerpower.components.` belongs
      to: the third dotted part of its name. */
  function ComponentOf(name: string): (r: Option<string>)
    ensures r.Some? <==> COMPONENTS_PREFIX <= name
  {
    if COMPONENTS_PREFIX <= name then
      SplitComponents(name[|COMPONENTS_PREFIX|..]);
      assert name == COMPONENTS_PREFIX + name[|COMPONENTS_PREFIX|..];
      Some(Split(name)[2])
    else None
  }

  /** The integration of `openpeerpower.components.x` and of any module
      below it is `x`. */
  lemma ComponentOfModule(x: string, rest: string)
    requires '.' !in x
    ensures ComponentOf(COMPONENTS_PREFIX + x) == Some(x)
    ensures ComponentOf(COMPONENTS_PREFIX + x + "." + rest) == Some(x)
  {
    ComponentOfPrefixed(x);
    assert Split(x) == [x];
    ComponentOfPrefixed(x + "." + rest);
    SplitCons(x, rest);
    assert COMPONENTS_PREFIX + x + "." + rest == COMPONENTS_PREFIX + (x + "." + rest);
  }

  lemma ComponentOfPrefixed(y: string)
    ensures ComponentOf(COMPONENTS_PREFIX + y) == Some(Split(y)[0])
  {
    var name := COMPONENTS_PREFIX + y;
    assert name[..|COMPONENTS_PREFIX|] == COMPONENTS_PREFIX;
    assert name[|COMPONENTS_PREFIX|..] == y;
    SplitComponents(y);
  }

  /** `value.components` reached from the name `opp` or from an attribute
      named `opp` (as in `self.opp`). */
  predicate IsComponentsAccess(value: Ast) {
    && value.Attribute?
    && value.attr == "components"
    && ((value.value.Name? && value.value.id == "opp") ||
        (value.value.Attribute? && value.value.attr == "opp"))
  }

  function ImportFromRefs(source: Option<string>, names: seq<string>): set<string> {
    if source.None? then {}
    else if COMPONENTS_PREFIX <= source.value then {ComponentOf(source.value).value}
    else if source.value == COMPONENTS_PACKAGE then set n | n in names
    else {}
  }

  function ImportRefs(names: seq<string>): set<string> {
    set n | n in names && COMPONENTS_PREFIX <= n :: ComponentOf(n).value
  }

  /** The domains the collector records for a tree. */
  function Refs(node: Ast): set<string>
    decreases node
  {
    match node
    case Name(_) => {}
    case ImportFrom(source, names) => ImportFromRefs(source, names)
    case Import(names) => ImportRefs(names)
    case Attribute(value, attr) => if IsComponentsAccess(value) then {attr} else Refs(value)
    case Other(children) => RefsOfAll(children)
  }

  /** What the three import forms record. */
  lemma ImportForms(x: string, rest: string, names: seq<string>)
    requires '.' !in x
    ensures Refs(ImportFrom(None, names)) == {}
    ensures Refs(ImportFrom(Some(COMPONENTS_PREFIX + x + "." + rest), names)) == {x}
    ensures Refs(ImportFrom(Some(COMPONENTS_PREFIX + x), names)) == {x}
    ensures Refs(ImportFrom(Some(COMPONENTS_PACKAGE), names)) == set n | n in names
    ensures Refs(Import([COMPONENTS_PREFIX + x + "." + rest])) == {x}
  {
    ComponentOfModule(x, rest);
    assert !(COMPONENTS_PREFIX <= COMPONENTS_PACKAGE);
  }

  /** A name outside the components package records nothing. */
  lemma ImportIgnoresOthers(names: seq<string>)
    requires forall n :: n in names ==> !(COMPONENTS_PREFIX <= n)
    ensures Refs(Import(names)) == {}
  {
  }

  /** `opp.components.x.f` and `self.opp.components.x.f` record `x`;
      `other.components.x` records nothing. */
  lemma AttributeForms(x: string, f: string, other: string)
    requires other != "opp"
    ensures Refs(Attribute(Attribute(Attribute(Name("opp"), "components"), x), f)) == {x}
    ensures Refs(Attribute(Attribute(Attribute(Attribute(Name("self"), "opp"), "components"), x), f)) == {x}
    ensures Refs(Attribute(Attribute(Name(other), "components"), x)) == {}
  {
    assert !IsComponentsAccess(Attribute(Name(other), "components"));
    assert Refs(Attribute(Name(other), "components")) == Refs(Name(other));
  }

  // ---------------------------------------------------------------------
  // Collecting the references of every file.

  /** The references of a list of trees, together. */
  function RefsOfAll(trees: seq<Ast>): set<string> {
    set c, r | c in trees && r in Refs(c) :: r
  }

  lemma RefsOfAllSnoc(trees: seq<Ast>, t: Ast)
    ensures RefsOfAll(trees + [t]) == RefsOfAll(trees) + Refs(t)
  {
    assert forall c :: c in trees + [t] <==> c in trees || c == t;
  }

  lemma ExtendEntry<K, V>(m: map<K, set<V>>, k: K, x: set<V>, y: set<V>)
    requires k in m
    ensures var m1 := m[k := m[k] + x]; m1[k := m1[k] + y] == m[k := m[k] + (x + y)]
  {
    var m1 := m[k := m[k] + x];
    assert m1[k] == m[k] + x;
    assert m[k] + x + y == m[k] + (x + y);
  }

  lemma KeepEntry<K, V>(m: map<K, set<V>>, k: K)
    requires k in m
    ensures m[k := m[k] + {}] == m
  {
    assert m[k] + {} == m[k];
  }

  /** A file's path relative to the integration, as its parts. */
  type Path = p: seq<string> | |p| >= 1 witness [""]

  /** The loop of `collect` over the parsed files: each file's references
      replace any earlier entry for its path. */
  function Collected(referenced: map<Path, set<string>>, files: seq<(Path, Ast)>): map<Path, set<string>>
    decreases |files|
  {
    if files == [] then referenced
    else Collected(referenced[files[0].0 := Refs(files[0].1)], files[1..])
  }

  /** `ImportCollector`: the references found per file, and the file being
      visited. */
  class ImportCollector {
    var referenced: map<Path, set<string>>
    var current: Option<Path>

    constructor()
      ensures referenced == map[] && current == None
    {
      referenced := map[];
      current := None;
    }

    /** `_add_reference`. */
    method AddReference(domain: string)
      requires current.Some? && current.value in referenced
      modifies this`referenced
      ensures referenced == old(referenced)[current.value := old(referenced)[current.value] + {domain}]
    {
      referenced := referenced[current.value := referenced[current.value] + {domain}];
    }

    /** `visit`, dispatching to `visit_ImportFrom`, `visit_Import`,
        `visit_Attribute` or `generic_visit`. */
    method Visit(node: Ast)
      requires current.Some? && current.value in referenced
      modifies this`referenced
      ensures referenced == old(referenced)[current.value := old(referenced)[current.value] + Refs(node)]
      decreases node
    {
      match node
      case Name(_) =>
        KeepEntry(referenced, current.value);
      case ImportFrom(source, names) =>
        VisitImportFrom(source, names);
      case Import(names) =>
        VisitImport(names);
      case Attribute(value, attr) =>
        if IsComponentsAccess(value) {
          AddReference(attr);
        } else {
          Visit(value);
        }
      case Other(children) =>
        ghost var start := referenced;
        KeepEntry(referenced, current.value);
        assert RefsOfAll(children[..0]) == {};
        var i := 0;
        while i < |children|
          invariant 0 <= i <= |children|
          invariant current.Some? && current.value in referenced
          invariant referenced == start[current.value := start[current.value] + RefsOfAll(children[..i])]
        {
          assert children[i] in children;
          Visit(children[i]);
          ExtendEntry(start, current.value, RefsOfAll(children[..i]), Refs(children[i]));
          RefsOfAllSnoc(children[..i], children[i]);
          assert children[..i + 1] == children[..i] + [children[i]];
          i := i + 1;
        }
        assert children[..i] == children;
    }

    method VisitImportFrom(source: Option<string>, names: seq<string>)
      requires current.Some? && current.value in referenced
      modifies this`referenced
      ensures referenced == old(referenced)[current.value :=
        old(referenced)[current.value] + ImportFromRefs(source, names)]
    {
      if source.None? {
        KeepEntry(referenced, current.value);
        return;
      }
      if COMPONENTS_PREFIX <= source.value {
        AddReference(ComponentOf(source.value).value);
      } else if source.value == COMPONENTS_PACKAGE {
        ghost var start := referenced;
        KeepEntry(referenced, current.value);
        assert ToSet(names[..0]) == {};
        var i := 0;
        while i < |names|
          invariant 0 <= i <= |names|
          invariant current.Some? && current.value in referenced
          invariant referenced == start[current.value := start[current.value] + ToSet(names[..i])]
        {
          AddReference(names[i]);
          ExtendEntry(start, current.value, ToSet(names[..i]), {names[i]});
          assert ToSet(names[..i + 1]) == ToSet(names[..i]) + {names[i]} by {
            assert names[..i + 1] == names[..i] + [names[i]];
          }
          i := i + 1;
        }
        assert names[..i] == names;
      } else {
        KeepEntry(referenced, current.value);
      }
    }

    method VisitImport(names: seq<string>)
      requires current.Some? && current.value in referenced
      modifies this`referenced
      ensures referenced == old(referenced)[current.value :=
        old(referenced)[current.value] + ImportRefs(names)]
    {
      ghost var start := referenced;
      KeepEntry(referenced, current.value);
      assert ImportRefs(names[..0]) == {};
      var i := 0;
      while i < |names|
        invariant 0 <= i <= |names|
        invariant current.Some? && current.value in referenced
        invariant referenced == start[current.value := start[current.value] + ImportRefs(names[..i])]
      {
        assert names[..i + 1] == names[..i] + [names[i]];
        if COMPONENTS_PREFIX <= names[i] {
          AddReference(ComponentOf(names[i]).value);
          ExtendEntry(start, current.value, ImportRefs(names[..i]), {ComponentOf(names[i]).value});
          assert ImportRefs(names[..i + 1]) == ImportRefs(names[..i]) + {ComponentOf(names[i]).value};
        } else {
          assert ImportRefs(names[..i + 1]) == ImportRefs(names[..i]);
          KeepEntry(referenced, current.value);
        }
        i := i + 1;
      }
      assert names[..i] == names;
    }

    /** `collect`, over the integration's Python files already found and
        parsed: each file starts with no references and then is visited. */
    method Collect(files: seq<(Path, Ast)>)
      requires current.None?
      modifies this
      ensures referenced == Collected(old(referenced), files)
      ensures current.None?
    {
      var i := 0;
      while i < |files|
        invariant 0 <= i <= |files|
        invariant current.None?
        invariant Collected(referenced, files[i..]) == Collected(old(referenced), files)
      {
        var (path, tree) := files[i];
        current := Some(path);
        ghost var before := referenced;
        referenced := referenced[path := {}];
        Visit(tree);
        assert referenced == before[path := Refs(tree)] by {
          assert {} + Refs(tree) == Refs(tree);
        }
        current := None;
        assert files[i..][1..] == files[i + 1..];
        i := i + 1;
      }
    }
  }

  // ---------------------------------------------------------------------
  // Allowed references and violations.

  /** A manifest as its keys and their values, every value a list. */
  type Manifest = map<string, seq<string>>

  /** Integrations that may be used without being declared. */
  const ALLOWED_USED_COMPONENTS: set<string> := {
    "persistent_notification", "conversation", "frontend", "oppio", "system_health",
    "websocket_api", "automation", "device_automation", "zone", "openpeerpower",
    "system_log", "person", "mjpeg", "stream"
  }

  /** An entry of `IGNORE_VIOLATIONS`: an exempt `(domain, reference)` pair
      or a domain exempt from the check altogether. */
  datatype Ignored = Pair(domain: string, ref: string) | Whole(domain: string)

  const IGNORE_VIOLATIONS: set<Ignored> := {
    Pair("sql", "recorder"),
    Pair("openalpr_cloud", "openalpr_local"),
    Pair("lutron_caseta", "lutron"),
    Pair("ffmpeg_noise", "ffmpeg_motion"),
    Pair("demo", "manual"),
    Pair("demo", "openalpr_local"),
    Pair("websocket_api", "devcon"),
    Pair("websocket_api", "shopping_list"),
    Whole("homekit"), Whole("alexa"), Whole("google_assistant"), Whole("emulated_hue"),
    Whole("prometheus"), Whole("conversation"), Whole("logbook"), Whole("mobile_app"),
    Whole("pvoutput"), Whole("dwd_weather_warnings")
  }

  function ToSet(s: seq<string>): set<string> {
    set x | x in s
  }

  /** Some key of `checks` is in the manifest. */
  predicate AnyIn(checks: seq<string>, manifest: Manifest) {
    exists check :: check in checks && check in manifest
  }

  /** The references an integration may make: the always-allowed ones, its
      dependencies and after-dependencies, and every discovery integration
      one of whose keys its manifest has. `discovery` stands for
      `DISCOVERY_INTEGRATIONS`, as its items. */
  function Allowed(manifest: Manifest, discovery: seq<(string, seq<string>)>): set<string>
    requires "dependencies" in manifest
  {
    ALLOWED_USED_COMPONENTS
    + ToSet(manifest["dependencies"])
    + ToSet(if "after_dependencies" in manifest then manifest["after_dependencies"] else [])
    + set i | 0 <= i < |discovery| && AnyIn(discovery[i].1, manifest) :: discovery[i].0
  }

  /** `calc_allowed_references`. */
  method CalcAllowedReferences(manifest: Manifest, discovery: seq<(string, seq<string>)>)
    returns (allowed: set<string>)
    requires "dependencies" in manifest
    ensures allowed == Allowed(manifest, discovery)
  {
    var after := if "after_dependencies" in manifest then manifest["after_dependencies"] else [];
    allowed := ALLOWED_USED_COMPONENTS + ToSet(manifest["dependencies"]) + ToSet(after);
    ghost var base := allowed;
    var i := 0;
    while i < |discovery|
      invariant 0 <= i <= |discovery|
      invariant allowed == base + set j | 0 <= j < i && AnyIn(discovery[j].1, manifest) :: discovery[j].0
    {
      var (checkDomain, toCheck) := discovery[i];
      if AnyIn(toCheck, manifest) {
        allowed := allowed + {checkDomain};
      }
      i := i + 1;
    }
  }

  /** The name a referencing file is filed under: a top-level file by its
      stem, a file in a subdirectory by that directory. */
  function FileDir(path: Path): string {
    if |path| == 1 then Stem(path[0]) else path[0]
  }

  /** What an integration's directory looks like to the linter. */
  datatype Layout = Layout(domain: string, files: set<string>, dirs: set<string>)

  /** A reference from file `path` is a violation unless it is the
      integration itself, allowed, a whitelisted pair, the other
      integration a platform file belongs to, or (for its own files) a
      platform the integration has as a file or a directory. */
  predicate IsViolation(layout: Layout, allowed: set<string>, known: set<string>, path: Path, ref: string) {
    var dir := FileDir(path);
    var isPlatformOtherIntegration := dir in known;
    && ref != layout.domain
    && ref !in allowed
    && Pair(layout.domain, ref) !in IGNORE_VIOLATIONS
    && !(isPlatformOtherIntegration && dir == ref)
    && !(!isPlatformOtherIntegration && (ref + ".py" in layout.files || ref in layout.dirs))
  }

  function Violations(layout: Layout, allowed: set<string>, known: set<string>,
                      references: map<Path, set<string>>): set<string>
  {
    set p, ref | p in references && ref in references[p] && IsViolation(layout, allowed, known, p, ref) :: ref
  }

  function ViolationsIn(layout: Layout, allowed: set<string>, known: set<string>,
                        references: map<Path, set<string>>, paths: set<Path>): set<string>
  {
    set p, ref | p in paths && p in references && ref in references[p] &&
                 IsViolation(layout, allowed, known, p, ref) :: ref
  }

  /** The violations are references of some file, and never the
      integration itself, an allowed reference or a whitelisted pair. */
  lemma ViolationsBounds(layout: Layout, allowed: set<string>, known: set<string>,
                         references: map<Path, set<string>>)
    ensures forall v :: v in Violations(layout, allowed, known, references) ==>
      && (exists p :: p in references && v in references[p])
      && v != layout.domain
      && v !in allowed
      && Pair(layout.domain, v) !in IGNORE_VIOLATIONS
  {
  }

  /** A reference to the integration a top-level platform file is named
      after is never a violation; nor, from the integration's own files,
      a reference to one of its platform files or directories. */
  lemma PlatformExemptions(layout: Layout, allowed: set<string>, known: set<string>,
                           path: Path, ref: string)
    ensures FileDir(path) in known && FileDir(path) == ref ==>
      !IsViolation(layout, allowed, known, path, ref)
    ensures FileDir(path) !in known && (ref + ".py" in layout.files || ref in layout.dirs) ==>
      !IsViolation(layout, allowed, known, path, ref)
  {
  }

  /** `find_non_referenced_integrations`; `known` is the set of all
      integration domains. */
  method FindNonReferenced(known: set<string>, layout: Layout, manifest: Manifest,
                           discovery: seq<(string, seq<string>)>, references: map<Path, set<string>>)
    returns (referenced: set<string>)
    requires "dependencies" in manifest
    ensures referenced == Violations(layout, Allowed(manifest, discovery), known, references)
  {
    var allowed := CalcAllowedReferences(manifest, discovery);
    referenced := {};
    var todo := references.Keys;
    while todo != {}
      invariant todo <= references.Keys
      invariant referenced == ViolationsIn(layout, allowed, known, references, references.Keys - todo)
      decreases |todo|
    {
      var path :| path in todo;
      var found := FileViolations(known, layout, allowed, path, references[path]);
      ghost var done := references.Keys - todo;
      assert referenced + found == ViolationsIn(layout, allowed, known, references, done + {path}) by {
        ViolationsInAdd(layout, allowed, known, references, done, path);
      }
      referenced := referenced + found;
      todo := todo - {path};
      assert references.Keys - todo == done + {path};
    }
    assert references.Keys - todo == references.Keys;
  }

  /** The inner loop of `find_non_referenced_integrations`, over the
      references of one file. */
  method FileViolations(known: set<string>, layout: Layout, allowed: set<string>,
                        path: Path, refs: set<string>)
    returns (found: set<string>)
    ensures found == set ref | ref in refs && IsViolation(layout, allowed, known, path, ref)
  {
    var curFilDir := FileDir(path);
    var isPlatformOtherIntegration := curFilDir in known;
    found := {};
    var todo := refs;
    while todo != {}
      invariant todo <= refs
      invariant found == set ref | ref in refs && ref !in todo && IsViolation(layout, allowed, known, path, ref)
      decreases |todo|
    {
      var ref :| ref in todo;
      todo := todo - {ref};
      if ref == layout.domain {
        continue;
      }
      if ref in allowed {
        continue;
      }
      if Pair(layout.domain, ref) in IGNORE_VIOLATIONS {
        continue;
      }
      if isPlatformOtherIntegration && curFilDir == ref {
        continue;
      }
      if !isPlatformOtherIntegration && (ref + ".py" in layout.files || ref in layout.dirs) {
        continue;
      }
      found := found + {ref};
    }
  }

  lemma ViolationsInAdd(layout: Layout, allowed: set<string>, known: set<string>,
                        references: map<Path, set<string>>, paths: set<Path>, path: Path)
    requires path in references
    ensures ViolationsIn(layout, allowed, known, references, paths + {path}) ==
      ViolationsIn(layout, allowed, known, references, paths) +
      set ref | ref in references[path] && IsViolation(layout, allowed, known, path, ref)
  {
  }

  // ---------------------------------------------------------------------
  // Errors.

  /** An error recorded on an integration: the plugin that found it and
      its message. */
  datatype Error = Error(plugin: string, message: string)

  function UsingError(domain: string): Error {
    Error("dependencies", "Using component " + domain +
                          " but it's not in 'dependencies' or 'after_dependencies'")
  }

  function MissingError(dep: string): Error {
    Error("dependencies", "Dependency " + dep + " does not exist")
  }

  /** The errors `validate_dependencies` adds, in order. */
  function UsingErrors(domains: seq<string>): (r: seq<Error>)
    ensures |r| == |domains|
    ensures forall k :: 0 <= k < |r| ==> r[k] == UsingError(domains[k])
  {
    if domains == [] then [] else [UsingError(domains[0])] + UsingErrors(domains[1..])
  }

  /** The errors `validate` adds for dependencies that are no integration. */
  function MissingErrors(deps: seq<string>, known: set<string>): seq<Error> {
    if deps == [] then []
    else (if deps[0] in known then [] else [MissingError(deps[0])]) + MissingErrors(deps[1..], known)
  }

  /** Each listed dependency that is no integration gets exactly one error,
      and nothing else does. */
  lemma MissingErrorsMeaning(deps: seq<string>, known: set<string>)
    ensures forall e :: e in MissingErrors(deps, known) <==>
      exists dep :: dep in deps && dep !in known && e == MissingError(dep)
    ensures (forall dep :: dep in deps ==> dep in known) ==> MissingErrors(deps, known) == []
  {
    if deps != [] {
      MissingErrorsMeaning(deps[1..], known);
      forall e | e in MissingErrors(deps, known)
        ensures exists dep :: dep in deps && dep !in known && e == MissingError(dep)
      {
        if e in MissingErrors(deps[1..], known) {
          var dep :| dep in deps[1..] && dep !in known && e == MissingError(dep);
          assert dep in deps;
        } else {
          assert e == MissingError(deps[0]);
        }
      }
      forall dep | dep in deps && dep !in known
        ensures MissingError(dep) in MissingErrors(deps, known)
      {
        if dep != deps[0] {
          assert dep in deps[1..];
        }
      }
    }
  }

  /** An integration as the validator sees it: its domain, its manifest,
      its top-level files and directories, its Python files already
      parsed, and the errors found so far. */
  class Integration {
    const domain: string
    const manifest: Manifest
    const files: set<string>
    const dirs: set<string>
    const sources: seq<(Path, Ast)>
    var errors: seq<Error>

    constructor(domain: string, manifest: Manifest, files: set<string>, dirs: set<string>,
                sources: seq<(Path, Ast)>)
      ensures this.domain == domain && this.manifest == manifest && this.files == files
      ensures this.dirs == dirs && this.sources == sources && errors == []
    {
      this.domain := domain;
      this.manifest := manifest;
      this.files := files;
      this.dirs := dirs;
      this.sources := sources;
      errors := [];
    }

    function Shape(): Layout {
      Layout(domain, files, dirs)
    }

    /** `add_error`. */
    method AddError(plugin: string, message: string)
      modifies this
      ensures errors == old(errors) + [Error(plugin, message)]
    {
      errors := errors + [Error(plugin, message)];
    }
  }

  /** The violations of an integration: the references its files make that
      nothing exempts. */
  function IntegrationViolations(known: set<string>, integration: Integration,
                                 discovery: seq<(string, seq<string>)>): set<string>
    requires "dependencies" in integration.manifest
  {
    Violations(integration.Shape(), Allowed(integration.manifest, discovery), known,
               Collected(map[], integration.sources))
  }

  /** `validate_dependencies`: nothing for a domain whitelisted as a whole,
      else one error per violation in sorted order. */
  method ValidateDependencies(known: set<string>, integration: Integration,
                              discovery: seq<(string, seq<string>)>)
    requires "dependencies" in integration.manifest
    modifies integration
    ensures Whole(integration.domain) in IGNORE_VIOLATIONS ==> integration.errors == old(integration.errors)
    ensures Whole(integration.domain) !in IGNORE_VIOLATIONS ==>
      integration.errors == old(integration.errors) +
        UsingErrors(SortedSet(IntegrationViolations(known, integration, discovery)))
  {
    if Whole(integration.domain) in IGNORE_VIOLATIONS {
      return;
    }
    var collector := new ImportCollector();
    collector.Collect(integration.sources);
    var violations := FindNonReferenced(known, integration.Shape(), integration.manifest, discovery,
                                        collector.referenced);
    var domains := Sorted(violations);
    SortedIsSortedSet(domains, violations);
    AddUsingErrors(integration, domains);
  }

  /** The loop of `validate_dependencies` over the sorted violations. */
  method AddUsingErrors(integration: Integration, domains: seq<string>)
    modifies integration
    ensures integration.errors == old(integration.errors) + UsingErrors(domains)
  {
    var i := 0;
    while i < |domains|
      invariant 0 <= i <= |domains|
      invariant integration.errors == old(integration.errors) + UsingErrors(domains[..i])
    {
      integration.AddError("dependencies", "Using component " + domains[i] +
                                           " but it's not in 'dependencies' or 'after_dependencies'");
      UsingErrorsSnoc(domains, i);
      i := i + 1;
    }
    assert domains[..i] == domains;
  }

  lemma UsingErrorsSnoc(domains: seq<string>, i: nat)
    requires i < |domains|
    ensures UsingErrors(domains[..i + 1]) == UsingErrors(domains[..i]) + [UsingError(domains[i])]
  {
  }

  /** `validate`, over the integrations in iteration order: an integration
      with an empty manifest is skipped; any other gets its dependency
      violations, then one error per dependency that is no integration. */
  method Validate(integrations: map<string, Integration>, order: seq<string>,
                  discovery: seq<(string, seq<string>)>)
    requires forall d :: d in order ==> d in integrations
    requires forall d :: d in integrations ==> d in order
    requires forall i, j :: 0 <= i < j < |order| ==> order[i] != order[j]
    requires forall i, j :: 0 <= i < j < |order| ==> integrations[order[i]] != integrations[order[j]]
    requires forall d :: d in order && integrations[d].manifest != map[] ==>
      "dependencies" in integrations[d].manifest
    modifies set d | d in integrations :: integrations[d]
    ensures forall i :: 0 <= i < |order| ==>
      var integration := integrations[order[i]];
      integration.errors == old(integration.errors) + ValidateErrors(integrations.Keys, integration, discovery)
  {
    var i := 0;
    while i < |order|
      invariant 0 <= i <= |order|
      invariant forall j :: 0 <= j < i ==>
        var integration := integrations[order[j]];
        integration.errors == old(integration.errors) + ValidateErrors(integrations.Keys, integration, discovery)
      invariant forall j :: i <= j < |order| ==>
        integrations[order[j]].errors == old(integrations[order[j]].errors)
    {
      var current := integrations[order[i]];
      ValidateIntegration(integrations.Keys, current, discovery);
      forall j | 0 <= j < |order| && j != i
        ensures integrations[order[j]] != current
      {
        if j < i { assert integrations[order[j]] != integrations[order[i]]; }
        else { assert integrations[order[i]] != integrations[order[j]]; }
      }
      i := i + 1;
    }
  }

  /** One round of the loop of `validate`. */
  method ValidateIntegration(known: set<string>, integration: Integration,
                             discovery: seq<(string, seq<string>)>)
    requires integration.manifest != map[] ==> "dependencies" in integration.manifest
    modifies integration
    ensures integration.errors == old(integration.errors) + ValidateErrors(known, integration, discovery)
  {
    if integration.manifest == map[] {
      return;
    }
    ghost var before := integration.errors;
    ghost var using := if Whole(integration.domain) in IGNORE_VIOLATIONS then []
      else UsingErrors(SortedSet(IntegrationViolations(known, integration, discovery)));
    ghost var missing := MissingErrors(integration.manifest["dependencies"], known);
    ValidateDependencies(known, integration, discovery);
    assert integration.errors == before + using;
    AddMissingErrors(known, integration, integration.manifest["dependencies"]);
    assert integration.errors == before + using + missing;
    assert ValidateErrors(known, integration, discovery) == using + missing;
    ConcatAssoc(before, using, missing);
  }

  lemma ConcatAssoc<T>(a: seq<T>, b: seq<T>, c: seq<T>)
    ensures a + b + c == a + (b + c)
  {
  }

  /** The loop of `validate` over an integration's dependencies. */
  method AddMissingErrors(known: set<string>, integration: Integration, deps: seq<string>)
    modifies integration
    ensures integration.errors == old(integration.errors) + MissingErrors(deps, known)
  {
    var k := 0;
    while k < |deps|
      invariant 0 <= k <= |deps|
      invariant integration.errors == old(integration.errors) + MissingErrors(deps[..k], known)
    {
      MissingErrorsSnoc(deps, k, known);
      if deps[k] !in known {
        integration.AddError("dependencies", "Dependency " + deps[k] + " does not exist");
      }
      k := k + 1;
    }
    assert deps[..k] == deps;
  }

  ghost function ValidateErrors(known: set<string>, integration: Integration,
                          discovery: seq<(string, seq<string>)>): seq<Error>
    requires integration.manifest != map[] ==> "dependencies" in integration.manifest
  {
    if integration.manifest == map[] then []
    else
      (if Whole(integration.domain) in IGNORE_VIOLATIONS then []
       else UsingErrors(SortedSet(IntegrationViolations(known, integration, discovery))))
      + MissingErrors(integration.manifest["dependencies"], known)
  }

  lemma MissingErrorsSnoc(deps: seq<string>, k: nat, known: set<string>)
    requires k < |deps|
    ensures MissingErrors(deps[..k + 1], known) ==
      MissingErrors(deps[..k], known) + (if deps[k] in known then [] else [MissingError(deps[k])])
  {
    assert deps[..k + 1] == deps[..k] + [deps[k]];
    MissingErrorsAppend(deps[..k], [deps[k]], known);
  }

  lemma {:induction false} MissingErrorsAppend(a: seq<string>, b: seq<string>, known: set<string>)
    ensures MissingErrors(a + b, known) == MissingErrors(a, known) + MissingErrors(b, known)
    decreases |a|
  {
    if a == [] {
      assert a + b == b;
    } else {
      assert (a + b)[1..] == a[1..] + b;
      MissingErrorsAppend(a[1..], b, known);
    }
  }

  // ---------------------------------------------------------------------
  // `sorted` as a function.

  /** The least element of a non-empty set of strings. */
  ghost function Min(s: set<string>): (m: string)
    requires s != {}
    ensures m in s && forall y :: y in s && y != m ==> StrLess(m, y)
  {
    MinExists(s);
    var m :| m in s && forall y :: y in s && y != m ==> StrLess(m, y);
    m
  }

  lemma {:induction false} MinExists(s: set<string>)
    requires s != {}
    ensures exists m :: m in s && forall y :: y in s && y != m ==> StrLess(m, y)
    decreases |s|
  {
    var x :| x in s;
    if s != {x} {
      MinExists(s - {x});
      var m :| m in s - {x} && forall y :: y in s - {x} && y != m ==> StrLess(m, y);
      if StrLess(x, m) {
        forall y | y in s && y != x ensures StrLess(x, y) {
          if y != m { StrLessTransitive(x, m, y); }
        }
      } else {
        StrLessTotal(x, m);
        assert m in s && forall y :: y in s && y != m ==> StrLess(m, y);
      }
    }
  }

  /** `sorted(s)`: the elements of `s` in increasing order. */
  ghost function SortedSet(s: set<string>): (r: seq<string>)
    ensures StrictlySorted(r) && |r| == |s|
    ensures forall x :: x in r <==> x in s
    decreases |s|
  {
    if s == {} then []
    else
      var m := Min(s);
      var rest := SortedSet(s - {m});
      assert forall j :: 0 <= j < |rest| ==> StrLess(m, rest[j]) by {
        forall j | 0 <= j < |rest| ensures StrLess(m, rest[j]) {
          assert rest[j] in s - {m};
        }
      }
      [m] + rest
  }

  /** A strictly sorted list of exactly the elements of `s` is `sorted(s)`. */
  lemma {:induction false} SortedIsSortedSet(r: seq<string>, s: set<string>)
    requires StrictlySorted(r) && forall x :: x in r <==> x in s
    ensures r == SortedSet(s)
    decreases |r|
  {
    var t := SortedSet(s);
    if r == [] {
      assert s == {};
    } else {
      assert r[0] in s;
      var m := Min(s);
      assert r[0] == m by {
        if r[0] != m {
          var j :| 0 <= j < |r| && r[j] == m;
          assert StrLess(m, r[0]);
          assert j != 0;
          assert StrLess(r[0], r[j]);
          StrLessAsymmetric(r[0], m);
        }
      }
      forall x ensures x in r[1..] <==> x in s - {m} {
        if x in r[1..] {
          var j :| 1 <= j < |r| && r[j] == x;
          assert StrLess(r[0], r[j]);
          StrLessIrreflexive(x);
        }
        if x in s - {m} {
          var j :| 0 <= j < |r| && r[j] == x;
          assert j != 0;
          assert r[j] == r[1..][j - 1];
        }
      }
      SortedIsSortedSet(r[1..], s - {m});
      assert r == [m] + r[1..];
    }
  }
}
