/**
 * The engine reads three tables with ordinary property accesses:
 * `BROWSER_LAUNCHERS[name]`, `devices[name]` and `IN_APP_UA_STRINGS[key]`.
 * An ordinary read also finds the members every plain object inherits
 * (`constructor`, `__proto__`, `toString`, ...), and they are truthy, so
 * the "unknown, skipping" guards let them through:
 *
 * - an inherited engine name reaches `browserConfig.launcher.launch`, which
 *   throws outside the retry executor and aborts the whole run;
 * - an inherited device name is a function or `Object.prototype` without
 *   `isMobile`, so it is classified desktop, passes the compatibility filter
 *   and is captured with a default context;
 * - an inherited identity key has no `engine`, the launcher read yields
 *   `undefined`, and reading its `label` aborts the whole run.
 *
 * This module models the loops as written. The rest of the model uses
 * own-property reads (`Browsers.Lookup`, map membership for the catalog),
 * under which such names are skipped like any unknown one.
 */
module Findings {
  import opened Wrappers
  import opened Strings
  import opened Browsers
  import opened Matrix
  import opened Spoof
  import opened CaptureEngine

  /** The members a plain object inherits from `Object.prototype`. */
  const InheritedNames: set<string> := {
    "constructor", "__proto__", "hasOwnProperty", "isPrototypeOf", "propertyIsEnumerable",
    "toLocaleString", "toString", "valueOf",
    "__defineGetter__", "__defineSetter__", "__lookupGetter__", "__lookupSetter__"
  }

  /** What an ordinary property read yields. */
  datatype Property<V> = Own(value: V) | Inherited(name: string) | Absent

  /** An ordinary read of a table kept as an ordered key/value list. */
  function PropertyRead<V>(entries: seq<(string, V)>, key: string): (p: Property<V>)
    ensures p.Absent? <==> Lookup(entries, key).None? && key !in InheritedNames
    ensures p.Own? <==> Lookup(entries, key).Some?
    ensures p.Own? ==> p.value == Lookup(entries, key).value
  {
    match Lookup(entries, key)
    case Some(v) => Own(v)
    case None => if key in InheritedNames then Inherited(key) else Absent
  }

  /** `devices[name]`: an ordinary read of the device catalog. */
  function CatalogRead(catalog: Catalog, name: string): (p: Property<Device>)
    ensures p.Own? <==> name in catalog
    ensures p.Absent? <==> name !in catalog && name !in InheritedNames
    ensures p.Own? ==> p.value == catalog[name]
  {
    if name in catalog then Own(catalog[name])
    else if name in InheritedNames then Inherited(name)
    else Absent
  }

  /** How a run aborts: calling `launch` of the `undefined` launcher of an
      inherited engine name, or reading `label` of the `undefined` launcher
      an inherited identity key leads to. */
  datatype RunError = LaunchOfUndefined(engine: string) | LabelOfUndefined(key: string)

  // ---------------------------------------------------------------------
  // The standard matrix as written
  // ---------------------------------------------------------------------

  /** A planned standard capture: the engine, the device name and the
      platform the loop classifies the device as. */
  datatype Planned = Planned(engine: string, deviceName: string, platform: Platform)

  /** What the loop as written plans for each corrected combination. */
  function Project(plan: seq<Combo>): (r: seq<Planned>)
    ensures |r| == |plan|
    ensures forall k :: 0 <= k < |plan| ==> r[k] == Planned(plan[k].engine, plan[k].deviceName, plan[k].platform)
  {
    seq(|plan|, k requires 0 <= k < |plan| => Planned(plan[k].engine, plan[k].deviceName, plan[k].platform))
  }

  /** The inner loop as written: an inherited device has no `isMobile`, so
      it is classified desktop, which every engine accepts. */
  function DeviceLoopAsWritten(engine: string, names: seq<string>, catalog: Catalog): (plan: seq<Planned>)
    ensures |plan| <= |names|
    ensures forall k :: 0 <= k < |plan| ==>
              && plan[k].engine == engine && plan[k].deviceName in names
              && (plan[k].deviceName in catalog || plan[k].deviceName in InheritedNames)
    ensures forall k :: 0 <= k < |plan| && plan[k].deviceName in catalog ==>
              Compatible(engine, catalog[plan[k].deviceName]) && plan[k].platform == GetPlatform(catalog[plan[k].deviceName])
    ensures forall k :: 0 <= k < |plan| && plan[k].deviceName !in catalog ==> plan[k].platform == Desktop
  {
    if |names| == 0 then []
    else
      var rest := DeviceLoopAsWritten(engine, names[1..], catalog);
      match CatalogRead(catalog, names[0])
      case Absent => rest
      case Inherited(_) => [Planned(engine, names[0], Desktop)] + rest
      case Own(d) => if Compatible(engine, d) then [Planned(engine, names[0], GetPlatform(d))] + rest else rest
  }

  /** The outer loop as written: an inherited engine name passes the skip
      and its launch throws, which rejects the whole run. */
  function PlanAsWritten(engines: seq<string>, names: seq<string>, catalog: Catalog): (r: Result<seq<Planned>, RunError>)
    ensures r.Failure? ==> r.error.LaunchOfUndefined? && r.error.engine in engines && r.error.engine in InheritedNames
    ensures r.Success? ==> forall k :: 0 <= k < |r.value| ==>
              r.value[k].engine in engines && LauncherLabel(r.value[k].engine).Some? && r.value[k].deviceName in names
  {
    if |engines| == 0 then Success([])
    else match PropertyRead(BrowserLaunchers(), engines[0])
      case Absent => PlanAsWritten(engines[1..], names, catalog)
      case Inherited(_) => Failure(LaunchOfUndefined(engines[0]))
      case Own(_) =>
        (match PlanAsWritten(engines[1..], names, catalog)
         case Success(rest) => Success(DeviceLoopAsWritten(engines[0], names, catalog) + rest)
         case Failure(e) => Failure(e))
  }

  /** No launcher name is an inherited member. */
  lemma LaunchersAreOwn(name: string)
    requires name in InheritedNames
    ensures LauncherLabel(name).None?
  {
  }

  /** The loop as written aborts exactly when some requested engine names an
      inherited member. */
  lemma {:induction false} PlanAsWrittenAborts(engines: seq<string>, names: seq<string>, catalog: Catalog)
    ensures PlanAsWritten(engines, names, catalog).Failure? <==>
              exists k :: 0 <= k < |engines| && engines[k] in InheritedNames
  {
    if |engines| > 0 {
      PlanAsWrittenAborts(engines[1..], names, catalog);
      if engines[0] in InheritedNames {
        LaunchersAreOwn(engines[0]);
      }
      if k :| 0 <= k < |engines| && engines[k] in InheritedNames {
        if k > 0 {
          assert engines[1..][k - 1] == engines[k];
        }
      }
      if k :| 0 <= k < |engines[1..]| && engines[1..][k] in InheritedNames {
        assert engines[k + 1] == engines[1..][k];
      }
    }
  }

  /** Projecting a concatenation projects each part. */
  lemma ProjectAppend(a: seq<Combo>, b: seq<Combo>)
    ensures Project(a + b) == Project(a) + Project(b)
  {
  }

  /** Without inherited device names missing from the catalog, the inner
      loop as written plans what the corrected one does. */
  lemma {:induction false} DeviceLoopAgrees(engine: string, names: seq<string>, catalog: Catalog)
    requires LauncherLabel(engine).Some?
    requires forall j :: 0 <= j < |names| ==> names[j] in catalog || names[j] !in InheritedNames
    ensures DeviceLoopAsWritten(engine, names, catalog) == Project(DeviceLoop(engine, names, catalog))
  {
    if |names| > 0 {
      assert forall j :: 0 <= j < |names[1..]| ==> names[1..][j] == names[j + 1];
      DeviceLoopAgrees(engine, names[1..], catalog);
      var rest := DeviceLoop(engine, names[1..], catalog);
      var first := Admit(engine, names[0], catalog);
      assert DeviceLoop(engine, names, catalog) == (if first.Some? then [first.value] + rest else rest);
      if first.Some? {
        assert CatalogRead(catalog, names[0]) == Own(catalog[names[0]]);
        ProjectAppend([first.value], rest);
      } else {
        assert CatalogRead(catalog, names[0]).Absent? || !Compatible(engine, catalog[names[0]]);
      }
    }
  }

  /** Without inherited engine names, and without inherited device names
      missing from the catalog, the loop as written plans exactly what the
      corrected loop plans, in the same order. */
  lemma {:induction false} PlanAsWrittenAgrees(engines: seq<string>, names: seq<string>, catalog: Catalog)
    requires forall k :: 0 <= k < |engines| ==> engines[k] !in InheritedNames
    requires forall j :: 0 <= j < |names| ==> names[j] in catalog || names[j] !in InheritedNames
    ensures PlanAsWritten(engines, names, catalog) == Success(Project(StandardPlan(engines, names, catalog)))
  {
    if |engines| > 0 {
      assert forall k :: 0 <= k < |engines[1..]| ==> engines[1..][k] == engines[k + 1];
      PlanAsWrittenAgrees(engines[1..], names, catalog);
      var rest := StandardPlan(engines[1..], names, catalog);
      if LauncherLabel(engines[0]).Some? {
        DeviceLoopAgrees(engines[0], names, catalog);
        var row := DeviceLoop(engines[0], names, catalog);
        assert StandardPlan(engines, names, catalog) == row + rest;
        ProjectAppend(row, rest);
      } else {
        assert PropertyRead(BrowserLaunchers(), engines[0]).Absent?;
      }
    }
  }

  /** `--browsers constructor`: the launcher read finds the inherited
      constructor and the run aborts. */
  lemma ConstructorEngineAbortsTheRun(names: seq<string>, catalog: Catalog)
    ensures PlanAsWritten(["constructor"], names, catalog) == Failure(LaunchOfUndefined("constructor"))
  {
    LaunchersAreOwn("constructor");
  }

  /** Corrected: `--browsers constructor` is skipped like any unknown engine;
      with no identities nothing is requested and the run returns an empty
      list. */
  lemma ConstructorEngineIsSkipped(cfg: Config, reg: Registry, catalog: Catalog, runs: seq<seq<DriverStep>>)
    requires cfg.url.Some? && cfg.url.value != "" && cfg.output.Some?
    requires cfg.browsers == ["constructor"] && cfg.uaSpoof == []
    requires ValidRegistry(reg) && CatalogCovers(reg, catalog) && runs == []
    ensures Requests(cfg, reg, catalog) == []
    ensures CaptureScreenshots(cfg, reg, catalog, runs) == Success([])
  {
    LaunchersAreOwn("constructor");
    assert StandardPlan(cfg.browsers, cfg.devices, catalog) == [];
  }

  /** `--devices constructor` with Chromium: the catalog read finds the
      inherited constructor and the loop plans a desktop capture of it. */
  lemma ConstructorDeviceIsCaptured(catalog: Catalog)
    requires "constructor" !in catalog
    ensures PlanAsWritten(["chromium"], ["constructor"], catalog) == Success([Planned("chromium", "constructor", Desktop)])
  {
    assert CatalogRead(catalog, "constructor") == Inherited("constructor");
    assert DeviceLoopAsWritten("chromium", ["constructor"], catalog) == [Planned("chromium", "constructor", Desktop)];
  }

  /** Corrected: a device name missing from the catalog is skipped, whatever
      its name. */
  lemma ConstructorDeviceIsSkipped(catalog: Catalog)
    requires "constructor" !in catalog
    ensures StandardPlan(["chromium"], ["constructor"], catalog) == []
  {
    assert DeviceLoop("chromium", ["constructor"], catalog) == [];
  }

  // ---------------------------------------------------------------------
  // The identity loop as written
  // ---------------------------------------------------------------------

  /** The identity loop for the keys of one requested key, as written:
      falsy reads are skipped, own entries are captured, an inherited member
      throws. */
  function LookupAllAsWritten(reg: Registry, ks: seq<string>): (r: Result<seq<(string, InApp)>, RunError>)
    ensures r.Failure? ==> r.error.LabelOfUndefined? && r.error.key in ks && r.error.key in InheritedNames
                           && Lookup(reg, r.error.key).None?
    ensures r.Success? ==> forall e :: e in r.value ==> e.0 in ks && Lookup(reg, e.0) == Some(e.1)
  {
    if |ks| == 0 then Success([])
    else match PropertyRead(reg, ks[0])
      case Absent => LookupAllAsWritten(reg, ks[1..])
      case Own(p) =>
        (match LookupAllAsWritten(reg, ks[1..])
         case Success(rest) => Success([(ks[0], p)] + rest)
         case Failure(e) => Failure(e))
      case Inherited(_) => Failure(LabelOfUndefined(ks[0]))
  }

  function ResolveKeyAsWritten(reg: Registry, key: string): Result<seq<(string, InApp)>, RunError>
  {
    LookupAllAsWritten(reg, KeysToUse(reg, key))
  }

  /** The lookup as written throws exactly when some key to use names an
      inherited member the registry does not define itself; otherwise it
      agrees with the own-property lookup. */
  lemma {:induction false} AsWrittenThrowsOnlyOnInherited(reg: Registry, ks: seq<string>)
    ensures LookupAllAsWritten(reg, ks).Failure? <==>
              exists k :: k in ks && k in InheritedNames && Lookup(reg, k).None?
    ensures LookupAllAsWritten(reg, ks).Success? ==> LookupAllAsWritten(reg, ks).value == LookupAll(reg, ks)
  {
    if |ks| > 0 {
      AsWrittenThrowsOnlyOnInherited(reg, ks[1..]);
      assert forall k :: k in ks <==> k == ks[0] || k in ks[1..];
      var rest := LookupAll(reg, ks[1..]);
      assert LookupAll(reg, ks) == (if Lookup(reg, ks[0]).Some? then [(ks[0], Lookup(reg, ks[0]).value)] + rest else rest);
    }
  }

  /** `--ua-spoof constructor`: no registry key contains the text, so the
      key itself is used, and the read finds the inherited constructor:
      the run aborts. */
  lemma ConstructorAbortsTheRun(key: string)
    requires key == "constructor"
    ensures KeysToUse(InAppRegistry(), key) == [key]
    ensures ResolveKeyAsWritten(InAppRegistry(), key) == Failure(LabelOfUndefined(key))
  {
    RegistryKeysLack('u');
    NoneMatch(Keys(InAppRegistry()), key, 'u');
    FallbackNeverResolves(InAppRegistry(), key);
    assert key in InheritedNames;
    assert PropertyRead(InAppRegistry(), key) == Inherited(key);
    assert KeysToUse(InAppRegistry(), key) == [key];
  }

  /** Corrected: with the own-property lookup, a key no registry key
      contains resolves to nothing, whatever its name. */
  lemma UnmatchedKeyIsSkipped(reg: Registry, key: string)
    requires MatchingKeys(key, Keys(reg)) == []
    ensures ResolveKey(reg, key) == []
  {
    FallbackNeverResolves(reg, key);
  }

  /** Corrected: `--ua-spoof constructor` resolves to no identity. */
  lemma ConstructorIsSkipped(key: string)
    requires key == "constructor"
    ensures ResolveKey(InAppRegistry(), key) == []
  {
    RegistryKeysLack('u');
    NoneMatch(Keys(InAppRegistry()), key, 'u');
    UnmatchedKeyIsSkipped(InAppRegistry(), key);
  }
}
