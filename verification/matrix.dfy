/**
 * The standard capture matrix: every requested engine against every requested
 * device, engines in the outer loop and devices in the inner loop, skipping
 * unknown names and the combinations the compatibility rule rejects.
 */
module Matrix {
  import opened Wrappers
  import opened Browsers
  import opened Seqs

  /** The compatibility rule. Desktop devices accept every engine; on a
      mobile device WebKit is refused when the platform is Android and
      Firefox is refused always. */
  function Compatible(engine: string, device: Device): (ok: bool)
    ensures !ok <==> device.isMobile && (engine == "firefox" || (engine == "webkit" && device.defaultBrowserType != "webkit"))
  {
    var platform := GetPlatform(device);
    if platform != Desktop then
      !(engine == "webkit" && platform == Android) && !(engine == "firefox" && device.isMobile)
    else true
  }

  /** The rule, stated device-first: a combination is refused exactly when the
      device is mobile and either the engine is Firefox, or the engine is
      WebKit and the device's own engine is not. Chromium is never refused. */
  lemma CompatibleIff(engine: string, device: Device)
    ensures !Compatible(engine, device) <==>
              device.isMobile && (engine == "firefox" || (engine == "webkit" && device.defaultBrowserType != "webkit"))
    ensures GetPlatform(device) == Desktop ==> Compatible(engine, device)
    ensures engine == "chromium" ==> Compatible(engine, device)
    ensures device.isMobile ==> !Compatible("firefox", device)
    ensures device.isMobile ==> (Compatible("webkit", device) <==> GetPlatform(device) == Ios)
  {
  }

  /** One attempted standard combination. */
  datatype Combo = Combo(engine: string, deviceName: string, device: Device, platform: Platform)

  /** The decision for one (engine, device name) pair: None when the engine
      has no launcher, the device is not in the catalog or the pair is
      incompatible. */
  function Admit(engine: string, deviceName: string, catalog: Catalog): (c: Option<Combo>)
    ensures c.Some? <==> LauncherLabel(engine).Some? && deviceName in catalog && Compatible(engine, catalog[deviceName])
    ensures c.Some? ==> c.value == Combo(engine, deviceName, catalog[deviceName], GetPlatform(catalog[deviceName]))
  {
    if LauncherLabel(engine).None? then None
    else if deviceName !in catalog then None
    else
      var device := catalog[deviceName];
      if !Compatible(engine, device) then None
      else Some(Combo(engine, deviceName, device, GetPlatform(device)))
  }

  /** A combination the loop may attempt: a launchable engine, a catalog
      device, a platform computed from that device, and a compatible pair. */
  ghost predicate WellFormed(c: Combo, catalog: Catalog)
  {
    && LauncherLabel(c.engine).Some?
    && c.deviceName in catalog
    && c.device == catalog[c.deviceName]
    && c.platform == GetPlatform(c.device)
    && Compatible(c.engine, c.device)
  }

  /** The inner loop over the device names for one known engine. */
  function DeviceLoop(engine: string, deviceNames: seq<string>, catalog: Catalog): (plan: seq<Combo>)
    requires LauncherLabel(engine).Some?
    ensures |plan| <= |deviceNames|
    ensures forall k :: 0 <= k < |plan| ==> WellFormed(plan[k], catalog) && plan[k].engine == engine
  {
    if |deviceNames| == 0 then []
    else
      var first := Admit(engine, deviceNames[0], catalog);
      var rest := DeviceLoop(engine, deviceNames[1..], catalog);
      if first.Some? then [first.value] + rest else rest
  }

  /** The outer loop over the engine names: an unknown engine is skipped
      before its device loop starts. */
  function StandardPlan(engines: seq<string>, deviceNames: seq<string>, catalog: Catalog): (plan: seq<Combo>)
    ensures forall k :: 0 <= k < |plan| ==> WellFormed(plan[k], catalog)
  {
    if |engines| == 0 then []
    else
      var rest := StandardPlan(engines[1..], deviceNames, catalog);
      if LauncherLabel(engines[0]).None? then rest
      else DeviceLoop(engines[0], deviceNames, catalog) + rest
  }

  // Reference definition: the Cartesian product in engine-major order, filtered.

  /** All (engine, device) pairs, engines outer and devices inner, in the
      caller's order. */
  function Candidates(engines: seq<string>, deviceNames: seq<string>): seq<(string, string)>
  {
    Flatten(seq(|engines|, i requires 0 <= i < |engines| =>
      seq(|deviceNames|, j requires 0 <= j < |deviceNames| => (engines[i], deviceNames[j]))))
  }

  /** Keeps the admitted pairs, in order. */
  function FilterAdmitted(pairs: seq<(string, string)>, catalog: Catalog): seq<Combo>
  {
    if |pairs| == 0 then []
    else
      var first := Admit(pairs[0].0, pairs[0].1, catalog);
      var rest := FilterAdmitted(pairs[1..], catalog);
      if first.Some? then [first.value] + rest else rest
  }

  lemma {:induction false} FilterAdmittedAppend(a: seq<(string, string)>, b: seq<(string, string)>, catalog: Catalog)
    ensures FilterAdmitted(a + b, catalog) == FilterAdmitted(a, catalog) + FilterAdmitted(b, catalog)
  {
    if |a| > 0 {
      assert (a + b)[0] == a[0];
      assert (a + b)[1..] == a[1..] + b;
      FilterAdmittedAppend(a[1..], b, catalog);
    } else {
      assert a + b == b;
    }
  }

  /** The device loop of one engine is the filter of its row of pairs; for
      an engine without a launcher that filter is empty. */
  lemma {:induction false} DeviceLoopIsFilteredRow(engine: string, deviceNames: seq<string>, catalog: Catalog)
    ensures var row := seq(|deviceNames|, j requires 0 <= j < |deviceNames| => (engine, deviceNames[j]));
            && (LauncherLabel(engine).Some? ==> DeviceLoop(engine, deviceNames, catalog) == FilterAdmitted(row, catalog))
            && (LauncherLabel(engine).None? ==> FilterAdmitted(row, catalog) == [])
  {
    var row := seq(|deviceNames|, j requires 0 <= j < |deviceNames| => (engine, deviceNames[j]));
    if |deviceNames| > 0 {
      var tail := seq(|deviceNames[1..]|, j requires 0 <= j < |deviceNames[1..]| => (engine, deviceNames[1..][j]));
      assert row[1..] == tail;
      DeviceLoopIsFilteredRow(engine, deviceNames[1..], catalog);
    }
  }

  /** The nested loop attempts exactly the admitted pairs of the Cartesian
      product, in engine-major, device-minor order. */
  lemma {:induction false} PlanIsFilteredProduct(engines: seq<string>, deviceNames: seq<string>, catalog: Catalog)
    ensures StandardPlan(engines, deviceNames, catalog) == FilterAdmitted(Candidates(engines, deviceNames), catalog)
  {
    var rows := seq(|engines|, i requires 0 <= i < |engines| =>
      seq(|deviceNames|, j requires 0 <= j < |deviceNames| => (engines[i], deviceNames[j])));
    if |engines| > 0 {
      var tailRows := seq(|engines[1..]|, i requires 0 <= i < |engines[1..]| =>
        seq(|deviceNames|, j requires 0 <= j < |deviceNames| => (engines[1..][i], deviceNames[j])));
      assert rows[1..] == tailRows;
      assert rows == [rows[0]] + tailRows;
      FlattenAppend([rows[0]], tailRows);
      assert Flatten([rows[0]]) == rows[0] + Flatten([rows[0]][1..]);
      assert Flatten([rows[0]]) == rows[0];
      FilterAdmittedAppend(rows[0], Flatten(tailRows), catalog);
      PlanIsFilteredProduct(engines[1..], deviceNames, catalog);
      DeviceLoopIsFilteredRow(engines[0], deviceNames, catalog);
    }
  }

  /** A combination is attempted exactly when some requested engine and some
      requested device name admit it; nothing else is attempted. */
  lemma PlanMembership(engines: seq<string>, deviceNames: seq<string>, catalog: Catalog, c: Combo)
    ensures c in StandardPlan(engines, deviceNames, catalog) <==>
              exists i, j :: 0 <= i < |engines| && 0 <= j < |deviceNames| && Admit(engines[i], deviceNames[j], catalog) == Some(c)
  {
    PlanIsFilteredProduct(engines, deviceNames, catalog);
    var rows := seq(|engines|, i requires 0 <= i < |engines| =>
      seq(|deviceNames|, j requires 0 <= j < |deviceNames| => (engines[i], deviceNames[j])));
    InFilterAdmitted(Flatten(rows), catalog, c);
    if c in StandardPlan(engines, deviceNames, catalog) {
      var p: (string, string) :| p in Flatten(rows) && Admit(p.0, p.1, catalog) == Some(c);
      InFlatten(rows, p);
      var i, j :| 0 <= i < |rows| && 0 <= j < |rows[i]| && rows[i][j] == p;
      assert Admit(engines[i], deviceNames[j], catalog) == Some(c);
    }
    if i, j :| 0 <= i < |engines| && 0 <= j < |deviceNames| && Admit(engines[i], deviceNames[j], catalog) == Some(c) {
      var p := (engines[i], deviceNames[j]);
      assert rows[i][j] == p;
      InFlatten(rows, p);
    }
  }

  lemma {:induction false} InFilterAdmitted(pairs: seq<(string, string)>, catalog: Catalog, c: Combo)
    ensures c in FilterAdmitted(pairs, catalog) <==> exists p :: p in pairs && Admit(p.0, p.1, catalog) == Some(c)
  {
    if |pairs| > 0 {
      InFilterAdmitted(pairs[1..], catalog, c);
      if p :| p in pairs[1..] && Admit(p.0, p.1, catalog) == Some(c) {
        assert p in pairs;
      }
      if p :| p in pairs && Admit(p.0, p.1, catalog) == Some(c) {
        if p != pairs[0] {
          assert p in pairs[1..];
        }
      }
    }
  }

  /** WebKit requested against an Android-classified device only: the
      single combination is refused and nothing is attempted. */
  lemma WebkitOnAndroidIsEmpty(catalog: Catalog, name: string)
    requires name in catalog && GetPlatform(catalog[name]) == Android
    ensures StandardPlan(["webkit"], [name], catalog) == []
  {
  }

  /** Chromium against a desktop device: exactly one combination, classified desktop. */
  lemma ChromiumOnDesktopIsOne(catalog: Catalog, name: string)
    requires name in catalog && !catalog[name].isMobile
    ensures StandardPlan(["chromium"], [name], catalog) == [Combo("chromium", name, catalog[name], Desktop)]
  {
  }
}
