/**
 * `captureScreenshots`: the standard matrix first, then the in-app
 * identities, each request run through the retry executor, and the result
 * list built from the successful outcomes only.
 *
 * The automation driver is not modelled; what it did on each call of a
 * request's unit of work is an input: `runs[i][k]` is the k-th call for the
 * i-th request, in issue order.
 */
module CaptureEngine {
  import opened Wrappers
  import opened Browsers
  import opened Retry
  import opened Matrix
  import opened Spoof
  import opened Naming

  /** The `type` tag of a result: 'standard' or 'in-app'. */
  datatype Kind = Standard | InAppCapture

  /** One entry of the result list (the unit of work's return value without
      `success`; the absolute file path is not modelled). */
  datatype Entry = Entry(
    browser: string,
    browserEngine: string,
    device: string,
    viewport: Viewport,
    userAgent: string,
    filename: string,
    kind: Kind,
    platform: Platform)

  /** What the browsing context is opened with: the device descriptor, and
      the viewport, user agent and script injection that override it. */
  datatype ContextSpec = ContextSpec(device: Device, viewport: Viewport, userAgent: string, injectEruda: bool)

  /** One capture request: the engine to launch, the context, and the entry
      the unit of work returns when the driver completes. */
  datatype Request = Request(engine: string, context: ContextSpec, entry: Entry)

  /** The merged configuration the engine reads. The output directory is
      None when it is not a string, which `path.resolve` refuses; its value
      and the full-page flag and the settle delay only reach the file system
      and the driver. A width or height of None stands for a falsy
      non-number (`null`, `undefined`, NaN). */
  datatype Config = Config(
    url: Option<string>,
    output: Option<string>,
    browsers: seq<string>,
    devices: seq<string>,
    uaSpoof: seq<string>,
    injectEruda: bool,
    customWidth: Option<int>,
    customHeight: Option<int>)

  /** Why a run stops before any capture: no URL (the process exits), or an
      output directory `path.resolve` throws on. */
  datatype ConfigError = MissingUrl | OutputNotAString

  /** What one call of a unit of work did: the driver completed the capture,
      or some step threw with a message. */
  datatype DriverStep = Captured | Threw(message: string)

  /** JavaScript truthiness of an optional number; None is `null`,
      `undefined` or NaN. */
  predicate Truthy(n: Option<int>)
  {
    n.Some? && n.value != 0
  }

  /** The viewport the context is opened with: a truthy custom width replaces
      the device's viewport, with the custom height or else the device's height. */
  function ContextViewport(device: Device, customWidth: Option<int>, customHeight: Option<int>): (v: Viewport)
    ensures !Truthy(customWidth) ==> v == device.viewport
    ensures Truthy(customWidth) ==> v.width == customWidth.value
    ensures Truthy(customWidth) && Truthy(customHeight) ==> v.height == customHeight.value
    ensures Truthy(customWidth) && !Truthy(customHeight) ==> v.height == device.viewport.height
  {
    if Truthy(customWidth) then
      Viewport(customWidth.value, if Truthy(customHeight) then customHeight.value else device.viewport.height)
    else device.viewport
  }

  /** A standard entry: its tags, viewport and file name follow from the
      catalog device it names. */
  ghost predicate StandardEntry(e: Entry, catalog: Catalog)
  {
    && e.kind == Standard
    && LauncherLabel(e.browserEngine) == Some(e.browser)
    && e.device in catalog
    && Compatible(e.browserEngine, catalog[e.device])
    && e.platform == GetPlatform(catalog[e.device])
    && e.viewport == catalog[e.device].viewport
    && e.userAgent == catalog[e.device].userAgent
    && e.filename == StandardFilename(e.browserEngine, e.device)
  }

  /** An in-app entry: iOS exactly when the engine is WebKit, and the
      viewport of the identity's device. */
  ghost predicate InAppEntry(e: Entry, catalog: Catalog)
  {
    && e.kind == InAppCapture
    && (e.platform == Ios <==> e.browserEngine == "webkit")
    && (e.platform == Android <==> e.browserEngine != "webkit")
    && e.device in catalog
    && e.viewport == catalog[e.device].viewport
  }

  /** The request for one standard combination. */
  function StandardRequest(c: Combo, cfg: Config, catalog: Catalog): (req: Request)
    requires WellFormed(c, catalog)
    ensures StandardEntry(req.entry, catalog)
    ensures req.engine == c.engine && req.context.device == c.device
    ensures req.entry.browserEngine == c.engine && req.entry.device == c.deviceName && req.entry.platform == c.platform
    ensures req.context.viewport == ContextViewport(c.device, cfg.customWidth, cfg.customHeight)
    ensures req.context.userAgent == c.device.userAgent && req.context.injectEruda == cfg.injectEruda
  {
    Request(
      c.engine,
      ContextSpec(c.device, ContextViewport(c.device, cfg.customWidth, cfg.customHeight), c.device.userAgent, cfg.injectEruda),
      Entry(LauncherLabel(c.engine).value, c.engine, c.deviceName, c.device.viewport, c.device.userAgent,
            StandardFilename(c.engine, c.deviceName), Standard, c.platform))
  }

  /** The request for one in-app identity: the identity's user agent on its
      device's own viewport, never a custom viewport or an injected script. */
  function InAppRequest(key: string, inApp: InApp, catalog: Catalog): (req: Request)
    requires inApp.device in catalog
    ensures InAppEntry(req.entry, catalog)
    ensures req.engine == inApp.engine && req.context.device == catalog[inApp.device]
    ensures req.context.viewport == catalog[inApp.device].viewport
    ensures req.context.userAgent == inApp.ua && !req.context.injectEruda
    ensures req.entry.filename == InAppFilename(key) && req.entry.browser == inApp.name
    ensures req.entry.browserEngine == inApp.engine && req.entry.device == inApp.device && req.entry.userAgent == inApp.ua
  {
    var device := catalog[inApp.device];
    Request(
      inApp.engine,
      ContextSpec(device, device.viewport, inApp.ua, false),
      Entry(inApp.name, inApp.engine, inApp.device, device.viewport, inApp.ua,
            InAppFilename(key), InAppCapture, if inApp.engine == "webkit" then Ios else Android))
  }

  /** The requests of the standard matrix, in loop order. */
  function StandardRequests(plan: seq<Combo>, cfg: Config, catalog: Catalog): (reqs: seq<Request>)
    requires forall k :: 0 <= k < |plan| ==> WellFormed(plan[k], catalog)
    ensures |reqs| == |plan|
    ensures forall k :: 0 <= k < |plan| ==> reqs[k] == StandardRequest(plan[k], cfg, catalog)
    ensures forall k :: 0 <= k < |reqs| ==> StandardEntry(reqs[k].entry, catalog)
  {
    seq(|plan|, k requires 0 <= k < |plan| => StandardRequest(plan[k], cfg, catalog))
  }

  /** Every device the registry names is in the catalog. */
  predicate CatalogCovers(reg: Registry, catalog: Catalog)
  {
    forall i :: 0 <= i < |reg| ==> reg[i].1.device in catalog
  }

  /** The requests of the in-app identities, in resolution order. */
  function InAppRequests(found: seq<(string, InApp)>, catalog: Catalog): (reqs: seq<Request>)
    requires forall i :: 0 <= i < |found| ==> found[i].1.device in catalog
    ensures |reqs| == |found|
    ensures forall i :: 0 <= i < |found| ==> reqs[i] == InAppRequest(found[i].0, found[i].1, catalog)
    ensures forall i :: 0 <= i < |reqs| ==> InAppEntry(reqs[i].entry, catalog)
  {
    seq(|found|, i requires 0 <= i < |found| => InAppRequest(found[i].0, found[i].1, catalog))
  }

  /** Each resolved identity comes from the registry, so its device is in a
      covering catalog. */
  lemma ResolvedDevicesCovered(reg: Registry, keys: seq<string>, catalog: Catalog)
    requires CatalogCovers(reg, catalog)
    ensures forall i :: 0 <= i < |ResolveSpoofKeys(reg, keys)| ==> ResolveSpoofKeys(reg, keys)[i].1.device in catalog
  {
    var found := ResolveSpoofKeys(reg, keys);
    forall i | 0 <= i < |found|
      ensures found[i].1.device in catalog
    {
      assert found[i] in found;
      var j :| 0 <= j < |reg| && reg[j] == (found[i].0, found[i].1);
    }
  }

  /** Every request, standard ones first. */
  function Requests(cfg: Config, reg: Registry, catalog: Catalog): (reqs: seq<Request>)
    requires CatalogCovers(reg, catalog)
    ensures |reqs| == |StandardPlan(cfg.browsers, cfg.devices, catalog)| + |ResolveSpoofKeys(reg, cfg.uaSpoof)|
  {
    ResolvedDevicesCovered(reg, cfg.uaSpoof, catalog);
    StandardRequests(StandardPlan(cfg.browsers, cfg.devices, catalog), cfg, catalog)
      + InAppRequests(ResolveSpoofKeys(reg, cfg.uaSpoof), catalog)
  }

  /** The driver's calls for one request, as the unit of work sees them: a
      completed capture returns the request's entry. */
  function ToAttempts(run: seq<DriverStep>, e: Entry): (attempts: seq<Attempt<Entry>>)
    ensures |attempts| == |run|
    ensures forall k :: 0 <= k < |run| ==> (attempts[k].Ok? <==> run[k].Captured?)
    ensures forall k :: 0 <= k < |run| && attempts[k].Ok? ==> attempts[k].data == e
  {
    seq(|run|, k requires 0 <= k < |run| => if run[k].Captured? then Ok(e) else Err(run[k].message))
  }

  /** Every run supplies at least the calls the executor may make. */
  predicate RunsCover(runs: seq<seq<DriverStep>>, n: nat)
  {
    |runs| == n && forall i :: 0 <= i < |runs| ==> |runs[i]| >= MaxRetries
  }

  /** One terminal outcome per request, in issue order. */
  function Outcomes(reqs: seq<Request>, runs: seq<seq<DriverStep>>): (outs: seq<Outcome<Entry>>)
    requires RunsCover(runs, |reqs|)
    ensures |outs| == |reqs|
  {
    seq(|reqs|, i requires 0 <= i < |reqs| => CaptureWithRetry(ToAttempts(runs[i], reqs[i].entry)).outcome)
  }

  /** The data of the successful outcomes, in order, without `success`. */
  function Successes(outs: seq<Outcome<Entry>>): (es: seq<Entry>)
    ensures |es| <= |outs|
  {
    if |outs| == 0 then []
    else if outs[0].Succeeded? then [outs[0].data] + Successes(outs[1..])
    else Successes(outs[1..])
  }

  /** `captureScreenshots`: a missing or empty URL, then an output directory
      that is not a string, stop the run before anything is captured;
      otherwise the successful entries of all requests, standard ones first. */
  function CaptureScreenshots(cfg: Config, reg: Registry, catalog: Catalog, runs: seq<seq<DriverStep>>): (r: Result<seq<Entry>, ConfigError>)
    requires ValidRegistry(reg) && CatalogCovers(reg, catalog)
    requires RunsCover(runs, |Requests(cfg, reg, catalog)|)
    ensures r.Failure? <==> cfg.url.None? || cfg.url.value == "" || cfg.output.None?
    ensures r == Failure(MissingUrl) <==> cfg.url.None? || cfg.url.value == ""
    ensures r.Success? ==> |r.value| <= |Requests(cfg, reg, catalog)|
  {
    if cfg.url.None? || cfg.url.value == "" then Failure(MissingUrl)
    else if cfg.output.None? then Failure(OutputNotAString)
    else Success(Successes(Outcomes(Requests(cfg, reg, catalog), runs)))
  }

  // Properties of the result list.

  /** Some call among the first three completed. */
  predicate RunSucceeds(run: seq<DriverStep>)
    requires |run| >= MaxRetries
  {
    exists k :: 0 <= k < MaxRetries && run[k].Captured?
  }

  /** A request's outcome is a success carrying its entry exactly when one of
      its first three calls completed; otherwise it is a failure carrying the
      third call's message. */
  lemma OutcomeOfRequest(reqs: seq<Request>, runs: seq<seq<DriverStep>>, i: nat)
    requires RunsCover(runs, |reqs|) && i < |reqs|
    ensures Outcomes(reqs, runs)[i].Succeeded? <==> RunSucceeds(runs[i])
    ensures RunSucceeds(runs[i]) ==> Outcomes(reqs, runs)[i] == Succeeded(reqs[i].entry)
    ensures !RunSucceeds(runs[i]) ==> Outcomes(reqs, runs)[i] == Failed(runs[i][MaxRetries - 1].message)
  {
    var attempts := ToAttempts(runs[i], reqs[i].entry);
    SuccessIffSomeAttemptSucceeds(attempts);
    if RunSucceeds(runs[i]) {
      var k :| 0 <= k < MaxRetries && runs[i][k].Captured?;
      assert attempts[k].Ok?;
    }
  }

  /** An entry survives exactly when it is the data of some success. */
  lemma {:induction false} InSuccesses(outs: seq<Outcome<Entry>>, e: Entry)
    ensures e in Successes(outs) <==> exists i :: 0 <= i < |outs| && outs[i] == Succeeded(e)
  {
    if |outs| > 0 {
      InSuccesses(outs[1..], e);
      if i :| 0 <= i < |outs| && outs[i] == Succeeded(e) {
        if i > 0 {
          assert outs[1..][i - 1] == outs[i];
        }
      }
      if i :| 0 <= i < |outs[1..]| && outs[1..][i] == Succeeded(e) {
        assert outs[i + 1] == outs[1..][i];
      }
    }
  }

  lemma {:induction false} SuccessesAppend(a: seq<Outcome<Entry>>, b: seq<Outcome<Entry>>)
    ensures Successes(a + b) == Successes(a) + Successes(b)
  {
    if |a| > 0 {
      assert (a + b)[1..] == a[1..] + b;
      SuccessesAppend(a[1..], b);
    } else {
      assert a + b == b;
    }
  }

  /** The positions of the successful outcomes, in increasing order. */
  function SuccessIndices(outs: seq<Outcome<Entry>>): (idx: seq<nat>)
    ensures forall j :: 0 <= j < |idx| ==> idx[j] < |outs| && outs[idx[j]].Succeeded?
    ensures forall j, j' :: 0 <= j < j' < |idx| ==> idx[j] < idx[j']
    ensures forall k :: 0 <= k < |outs| && outs[k].Succeeded? ==> k in idx
  {
    if |outs| == 0 then []
    else
      var n := |outs| - 1;
      var rest := SuccessIndices(outs[..n]);
      assert forall j :: 0 <= j < |rest| ==> outs[rest[j]] == outs[..n][rest[j]];
      if outs[n].Succeeded? then rest + [n] else rest
  }

  /** The result list is the data of the successful outcomes taken in issue
      order: its j-th entry is the data of the j-th success. */
  lemma {:induction false} SuccessesInOrder(outs: seq<Outcome<Entry>>)
    ensures |Successes(outs)| == |SuccessIndices(outs)|
    ensures forall j :: 0 <= j < |Successes(outs)| ==> Successes(outs)[j] == outs[SuccessIndices(outs)[j]].data
  {
    if |outs| > 0 {
      var n := |outs| - 1;
      var init := outs[..n];
      assert outs == init + [outs[n]];
      SuccessesAppend(init, [outs[n]]);
      SuccessesInOrder(init);
      assert [outs[n]][1..] == [];
      assert Successes([outs[n]]) == if outs[n].Succeeded? then [outs[n].data] else [];
      forall j | 0 <= j < |Successes(outs)|
        ensures Successes(outs)[j] == outs[SuccessIndices(outs)[j]].data
      {
        if j < |Successes(init)| {
          assert outs[SuccessIndices(init)[j]] == init[SuccessIndices(init)[j]];
        }
      }
    }
  }

  /** The result list holds exactly the entries of the requests whose run
      succeeded; failures leave no trace in it. */
  lemma ResultsAreTheSucceededRequests(cfg: Config, reg: Registry, catalog: Catalog, runs: seq<seq<DriverStep>>, e: Entry)
    requires ValidRegistry(reg) && CatalogCovers(reg, catalog)
    requires RunsCover(runs, |Requests(cfg, reg, catalog)|)
    requires CaptureScreenshots(cfg, reg, catalog, runs).Success?
    ensures var reqs := Requests(cfg, reg, catalog);
            e in CaptureScreenshots(cfg, reg, catalog, runs).value <==>
              exists i :: 0 <= i < |reqs| && RunSucceeds(runs[i]) && reqs[i].entry == e
  {
    var reqs := Requests(cfg, reg, catalog);
    var outs := Outcomes(reqs, runs);
    InSuccesses(outs, e);
    if i :| 0 <= i < |outs| && outs[i] == Succeeded(e) {
      OutcomeOfRequest(reqs, runs, i);
    }
    if i :| 0 <= i < |reqs| && RunSucceeds(runs[i]) && reqs[i].entry == e {
      OutcomeOfRequest(reqs, runs, i);
    }
  }

  /** Outcomes of a concatenation of requests, run by the matching slices of runs. */
  lemma OutcomesSplit(a: seq<Request>, b: seq<Request>, runs: seq<seq<DriverStep>>)
    requires RunsCover(runs, |a| + |b|)
    ensures RunsCover(runs[..|a|], |a|) && RunsCover(runs[|a|..], |b|)
    ensures Outcomes(a + b, runs) == Outcomes(a, runs[..|a|]) + Outcomes(b, runs[|a|..])
  {
  }

  /** The successful standard entries: the standard requests of the plan,
      run by the first runs, in plan order. */
  function StandardSuccesses(cfg: Config, reg: Registry, catalog: Catalog, runs: seq<seq<DriverStep>>): seq<Entry>
    requires CatalogCovers(reg, catalog) && RunsCover(runs, |Requests(cfg, reg, catalog)|)
  {
    var plan := StandardPlan(cfg.browsers, cfg.devices, catalog);
    ResolvedDevicesCovered(reg, cfg.uaSpoof, catalog);
    OutcomesSplit(StandardRequests(plan, cfg, catalog), InAppRequests(ResolveSpoofKeys(reg, cfg.uaSpoof), catalog), runs);
    Successes(Outcomes(StandardRequests(plan, cfg, catalog), runs[..|plan|]))
  }

  /** The successful in-app entries: the requests of the resolved
      identities, run by the remaining runs, in resolution order. */
  function InAppSuccesses(cfg: Config, reg: Registry, catalog: Catalog, runs: seq<seq<DriverStep>>): seq<Entry>
    requires CatalogCovers(reg, catalog) && RunsCover(runs, |Requests(cfg, reg, catalog)|)
  {
    var plan := StandardPlan(cfg.browsers, cfg.devices, catalog);
    ResolvedDevicesCovered(reg, cfg.uaSpoof, catalog);
    OutcomesSplit(StandardRequests(plan, cfg, catalog), InAppRequests(ResolveSpoofKeys(reg, cfg.uaSpoof), catalog), runs);
    Successes(Outcomes(InAppRequests(ResolveSpoofKeys(reg, cfg.uaSpoof), catalog), runs[|plan|..]))
  }

  /** The result list is the successful standard entries in matrix order
      followed by the successful in-app entries in resolution order; every
      standard entry carries the platform and viewport of its catalog
      device, every in-app entry is iOS exactly when its engine is WebKit. */
  lemma StandardEntriesFirst(cfg: Config, reg: Registry, catalog: Catalog, runs: seq<seq<DriverStep>>)
    requires ValidRegistry(reg) && CatalogCovers(reg, catalog)
    requires RunsCover(runs, |Requests(cfg, reg, catalog)|)
    requires CaptureScreenshots(cfg, reg, catalog, runs).Success?
    ensures var std := StandardSuccesses(cfg, reg, catalog, runs);
            var inApp := InAppSuccesses(cfg, reg, catalog, runs);
            && CaptureScreenshots(cfg, reg, catalog, runs).value == std + inApp
            && AllStandard(std, catalog) && AllInApp(inApp, catalog)
  {
    var plan := StandardPlan(cfg.browsers, cfg.devices, catalog);
    ResolvedDevicesCovered(reg, cfg.uaSpoof, catalog);
    var std := StandardRequests(plan, cfg, catalog);
    var inApp := InAppRequests(ResolveSpoofKeys(reg, cfg.uaSpoof), catalog);
    OutcomesSplit(std, inApp, runs);
    SuccessesAppend(Outcomes(std, runs[..|plan|]), Outcomes(inApp, runs[|plan|..]));
    StandardPrefixTagged(std, runs[..|plan|], catalog);
    InAppSuffixTagged(inApp, runs[|plan|..], catalog);
  }

  ghost predicate AllStandard(es: seq<Entry>, catalog: Catalog)
  {
    forall e :: e in es ==> StandardEntry(e, catalog)
  }

  ghost predicate AllInApp(es: seq<Entry>, catalog: Catalog)
  {
    forall e :: e in es ==> InAppEntry(e, catalog)
  }

  lemma StandardPrefixTagged(std: seq<Request>, runs: seq<seq<DriverStep>>, catalog: Catalog)
    requires RunsCover(runs, |std|)
    requires forall i :: 0 <= i < |std| ==> StandardEntry(std[i].entry, catalog)
    ensures AllStandard(Successes(Outcomes(std, runs)), catalog)
  {
    var a := Outcomes(std, runs);
    forall e | e in Successes(a)
      ensures StandardEntry(e, catalog)
    {
      InSuccesses(a, e);
      var i :| 0 <= i < |a| && a[i] == Succeeded(e);
      OutcomeOfRequest(std, runs, i);
    }
  }

  lemma InAppSuffixTagged(inApp: seq<Request>, runs: seq<seq<DriverStep>>, catalog: Catalog)
    requires RunsCover(runs, |inApp|)
    requires forall i :: 0 <= i < |inApp| ==> InAppEntry(inApp[i].entry, catalog)
    ensures AllInApp(Successes(Outcomes(inApp, runs)), catalog)
  {
    var b := Outcomes(inApp, runs);
    forall e | e in Successes(b)
      ensures InAppEntry(e, catalog)
    {
      InSuccesses(b, e);
      var i :| 0 <= i < |b| && b[i] == Succeeded(e);
      OutcomeOfRequest(inApp, runs, i);
    }
  }

  /** WebKit on an Android-classified device, no identities: the sole
      combination is refused, no request is issued and the result is empty. */
  lemma WebkitOnAndroidCapturesNothing(cfg: Config, reg: Registry, catalog: Catalog, runs: seq<seq<DriverStep>>)
    requires cfg.url.Some? && cfg.url.value != "" && cfg.output.Some?
    requires |cfg.devices| == 1 && cfg.devices[0] in catalog && GetPlatform(catalog[cfg.devices[0]]) == Android
    requires cfg.browsers == ["webkit"] && cfg.uaSpoof == []
    requires ValidRegistry(reg) && CatalogCovers(reg, catalog) && runs == []
    ensures Requests(cfg, reg, catalog) == []
    ensures CaptureScreenshots(cfg, reg, catalog, runs) == Success([])
  {
    assert cfg.devices == [cfg.devices[0]];
    WebkitOnAndroidIsEmpty(catalog, cfg.devices[0]);
  }

  /** Chromium on a desktop device whose first call completes: exactly one
      entry, tagged standard and desktop. */
  lemma ChromiumOnDesktopCapturesOne(cfg: Config, reg: Registry, catalog: Catalog, runs: seq<seq<DriverStep>>)
    requires cfg.url.Some? && cfg.url.value != "" && cfg.output.Some?
    requires |cfg.devices| == 1 && cfg.devices[0] in catalog && !catalog[cfg.devices[0]].isMobile
    requires cfg.browsers == ["chromium"] && cfg.uaSpoof == []
    requires ValidRegistry(reg) && CatalogCovers(reg, catalog)
    requires |runs| == 1 && |runs[0]| >= MaxRetries && runs[0][0] == Captured
    ensures |Requests(cfg, reg, catalog)| == 1
    ensures var r := CaptureScreenshots(cfg, reg, catalog, runs);
            && r.Success? && |r.value| == 1
            && r.value[0].kind == Standard && r.value[0].platform == Desktop
            && r.value[0].browserEngine == "chromium" && r.value[0].device == cfg.devices[0]
  {
    var name := cfg.devices[0];
    assert cfg.devices == [name];
    ChromiumOnDesktopIsOne(catalog, name);
    var reqs := Requests(cfg, reg, catalog);
    assert |reqs| == 1;
    FirstSuccessReturnsAtOnce(ToAttempts(runs[0], reqs[0].entry));
    var outs := Outcomes(reqs, runs);
    assert outs == [Succeeded(reqs[0].entry)];
    assert Successes(outs) == [reqs[0].entry] + Successes([]);
  }

  /** The engines launched, in order: each requested engine that has a
      launcher once (even when none of its devices survives the filter),
      then one launch per resolved identity. */
  function Launches(cfg: Config, reg: Registry): (engines: seq<string>)
    requires ValidRegistry(reg)
    ensures forall i :: 0 <= i < |engines| ==> LauncherLabel(engines[i]).Some?
    ensures |engines| == |KnownEngines(cfg.browsers)| + |ResolveSpoofKeys(reg, cfg.uaSpoof)|
  {
    var found := ResolveSpoofKeys(reg, cfg.uaSpoof);
    KnownEngines(cfg.browsers) + seq(|found|, i requires 0 <= i < |found| => RegistryEngine(reg, found[i]))
  }

  /** The requested engine names that have a launcher, in order. */
  function KnownEngines(names: seq<string>): (known: seq<string>)
    ensures forall i :: 0 <= i < |known| ==> LauncherLabel(known[i]).Some?
    ensures forall n :: n in known <==> n in names && LauncherLabel(n).Some?
  {
    if |names| == 0 then []
    else if LauncherLabel(names[0]).Some? then [names[0]] + KnownEngines(names[1..])
    else KnownEngines(names[1..])
  }

  /** The engine of a resolved identity, which a valid registry guarantees
      is launchable. */
  function RegistryEngine(reg: Registry, e: (string, InApp)): (engine: string)
    requires ValidRegistry(reg) && Lookup(reg, e.0) == Some(e.1)
    ensures engine == e.1.engine && LauncherLabel(engine).Some?
  {
    e.1.engine
  }
}
