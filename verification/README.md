# Browser compatibility capture tool: a Dafny model of its core

The tool takes a URL and captures screenshots of it for a matrix of browser
engines and device emulations. It also captures the page under a set of in-app
browser identities: user-agent strings of the Facebook, Instagram, TikTok and
other in-app browsers. This project models the parts of the tool that decide
*what* gets captured and *what* is reported. It proves properties of them.

- **Registries** (`browsers.dfy`, module `Browsers`):
  - the platform classification of a device (`getPlatform`);
  - the engine launcher table;
  - the in-app identity table, kept as an ordered key/value list so that
    `Object.keys` order is explicit;
  - the default device list.

  The device catalog of the automation library is a parameter.
- **Retry executor** (`retry.dfy`, module `Retry`): `captureWithRetry`.
  - It gets at most three attempts, with exponential backoff.
  - It returns the outcome together with the list of waits it would sleep
    and the number of calls it made.
  - What each call does is an input.
- **Standard matrix** (`matrix.dfy`, module `Matrix`):
  - the browser-major, device-minor loop;
  - skips of unknown engines and unknown devices;
  - the compatibility filter.
- **Identity resolution** (`spoof.dfy`, module `Spoof`): a requested key
  matches every registry key that starts with it or contains it, in registry
  order. With no match, the key itself is looked up and skipped when absent.
- **File names** (`naming.dfy`, module `Naming`):
  - `<engine>_<sanitised device>.png` for standard captures;
  - `inapp_<key>.png` for identity captures.
- **Result assembly** (`engine.dfy`, module `CaptureEngine`):
  `captureScreenshots` from the merged configuration to the list of result
  entries.
  - Each capture request carries its context (device, viewport override,
    user agent, script injection) and the entry it returns.
  - Each request is run through the retry executor.
  - Only successful outcomes are kept: standard ones first, then identity
    ones.
- **Command line** (`cli.dfy`, module `Cli`):
  - `parseArgs`, stepping over the arguments exactly like the source loop;
  - JavaScript `parseInt` with no radix;
  - the built-in defaults;
  - the spread merge `defaults < config file < command line`;
  - the conversion of the merged object into what the engine reads.
- **Findings** (`findings.dfy`, module `Findings`): the launcher, device and
  identity reads as written, through the prototype chain. See "Findings"
  below. The rest of the model reads own properties only.

Helper modules:
- `Wrappers`: `Option` and `Result`.
- `Strings`: the JavaScript string built-ins the core uses. These are
  `startsWith`, `includes`, `trim` with JavaScript's white-space set,
  `split`, and ASCII `toLowerCase`.
- `Seqs`: flattening.

## Model

| member | source | states |
|---|---|---|
| `Strings.ContainsIff` | lib/capture-engine.mjs:127 | `includes` holds exactly when the key occurs at some position of the registry key |
| `Strings.StartsWithImpliesContains` | lib/capture-engine.mjs:127 | a prefix match is also a substring match, so the `startsWith` half of the filter never adds a key |
| `Strings.TrimStart` | capture.mjs:66 | removes exactly the leading run of JavaScript white space; what is left starts with a non-space |
| `Strings.Trim` | capture.mjs:74 | the result is a contiguous slice of the input without white space at either end, and only white space was removed |
| `Strings.TrimIdempotent` | capture.mjs:74 | trimming twice is trimming once |
| `Strings.ToLower` | capture.mjs:76 | keeps the length, maps each upper-case ASCII letter to its lower-case form and leaves no upper-case letter |
| `Strings.ToLowerIdempotent` | capture.mjs:76 | lower-casing twice is lower-casing once |
| `Strings.Split` | capture.mjs:74 | `split(',')` yields at least one piece and no piece holds the separator |
| `Strings.SplitJoin` | capture.mjs:74 | joining the pieces with the separator gives back the text |
| `Strings.SplitCount` | capture.mjs:74 | there is one more piece than there are separators |
| `Strings.TrimAll` | capture.mjs:74 | each device piece is the trimmed piece at the same position |
| `Strings.TrimLowerAll` | capture.mjs:76-78 | each browser or identity piece is the trimmed and lower-cased piece at the same position |
| `Browsers.GetPlatform` | lib/browsers.mjs:93-96 | desktop exactly for non-mobile devices; iOS exactly for mobile devices whose default browser type is WebKit; Android for the other mobile devices |
| `Browsers.PlatformName` | lib/browsers.mjs:91-96 | the classification is always one of `desktop`, `ios`, `android` |
| `Browsers.PlatformNameInjective` | lib/browsers.mjs:91-96 | different classifications have different names |
| `Browsers.BrowserLaunchers` | lib/browsers.mjs:101-105 | three launchers, chromium, webkit and firefox, in that order |
| `Browsers.LauncherNames` | lib/browsers.mjs:101-105 | the launcher table has exactly the keys chromium, webkit and firefox |
| `Browsers.LauncherLabel` | lib/capture-engine.mjs:55-56 | as an own-property read (the corrected read; see Findings), a launcher exists exactly for the three known engine names |
| `Browsers.InAppRegistry` | lib/browsers.mjs:10-71 | ten identities, in source order |
| `Browsers.Keys` | lib/capture-engine.mjs:127 | `Object.keys`: one key per entry, in entry order |
| `Browsers.Lookup` | lib/capture-engine.mjs:131-135 | an own-property read: absent exactly when no entry has the key, otherwise the value of the first entry with it |
| `Browsers.LookupFindsKeys` | lib/capture-engine.mjs:127-131 | a read succeeds exactly for the keys `Object.keys` lists |
| `Browsers.InAppKeysDistinct` | lib/browsers.mjs:10-71 | the identity keys are pairwise distinct |
| `Browsers.InAppEnginesLaunchable` | lib/browsers.mjs:10-71 | every identity's engine is webkit or chromium and has a launcher |
| `Browsers.InAppRegistryValid` | lib/browsers.mjs:10-71 | the identity table has distinct keys and only launchable engines, which the engine relies on |
| `Browsers.InAppRegistryDevices` | lib/browsers.mjs:11-70 | WebKit identities use the iPhone 15 Pro and Chromium identities the Pixel 7 |
| `Browsers.DefaultDevices` | lib/browsers.mjs:76-86 | nine pairwise distinct device names, including both devices the identities use |
| `Retry.CaptureWithRetry` | lib/capture-engine.mjs:17-33 | calls the unit of work between one and three times; every call before the last one threw; success exactly when the last call returned, with its data; on failure all three calls threw and the third call's message is returned; the waits are 1000·2^j ms, one fewer than the calls |
| `Retry.RetryFrom` | lib/capture-engine.mjs:18-32 | the loop from a given attempt number on, with the same guarantees counted from that attempt |
| `Retry.SuccessIffSomeAttemptSucceeds` | lib/capture-engine.mjs:18-21 | success exactly when one of the first three calls returns; the result is then the first such call's data, after exactly that many calls |
| `Retry.FirstSuccessReturnsAtOnce` | lib/capture-engine.mjs:18-21 | a first call that returns gives success after one call and no wait |
| `Retry.ExhaustionKeepsLastError` | lib/capture-engine.mjs:22-27 | three throwing calls give a failure with the third message, after waits of 1000 and 2000 ms |
| `Retry.FailTwiceThenSucceed` | lib/capture-engine.mjs:23-30 | two throws then a return give a success after waits of exactly 1000 and 2000 ms |
| `Retry.TotalBackoffBounded` | lib/capture-engine.mjs:28-30 | the waits of one request add up to at most 3000 ms |
| `Matrix.CompatibleIff` | lib/capture-engine.mjs:71-77 | a combination is refused exactly when the device is not desktop and either WebKit meets Android or Firefox meets a mobile device; desktop accepts every engine, Chromium is never refused, Firefox is refused on every mobile device, WebKit on a mobile device is accepted exactly on iOS |
| `Matrix.Compatible` | lib/capture-engine.mjs:73-77 | a combination is refused exactly when the device is mobile and the engine is Firefox, or WebKit on a device whose default browser type is not WebKit |
| `Matrix.Admit` | lib/capture-engine.mjs:55-77 | with own-property reads of the launcher table and the catalog (the corrected reads; see Findings), a combination is attempted exactly when the engine has a launcher, the device is in the catalog and the pair is compatible; it then carries the catalog device and its classification |
| `Matrix.DeviceLoop` | lib/capture-engine.mjs:64-77 | the inner loop yields only admitted combinations for its engine, at most one per requested device |
| `Matrix.StandardPlan` | lib/capture-engine.mjs:54-77 | every planned combination is admitted |
| `Matrix.DeviceLoopIsFilteredRow` | lib/capture-engine.mjs:64-77 | the inner loop is the admitted part of its row of the product; an unknown engine contributes nothing |
| `Matrix.PlanIsFilteredProduct` | lib/capture-engine.mjs:54-77 | the plan is the browser-major, device-minor product of the requested lists, filtered by admission, in order |
| `Matrix.PlanMembership` | lib/capture-engine.mjs:54-77 | a combination is planned exactly when some requested engine and some requested device admit it |
| `Matrix.WebkitOnAndroidIsEmpty` | lib/capture-engine.mjs:75 | WebKit on an Android device plans nothing |
| `Matrix.ChromiumOnDesktopIsOne` | lib/capture-engine.mjs:73-77 | Chromium on a desktop device plans exactly that combination, classified desktop |
| `Spoof.MatchingKeys` | lib/capture-engine.mjs:127 | the matches are no more than the registry keys |
| `Spoof.MatchingKeysIff` | lib/capture-engine.mjs:127 | a registry key is kept exactly when it contains the requested key, and the kept keys keep registry order (a subsequence) |
| `Spoof.KeysToUse` | lib/capture-engine.mjs:128 | at least one key is always tried |
| `Spoof.LookupAll` | lib/capture-engine.mjs:130-135 | the identities found are exactly the tried keys present in the registry, with their values |
| `Spoof.LookupAllKeys` | lib/capture-engine.mjs:130-135 | when every tried key is in the registry, each is found, in order |
| `Spoof.FallbackNeverResolves` | lib/capture-engine.mjs:128-135 | a key that matches no registry key is not itself a registry key, so the literal fallback is always skipped |
| `Spoof.ResolveKeyIff` | lib/capture-engine.mjs:126-135 | a requested key resolves to exactly the registry identities whose key contains it, one per matching key |
| `Spoof.ResolveKey` | lib/capture-engine.mjs:127-135 | an identity is resolved from a key exactly when the registry holds it under a key containing the requested key; as many are resolved as registry keys match |
| `Spoof.ResolvesToMatches` | lib/capture-engine.mjs:127-135 | looking up the keys to use finds exactly the registry identities whose key contains the requested key, one per matching key |
| `Spoof.ResolvedKeys` | lib/capture-engine.mjs:127-135 | when something matches, the resolved keys are the matching keys in registry order |
| `Spoof.ResolveSpoofKeys` | lib/capture-engine.mjs:126-135 | every resolved identity is a registry entry |
| `Spoof.ResolveSpoofKeysIff` | lib/capture-engine.mjs:126-135 | an identity is resolved exactly when some requested key is contained in its key |
| `Spoof.DuplicatesKept` | lib/capture-engine.mjs:126-130 | requesting a key twice resolves its identities twice; nothing is de-duplicated |
| `Spoof.RegistryKeys` | lib/browsers.mjs:10-71 | the identity keys, in source order |
| `Spoof.FaceResolvesToFacebook` | lib/capture-engine.mjs:126-135 | `face` resolves to `facebook_ios` then `facebook_android` |
| `Spoof.WechatResolvesToItself` | lib/capture-engine.mjs:126-135 | `wechat` resolves to `wechat` alone |
| `Spoof.CapitalisedKeyIsSkipped` | lib/capture-engine.mjs:127-135 | matching is case-sensitive: `Face` resolves to nothing |
| `Naming.Sanitize` | lib/capture-engine.mjs:97 | keeps the length, leaves ASCII letters and digits alone and turns every other character into `_` |
| `Naming.SanitizeIdempotent` | lib/capture-engine.mjs:97 | a sanitised name holds only letters, digits and `_`, and sanitising it again changes nothing |
| `Naming.SanitizeCollides` | lib/capture-engine.mjs:97 | two device names sanitise alike exactly when they have the same length and agree wherever either has a letter or digit |
| `Naming.StandardFilename` | lib/capture-engine.mjs:97 | engine, `_`, sanitised device, `.png` |
| `Naming.StandardFilenameInjective` | lib/capture-engine.mjs:97 | for one engine, two devices share a file exactly when their sanitised names agree |
| `Naming.InAppFilename` | lib/capture-engine.mjs:155 | `inapp_`, key, `.png` |
| `Naming.InAppFilenameInjective` | lib/capture-engine.mjs:155 | distinct identity keys give distinct files |
| `Naming.StandardAndInAppNamesDiffer` | lib/capture-engine.mjs:155 | a standard capture of a known engine never overwrites an identity capture |
| `CaptureEngine.ContextViewport` | lib/capture-engine.mjs:83-86 | a truthy custom width replaces the viewport width, with the custom height if truthy and otherwise the device's height; without one the device viewport is used |
| `CaptureEngine.StandardRequest` | lib/capture-engine.mjs:82-114 | the context is the catalog device with the overridden viewport, its user agent and the injection flag; the entry names the launcher label, engine and device, reports the device's own viewport and user agent, the standard tag, the classification and the standard file name; the entry's engine, device name and platform are the combination's |
| `CaptureEngine.InAppRequest` | lib/capture-engine.mjs:144-171 | the context is the identity's device with the identity's user agent, never the viewport override or the injection; the entry is tagged in-app, iOS exactly when the engine is WebKit, and reports the viewport of the identity's device; the entry is named after the identity, carries its engine, device name and user agent, and is written to the identity's file |
| `CaptureEngine.StandardRequests` | lib/capture-engine.mjs:54-114 | one request per planned combination, in plan order |
| `CaptureEngine.InAppRequests` | lib/capture-engine.mjs:126-172 | one request per resolved identity, in resolution order |
| `CaptureEngine.ResolvedDevicesCovered` | lib/capture-engine.mjs:137 | when the catalog holds every identity's device, every resolved identity's device is found |
| `CaptureEngine.Requests` | lib/capture-engine.mjs:53-181 | as many requests as planned combinations plus resolved identities |
| `CaptureEngine.ToAttempts` | lib/capture-engine.mjs:82-114 | a call of the unit of work succeeds exactly when the driver completes, returning the request's entry |
| `CaptureEngine.Outcomes` | lib/capture-engine.mjs:114 | one retry outcome per request |
| `CaptureEngine.Successes` | lib/capture-engine.mjs:116-119 | never more entries than outcomes |
| `CaptureEngine.SuccessIndices` | lib/capture-engine.mjs:116-119 | the positions of the successful outcomes: increasing, each a success, and every success listed |
| `CaptureEngine.SuccessesInOrder` | lib/capture-engine.mjs:116-119 | the result list is the data of the successful outcomes in issue order: its j-th entry is the data of the j-th success |
| `CaptureEngine.CaptureScreenshots` | lib/capture-engine.mjs:38-184 | over a registry whose identities all have launchers, refuses exactly when the URL is missing or empty (the exit) or the output setting is not a string (`path.resolve` throws); the missing URL is reported first; otherwise returns no more entries than requests |
| `CaptureEngine.OutcomeOfRequest` | lib/capture-engine.mjs:114-119 | a request succeeds exactly when one of its first three calls completes, with its entry; otherwise it fails with the third call's message |
| `CaptureEngine.InSuccesses` | lib/capture-engine.mjs:116-119 | an entry is kept exactly when it is the data of a success |
| `CaptureEngine.SuccessesAppend` | lib/capture-engine.mjs:116-177 | keeping successes distributes over the standard and identity parts |
| `CaptureEngine.ResultsAreTheSucceededRequests` | lib/capture-engine.mjs:116-177 | an entry is in the result list exactly when it is the entry of a request one of whose first three calls completed; failures are dropped |
| `CaptureEngine.StandardEntriesFirst` | lib/capture-engine.mjs:53-183 | the result list is the successes of the standard requests in plan order (`StandardSuccesses`), all satisfying the standard tagging, followed by the successes of the identity requests in resolution order (`InAppSuccesses`), all satisfying the in-app tagging |
| `CaptureEngine.StandardPrefixTagged` | lib/capture-engine.mjs:103-119 | every successful standard entry carries the standard tag, its device's classification, viewport, user agent and file name |
| `CaptureEngine.InAppSuffixTagged` | lib/capture-engine.mjs:160-177 | every successful identity entry is tagged in-app, iOS exactly when its engine is WebKit |
| `CaptureEngine.WebkitOnAndroidCapturesNothing` | lib/capture-engine.mjs:74-77 | WebKit on one Android device with no identities issues no request and returns an empty list |
| `CaptureEngine.ChromiumOnDesktopCapturesOne` | lib/capture-engine.mjs:54-119 | Chromium on one desktop device whose first call completes returns one standard, desktop entry for that device |
| `CaptureEngine.KnownEngines` | lib/capture-engine.mjs:54-62 | the engines launched for the matrix are exactly the requested names that have a launcher |
| `CaptureEngine.RegistryEngine` | lib/capture-engine.mjs:136-141 | a resolved identity's engine always has a launcher |
| `CaptureEngine.Launches` | lib/capture-engine.mjs:54-141 | one launch per known requested engine and one per resolved identity, every one of a launchable engine |
| `Cli.ParseInt` | capture.mjs:66 | `parseInt` yields a number or NaN |
| `Cli.ParseIntReadsDecimal` | capture.mjs:66 | `parseInt` reads back any integer written in decimal, after leading white space and before trailing text that does not continue the number |
| `Cli.ParseIntNaN` | capture.mjs:66 | text whose first non-space character is neither a sign nor a digit is NaN |
| `Cli.Update` | capture.mjs:62-83 | one step throws exactly when it is a list option in the last position; an argument not starting with `-` sets `url`; no dash argument sets `url` |
| `Cli.Heads` | capture.mjs:61-85 | the loop visits positions in order from the start, each step moving past the option's value |
| `Cli.ParseArgs` | capture.mjs:57-88 | `parseArgs` throws only when a list option is the last argument; its result holds only the ten properties the loop can set |
| `Cli.UpdateKnownKey` | capture.mjs:62-83 | every step that sets a property sets one of the ten the loop knows |
| `Cli.ParseFromKnownKeys` | capture.mjs:61-85 | from properties among the ten, the loop leaves only properties among the ten |
| `Cli.ValueIsNotAHead` | capture.mjs:63-78 | the argument after an option that takes a value is never read as an option or as the URL |
| `Cli.NextHead` | capture.mjs:79-84 | after a visited position the loop visits the position just past it and its value, unless that is past the end |
| `Cli.ParseArgsFails` | capture.mjs:73-78 | `parseArgs` throws exactly when a list option is the last argument and the loop reaches it |
| `Cli.ParseFromFails` | capture.mjs:61-85 | from any position and any properties so far, the loop throws exactly when it reaches a list option in the last position |
| `Cli.ParseFromKeys` | capture.mjs:61-85 | a property is present after the loop exactly when it was before or some visited position sets it |
| `Cli.ParseFromLastWins` | capture.mjs:61-85 | a property's value is the one set by the last visited position that sets it |
| `Cli.ParseArgsLastWins` | capture.mjs:57-88 | the parsed object holds exactly the properties some visited argument sets, each with the value the last such argument gave |
| `Cli.UrlIsLastPositional` | capture.mjs:81-82 | the URL is the last visited argument that does not start with a dash |
| `Cli.ListOptionItems` | capture.mjs:73-78 | a list option's value becomes one item more than it has commas, each without commas or surrounding white space; item j of `--devices` is the trimmed piece j of the value split at commas; item j of `--browsers` and `--ua-spoof` is that trimmed piece lower-cased |
| `Cli.FlagsWithoutValue` | capture.mjs:79-84 | `--inject-eruda` sets true and consumes one argument; any other unknown dash argument is ignored |
| `Cli.OutputAliases` | capture.mjs:63-64 | `-o` and `--output` both store the next argument verbatim |
| `Cli.FullPageOffOnlyByFalse` | capture.mjs:69-70 | `--full-page v` sets `fullPage` to false only when v is exactly `false` |
| `Cli.FullPageOption` | capture.mjs:69-70 | at any position, `--full-page` consumes two arguments and sets `fullPage` to whether the next argument differs from `false`; as the last argument it sets true |
| `Cli.NumericOptions` | capture.mjs:65-72 | `-w`/`--width`, `-h`/`--height` and `--delay` consume two arguments and set `customWidth`, `customHeight` and `delay` to `parseInt` of the next argument, or NaN when there is none |
| `Cli.UndefinedIsNaN` | capture.mjs:66 | `parseInt(undefined)` reads the text `undefined` and is NaN |
| `Cli.DanglingOutputIsUndefined` | capture.mjs:63-64 | `--output` as the last argument sets `output` to `undefined` |
| `Cli.DanglingDevicesThrows` | capture.mjs:73-74 | `--devices` as the last argument throws |
| `Cli.OptionValueIsSwallowed` | capture.mjs:63-64 | `--output --delay URL` stores `--delay` as the output directory and still reads the URL |
| `Cli.DefaultsRequestEveryEngine` | capture.mjs:41-52 | by default every launcher engine is requested and no identity |
| `Cli.DefaultsCoverParsedKeys` | capture.mjs:41-52 | the built-in defaults hold exactly the ten properties the command line can set |
| `Cli.Merge` | capture.mjs:111-112 | every property of any layer is present; a command-line property wins over the file, which wins over the defaults; absent properties fall through |
| `Cli.DanglingOutputOverrides` | capture.mjs:112 | an `undefined` from the command line still overrides the default output directory |
| `Cli.AsUrl` | lib/capture-engine.mjs:39-41 | a falsy URL value is no URL; a string is used as is |
| `Cli.AsDimension` | lib/capture-engine.mjs:85 | a number is kept and a falsy non-number is no override |
| `Cli.ToEngineConfig` | lib/capture-engine.mjs:39-47 | the engine's view is defined exactly when the URL, width and height have a represented shape and the three list settings are lists; then the URL is `AsUrl` of the merged `url` (none exactly when falsy), the width and height are `AsDimension` of the merged values (truthy exactly when those are), the lists and the injection flag's truthiness are the merged ones, and the output directory is the merged `output` exactly when that is a string |
| `Cli.DimensionsReachTheViewport` | lib/capture-engine.mjs:83-86 | a non-zero merged width and height become the viewport of every standard context, whatever the device |
| `Cli.DefaultsReachTheEngine` | capture.mjs:41-52 | with only a URL given, the engine requests every launcher engine on the default devices, with no identity, override or injection, writing under `./report` |
| `Cli.MergedDefaults` | capture.mjs:41-52 | with only a URL on the command line and an empty file, the merged object holds that URL and every built-in default |
| `Cli.NoPositionalNoUrl` | capture.mjs:81-82 | a command line without a positional argument sets no URL |
| `Cli.MergedUrlIsNull` | capture.mjs:112 | with no layer above the defaults setting it, the URL stays `null` |
| `Cli.UrlThenDanglingOutput` | capture.mjs:61-85 | for any non-empty URL not starting with `-`, `<url> --output` parses to the URL and an `undefined` output |
| `Cli.DanglingOutputAborts` | lib/capture-engine.mjs:47 | for any non-empty URL not starting with `-` and any configuration file, `<url> --output` overrides the default output with `undefined`, and the engine refuses the run because `path.resolve` throws |
| `Cli.UndefinedOutputAborts` | lib/capture-engine.mjs:41-47 | a command line with a non-empty URL and an `undefined` output is refused for the output directory, whatever the file holds |
| `Cli.CommandLineUrlReachesEngine` | capture.mjs:112 | a non-empty command-line URL is the engine's URL, whatever the file holds |
| `Cli.UndefinedOutputReachesEngine` | capture.mjs:112 | an `undefined` command-line output leaves the engine without an output directory |
| `Cli.NoUrlIsRefused` | lib/capture-engine.mjs:41-45 | a command line without a positional argument, over a file without a URL, is refused by the engine |
| `Findings.CatalogRead` | lib/capture-engine.mjs:65 | an ordinary read of the device catalog finds a catalog device exactly for catalog names, and is absent only for names that are neither catalog names nor inherited |
| `Findings.DeviceLoopAsWritten` | lib/capture-engine.mjs:64-77 | with the ordinary catalog read, every planned device is requested and is a catalog device or an inherited name; catalog devices are compatible and carry their classification, inherited names are classified desktop |
| `Findings.PlanAsWritten` | lib/capture-engine.mjs:54-77 | with the ordinary reads, an abort names a requested engine that is an inherited name; otherwise every planned combination has a requested engine with a launcher and a requested device |
| `Findings.LookupAllAsWritten` | lib/capture-engine.mjs:130-138 | with the ordinary identity read, a throw names a tried key that is inherited and missing from the table; otherwise every identity found is a registry entry under a tried key |
| `Findings.PlanAsWrittenAborts` | lib/capture-engine.mjs:54-62 | the loop as written aborts exactly when some requested engine names an inherited member |
| `Findings.DeviceLoopAgrees` | lib/capture-engine.mjs:64-77 | without inherited device names missing from the catalog, the device loop as written plans what the corrected one plans |
| `Findings.PlanAsWrittenAgrees` | lib/capture-engine.mjs:54-77 | without inherited engine names, and without inherited device names missing from the catalog, the loops as written plan the corrected plan, in order |
| `Findings.ConstructorEngineAbortsTheRun` | lib/capture-engine.mjs:54-62 | `--browsers constructor` aborts the run at the launch |
| `Findings.ConstructorEngineIsSkipped` | lib/capture-engine.mjs:54-59 | with the own-property read, `--browsers constructor` issues no request and returns an empty list |
| `Findings.ConstructorDeviceIsCaptured` | lib/capture-engine.mjs:64-77 | `--devices constructor` with Chromium plans a desktop capture of the inherited member |
| `Findings.ConstructorDeviceIsSkipped` | lib/capture-engine.mjs:64-69 | with the own-property read, a device name missing from the catalog is skipped |
| `Findings.PropertyRead` | lib/capture-engine.mjs:131 | an ordinary property read finds an own entry exactly when the own-property lookup does, and is absent only for keys that are neither own nor inherited |
| `Findings.AsWrittenThrowsOnlyOnInherited` | lib/capture-engine.mjs:130-138 | the loop as written throws exactly when a tried key names an inherited member the table lacks; otherwise it agrees with the own-property lookup |
| `Findings.ConstructorAbortsTheRun` | lib/capture-engine.mjs:126-138 | `--ua-spoof constructor` falls back to the literal key and the run aborts |
| `Findings.UnmatchedKeyIsSkipped` | lib/capture-engine.mjs:128-135 | with the own-property lookup, a key no registry key contains resolves to nothing |
| `Findings.ConstructorIsSkipped` | lib/capture-engine.mjs:126-135 | with the own-property lookup, `constructor` resolves to nothing |

## Left out

- The automation driver: launching engines, opening contexts and pages,
  navigation, the settle delay, script injection and screenshot writing. What
  each call of a unit of work did is an input (`runs`). The model records
  which engines are launched, but not the closing of browsers.
- Sleeping: the waits are recorded in a list, not timed.
- Output directory creation, path resolution and the absolute `filepath` of
  each entry (I/O). The one effect of `output` that is modelled is the abort
  of `path.resolve` on a non-string (`OutputNotAString`).
- Failures of the driver outside the retry executor: a launch that throws
  (lines 62 and 142 of `lib/capture-engine.mjs`), a `browser.close()` that
  throws (lines 122 and 179) and a directory that cannot be created (line
  49). Each rejects the whole run; the model assumes they complete.
- The `fullPage` and `delay` settings. They only reach the driver.
- Console logging. This includes the warnings for unknown engines, devices
  and identities. The skipped items are those of the own-property reads;
  names of inherited members are read differently by the code (see
  Findings).
- `process.exit(1)` for a missing URL, modelled as the error result
  `MissingUrl`.
- The contents of the automation library's device catalog. It is not part of
  this model and is a parameter.
- `CaptureEngine.CaptureScreenshots`: requires that the catalog contain every
  identity's device (`CatalogCovers`); the source assumes it and does not
  check.
- `Browsers.InAppRegistry`: its contract states only the number of entries.
  The content is stated by the lemmas about keys, engines and devices. The
  user-agent strings and display names are data.
- `CaptureEngine.CaptureScreenshots`: states the entry count only as a bound.
  Membership and order are stated by `ResultsAreTheSucceededRequests` and
  `StandardEntriesFirst`.
- `Cli.ParseInt`: does not model the precision loss of numbers above 2^53. It
  also does not distinguish `-0` from `0`; both are falsy, as in the source.
- `Strings.ToLower`: lower-cases ASCII letters only, not the rest of Unicode.
- `Naming.Sanitize`: characters are Dafny `char`s, not UTF-16 code units, so a
  character outside the Basic Multilingual Plane yields one `_` here where
  JavaScript yields two.
- Values in the configuration file: only strings, integers, booleans, `null`
  and lists of strings are represented; a fractional number such as `1.5`
  is not. `Cli.ToEngineConfig` returns None for shapes outside that: a truthy
  non-string URL, a truthy non-number width or height, or a list setting
  that is not a list.
- `CaptureEngine.CaptureScreenshots`: requires a valid identity table
  (`ValidRegistry`): the source reads the launcher label of an identity's
  engine without checking it, and throws when there is none.
- `loadConfigFile`, JSON parsing and the main script. The file's contents are
  a parameter.
- The report generator and the interactive explorer UI.
- Identity resolution has no exact-match priority: every registry key that
  contains the requested key is used, and matching is case-sensitive. On the
  command line, keys are lower-cased first.
- Nothing is de-duplicated: an identity requested twice is captured twice
  (`Spoof.DuplicatesKept`).
- The result list holds successes only: a request whose three attempts all
  fail leaves no entry.

## Findings

| source | as written | input that shows it | evidently intended | confidence | as-written member | corrected member |
|---|---|---|---|---|---|---|
| lib/capture-engine.mjs:131-138 | The identity table is read with `IN_APP_UA_STRINGS[key]`, which goes through the prototype chain. A key naming an inherited member (`constructor`, `__proto__`) reads a truthy function or object, which passes the skip guard. Its `engine` is `undefined`, so the launcher is `undefined`, and reading its `label` throws outside the retry executor. That aborts the whole run and loses every capture already made. | `--ua-spoof constructor`, or `--ua-spoof __proto__` (no registry key contains either, so the literal key is tried) | an unknown identity key is skipped with a warning, like any other absent key | high; not executed | `Findings.ConstructorAbortsTheRun` | `Findings.ConstructorIsSkipped` |
| lib/capture-engine.mjs:54-62 | The launcher table is read with `BROWSER_LAUNCHERS[browserName]`, which goes through the prototype chain. An engine name naming an inherited member reads a truthy function or object, which passes the skip guard. Its `launcher` is `undefined`, so calling `launch` throws outside the retry executor and aborts the whole run. | `--browsers constructor`, or `--browsers __proto__` (both survive lower-casing) | an unknown engine is skipped with a warning, like any other absent name | high; not executed | `Findings.ConstructorEngineAbortsTheRun` | `Findings.ConstructorEngineIsSkipped` |
| lib/capture-engine.mjs:64-77 | The device catalog is read with `devices[deviceName]`, which goes through the prototype chain. A device name naming an inherited member reads a truthy function or object without `isMobile`, so it is classified desktop, passes the compatibility filter and is captured under that name with a default context. | `--devices constructor` or `--devices toString` with Chromium | an unknown device is skipped with a warning, like any other absent name | high; not executed | `Findings.ConstructorDeviceIsCaptured` | `Findings.ConstructorDeviceIsSkipped` |
