/**
 * The profile registry: device descriptors, platform classification, the
 * in-app identity table, the default device presets and the table of
 * launchable browser engines.
 */
module Browsers {
  import opened Wrappers

  /** Viewport dimensions in CSS pixels. */
  datatype Viewport = Viewport(width: int, height: int)

  /** The part of a Playwright device descriptor the capture engine reads. */
  datatype Device = Device(isMobile: bool, defaultBrowserType: string, viewport: Viewport, userAgent: string)

  /** The catalog of named device descriptors (Playwright's `devices`). Its
      contents are not part of this model, so it is always a parameter. */
  type Catalog = map<string, Device>

  /** The three platform classifications `desktop`, `ios` and `android`. */
  datatype Platform = Desktop | Ios | Android

  /** The platform of a device: desktop when it is not mobile, whatever its
      default engine; otherwise iOS exactly when its default engine is WebKit. */
  function GetPlatform(device: Device): (p: Platform)
    ensures p == Desktop <==> !device.isMobile
    ensures p == Ios <==> device.isMobile && device.defaultBrowserType == "webkit"
    ensures p == Android <==> device.isMobile && device.defaultBrowserType != "webkit"
  {
    if !device.isMobile then Desktop
    else if device.defaultBrowserType == "webkit" then Ios
    else Android
  }

  /** The string the source uses for each platform. */
  function PlatformName(p: Platform): (s: string)
    ensures s in {"desktop", "ios", "android"}
  {
    match p
    case Desktop => "desktop"
    case Ios => "ios"
    case Android => "android"
  }

  /** Distinct platforms have distinct names, so the three values are exactly three. */
  lemma PlatformNameInjective(p: Platform, q: Platform)
    ensures PlatformName(p) == PlatformName(q) ==> p == q
  {
  }

  /** An in-app identity: display name, literal user agent, engine and device. */
  datatype InApp = InApp(name: string, ua: string, engine: string, device: string)

  const IosDevice := "iPhone 15 Pro"
  const AndroidDevice := "Pixel 7"

  /** The engines with a launcher, and their labels, in declaration order. */
  function BrowserLaunchers(): (launchers: seq<(string, string)>)
    ensures |launchers| == 3
    ensures launchers[0].0 == "chromium" && launchers[1].0 == "webkit" && launchers[2].0 == "firefox"
  {
    [("chromium", "Chromium (Chrome)"), ("webkit", "WebKit (Safari)"), ("firefox", "Firefox")]
  }

  /** The names of the launchable engines. */
  function LauncherNames(): (names: set<string>)
    ensures names == {"chromium", "webkit", "firefox"}
  {
    var launchers := BrowserLaunchers();
    var names := set i | 0 <= i < |launchers| :: launchers[i].0;
    assert launchers[0].0 in names && launchers[1].0 in names && launchers[2].0 in names;
    names
  }

  /** `BROWSER_LAUNCHERS[name]`: the engine's label, or None for an unknown name. */
  function LauncherLabel(name: string): (found: Option<string>)
    ensures found.Some? <==> name in LauncherNames()
  {
    Lookup(BrowserLaunchers(), name)
  }

  /** The literal user-agent strings of the in-app identities; the common
      leading part of the iOS and of two Android strings is written once. */
  const IosUaPrefix := "Mozilla/5.0 (iPhone; CPU iPhone OS 17_4 like Mac OS X) AppleWebKit/605.1.15 (KHTML, like Gecko) Mobile/21E219 "
  const AndroidUaPrefix := "Mozilla/5.0 (Linux; Android 14; Pixel 8 Pro) AppleWebKit/537.36 (KHTML, like Gecko) Chrome/121.0.6167.178 Mobile Safari/537.36 "
  const FacebookIosUa := IosUaPrefix + "[FBAN/FBIOS;FBAV/454.0.0.43.109;FBBV/568067598;FBDV/iPhone16,2;FBMD/iPhone;FBSN/iOS;FBSV/17.4;FBSS/3;FBID/phone;FBLC/en_US;FBOP/5;FBRV/569644498]"
  const FacebookAndroidUa := "Mozilla/5.0 (Linux; Android 14; Pixel 8 Pro Build/UQ1A.240205.002) AppleWebKit/537.36 (KHTML, like Gecko) Version/4.0 Chrome/121.0.6167.178 Mobile Safari/537.36 [FB_IAB/FB4A;FBAV/454.0.0.43.109;]"
  const InstagramIosUa := IosUaPrefix + "Instagram 321.0.2.22.102 (iPhone16,2; iOS 17_4; en_US; en; scale=3.00; 1290x2796; 569644498)"
  const InstagramAndroidUa := AndroidUaPrefix + "Instagram 321.0.2.22.102 Android"
  const TiktokIosUa := IosUaPrefix + "BytedanceWebview/d8a21c6 TikTok/33.7.4 ByteLocale/en"
  const TiktokAndroidUa := AndroidUaPrefix + "BytedanceWebview TikTok/33.7.4"
  const WechatUa := IosUaPrefix + "MicroMessenger/8.0.47(0x18002f2f) NetType/4G Language/en"
  const LineUa := IosUaPrefix + "Safari Line/14.3.1"
  const TwitterIosUa := IosUaPrefix + "Twitter for iPhone/10.24"
  const SnapchatUa := IosUaPrefix + "Snapchat/12.76.0.33"

  /** The in-app identity table, in declaration order (which is the order
      `Object.keys` reports). */
  function InAppRegistry(): (reg: seq<(string, InApp)>)
    ensures |reg| == 10
  {
    [ ("facebook_ios", InApp("Facebook In-App (iOS)", FacebookIosUa, "webkit", IosDevice)),
      ("facebook_android", InApp("Facebook In-App (Android)", FacebookAndroidUa, "chromium", AndroidDevice)),
      ("instagram_ios", InApp("Instagram In-App (iOS)", InstagramIosUa, "webkit", IosDevice)),
      ("instagram_android", InApp("Instagram In-App (Android)", InstagramAndroidUa, "chromium", AndroidDevice)),
      ("tiktok_ios", InApp("TikTok In-App (iOS)", TiktokIosUa, "webkit", IosDevice)),
      ("tiktok_android", InApp("TikTok In-App (Android)", TiktokAndroidUa, "chromium", AndroidDevice)),
      ("wechat", InApp("WeChat In-App", WechatUa, "webkit", IosDevice)),
      ("line", InApp("LINE In-App", LineUa, "webkit", IosDevice)),
      ("twitter_ios", InApp("Twitter/X In-App (iOS)", TwitterIosUa, "webkit", IosDevice)),
      ("snapchat", InApp("Snapchat In-App", SnapchatUa, "webkit", IosDevice))
    ]
  }

  /** `Object.keys(table)`: the keys of an association list, in order. */
  function Keys<V>(entries: seq<(string, V)>): (keys: seq<string>)
    ensures |keys| == |entries|
    ensures forall i :: 0 <= i < |keys| ==> keys[i] == entries[i].0
  {
    seq(|entries|, i requires 0 <= i < |entries| => entries[i].0)
  }

  /** Looks a key up in an association list. */
  function Lookup<V>(entries: seq<(string, V)>, key: string): (r: Option<V>)
    ensures r.None? <==> forall i :: 0 <= i < |entries| ==> entries[i].0 != key
    ensures r.Some? ==> exists i :: 0 <= i < |entries| && entries[i] == (key, r.value)
    ensures forall i :: 0 <= i < |entries| && entries[i].0 == key && (forall j :: 0 <= j < i ==> entries[j].0 != key)
              ==> r == Some(entries[i].1)
  {
    if |entries| == 0 then None
    else if entries[0].0 == key then Some(entries[0].1)
    else Lookup(entries[1..], key)
  }

  /** The shape every in-app table the engine is given must have: distinct
      keys, and every identity on a launchable engine. */
  predicate ValidRegistry(reg: seq<(string, InApp)>)
  {
    && (forall i, j :: 0 <= i < j < |reg| ==> reg[i].0 != reg[j].0)
    && (forall i :: 0 <= i < |reg| ==> LauncherLabel(reg[i].1.engine).Some?)
  }

  /** The built-in table's keys are distinct ... */
  lemma InAppKeysDistinct()
    ensures forall i, j :: 0 <= i < j < |InAppRegistry()| ==> InAppRegistry()[i].0 != InAppRegistry()[j].0
  {
  }

  /** ... and every identity runs on WebKit or Chromium, both of which have a launcher. */
  lemma InAppEnginesLaunchable()
    ensures forall i :: 0 <= i < |InAppRegistry()| ==> InAppRegistry()[i].1.engine in {"webkit", "chromium"}
    ensures forall i :: 0 <= i < |InAppRegistry()| ==> LauncherLabel(InAppRegistry()[i].1.engine).Some?
  {
  }

  /** So the built-in table has the shape the engine relies on. */
  lemma InAppRegistryValid()
    ensures ValidRegistry(InAppRegistry())
  {
    InAppKeysDistinct();
    InAppEnginesLaunchable();
  }

  /** In the built-in table the engine fixes the device: WebKit identities use
      the iPhone 15 Pro and Chromium identities the Pixel 7. */
  lemma InAppRegistryDevices()
    ensures forall i :: 0 <= i < |InAppRegistry()| && InAppRegistry()[i].1.engine == "webkit" ==>
              InAppRegistry()[i].1.device == IosDevice
    ensures forall i :: 0 <= i < |InAppRegistry()| && InAppRegistry()[i].1.engine == "chromium" ==>
              InAppRegistry()[i].1.device == AndroidDevice
  {
  }

  /** A lookup finds exactly the keys of the table. */
  lemma {:induction false} LookupFindsKeys<V>(entries: seq<(string, V)>, key: string)
    ensures Lookup(entries, key).Some? <==> key in Keys(entries)
  {
    if key in Keys(entries) {
      var i :| 0 <= i < |entries| && Keys(entries)[i] == key;
      assert entries[i].0 == key;
    }
  }

  /** The nine device presets used when no device list is given. */
  function DefaultDevices(): (names: seq<string>)
    ensures |names| == 9
    ensures forall i, j :: 0 <= i < j < |names| ==> names[i] != names[j]
    ensures IosDevice in names && AndroidDevice in names
  {
    [ "iPhone 15 Pro", "iPhone 13", "iPhone SE (3rd generation)", "Pixel 7", "Galaxy S9+",
      "iPad Pro 11", "Desktop Chrome", "Desktop Safari", "Desktop Firefox" ]
  }
}
