/**
 * Screenshot file names: `<engine>_<sanitised device>.png` for the standard
 * matrix and `inapp_<key>.png` for in-app identities.
 */
module Naming {
  import opened Strings

  predicate IsAsciiAlnum(c: char)
  {
    ('a' <= c <= 'z') || ('A' <= c <= 'Z') || ('0' <= c <= '9')
  }

  /** `name.replace(/[^a-zA-Z0-9]/g, '_')`: same length, letters and digits
      kept, every other character replaced by an underscore. */
  function Sanitize(name: string): (r: string)
    ensures |r| == |name|
    ensures forall i :: 0 <= i < |name| ==> (IsAsciiAlnum(name[i]) ==> r[i] == name[i])
    ensures forall i :: 0 <= i < |name| ==> (!IsAsciiAlnum(name[i]) ==> r[i] == '_')
  {
    seq(|name|, i requires 0 <= i < |name| => if IsAsciiAlnum(name[i]) then name[i] else '_')
  }

  /** A sanitised name uses only letters, digits and underscores, and
      sanitising it again changes nothing. */
  lemma SanitizeIdempotent(name: string)
    ensures forall i :: 0 <= i < |Sanitize(name)| ==> IsAsciiAlnum(Sanitize(name)[i]) || Sanitize(name)[i] == '_'
    ensures Sanitize(Sanitize(name)) == Sanitize(name)
  {
  }

  /** Two device names share a sanitised form exactly when they agree on
      every letter and digit position and have the same length. */
  lemma SanitizeCollides(a: string, b: string)
    ensures Sanitize(a) == Sanitize(b) <==>
              |a| == |b| && forall i :: 0 <= i < |a| ==>
                (IsAsciiAlnum(a[i]) || IsAsciiAlnum(b[i]) ==> a[i] == b[i])
  {
    if Sanitize(a) == Sanitize(b) {
      forall i | 0 <= i < |a| && (IsAsciiAlnum(a[i]) || IsAsciiAlnum(b[i]))
        ensures a[i] == b[i]
      {
        assert Sanitize(a)[i] == Sanitize(b)[i];
      }
    }
  }

  const PngSuffix := ".png"
  const InAppPrefix := "inapp_"

  /** The file name of a standard capture. */
  function StandardFilename(engine: string, deviceName: string): (f: string)
    ensures |f| == |engine| + |deviceName| + 5
    ensures f[..|engine|] == engine && f[|engine|] == '_'
    ensures f[|engine| + 1..|f| - 4] == Sanitize(deviceName)
    ensures f[|f| - 4..] == PngSuffix
  {
    engine + "_" + Sanitize(deviceName) + PngSuffix
  }

  /** The file name of an in-app capture. */
  function InAppFilename(key: string): (f: string)
    ensures |f| == |key| + 10 && StartsWith(f, InAppPrefix)
    ensures f[|InAppPrefix|..|f| - 4] == key && f[|f| - 4..] == PngSuffix
  {
    InAppPrefix + key + PngSuffix
  }

  /** For one engine, two devices get the same standard file exactly when
      their sanitised names agree; the engine and device are read back from
      the name. */
  lemma StandardFilenameInjective(engine: string, d1: string, d2: string)
    ensures StandardFilename(engine, d1) == StandardFilename(engine, d2) <==> Sanitize(d1) == Sanitize(d2)
  {
    var f1, f2 := StandardFilename(engine, d1), StandardFilename(engine, d2);
    if f1 == f2 {
      assert Sanitize(d1) == f1[|engine| + 1..|f1| - 4];
    }
  }

  /** Two in-app captures share a file exactly when they share a key. */
  lemma InAppFilenameInjective(k1: string, k2: string)
    ensures InAppFilename(k1) == InAppFilename(k2) <==> k1 == k2
  {
    if InAppFilename(k1) == InAppFilename(k2) {
      var f := InAppFilename(k1);
      assert k1 == f[|InAppPrefix|..|f| - 4];
    }
  }

  /** A standard file of a launchable engine never overwrites an in-app file:
      "chromium_", "webkit_" and "firefox_" do not start with "inapp_". */
  lemma StandardAndInAppNamesDiffer(engine: string, deviceName: string, key: string)
    requires engine in {"chromium", "webkit", "firefox"}
    ensures StandardFilename(engine, deviceName) != InAppFilename(key)
  {
    var f := StandardFilename(engine, deviceName);
    assert f[0] != 'i';
    assert InAppFilename(key)[0] == 'i';
  }
}
