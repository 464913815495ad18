/**
 * In-app identity key resolution: each requested key expands to every
 * registry key that contains it, in registry order; when nothing matches the
 * literal key is looked up, and it is skipped when the registry lacks it.
 * The registry is a parameter; `Browsers.InAppRegistry` is the built-in one.
 */
module Spoof {
  import opened Wrappers
  import opened Strings
  import opened Browsers

  type Registry = seq<(string, InApp)>

  /** The source's match test, `k.startsWith(key) || k.includes(key)`. */
  predicate KeyMatches(k: string, key: string)
  {
    StartsWith(k, key) || Contains(k, key)
  }

  /** `a` is `b` with some elements left out, order kept. */
  predicate IsSubsequence<T(==)>(a: seq<T>, b: seq<T>)
    decreases |b|
  {
    if |a| == 0 then true
    else if |b| == 0 then false
    else (a[0] == b[0] && IsSubsequence(a[1..], b[1..])) || IsSubsequence(a, b[1..])
  }

  /** The keys that match `key`, in the order given. */
  function MatchingKeys(key: string, keys: seq<string>): (m: seq<string>)
    ensures |m| <= |keys|
  {
    if |keys| == 0 then []
    else
      var rest := MatchingKeys(key, keys[1..]);
      if KeyMatches(keys[0], key) then [keys[0]] + rest else rest
  }

  /** The matching keys are exactly the given keys that contain the requested
      key (the `startsWith` test adds nothing), and they keep their order. */
  lemma {:induction false} MatchingKeysIff(key: string, keys: seq<string>)
    ensures forall k :: k in MatchingKeys(key, keys) <==> k in keys && Contains(k, key)
    ensures IsSubsequence(MatchingKeys(key, keys), keys)
  {
    if |keys| > 0 {
      MatchingKeysIff(key, keys[1..]);
      StartsWithImpliesContains(keys[0], key);
      var rest := MatchingKeys(key, keys[1..]);
      if KeyMatches(keys[0], key) {
        assert [keys[0]] + rest == MatchingKeys(key, keys);
        assert ([keys[0]] + rest)[1..] == rest;
      } else {
        SubsequenceOfTail(rest, keys);
      }
    }
  }

  /** Dropping the head of the longer sequence keeps a subsequence one. */
  lemma {:induction false} SubsequenceOfTail<T>(a: seq<T>, b: seq<T>)
    requires |b| > 0 && IsSubsequence(a, b[1..])
    ensures IsSubsequence(a, b)
  {
  }

  /** The matching registry keys, or the literal key when nothing matches. */
  function KeysToUse(reg: Registry, key: string): (ks: seq<string>)
    ensures |ks| >= 1
  {
    var m := MatchingKeys(key, Keys(reg));
    if |m| > 0 then m else [key]
  }

  /** Keeps the keys that are in the registry, paired with their identity. */
  function LookupAll(reg: Registry, ks: seq<string>): (found: seq<(string, InApp)>)
    ensures |found| <= |ks|
    ensures forall e :: e in found <==> e.0 in ks && Lookup(reg, e.0) == Some(e.1)
  {
    if |ks| == 0 then []
    else
      var rest := LookupAll(reg, ks[1..]);
      match Lookup(reg, ks[0])
      case Some(p) => [(ks[0], p)] + rest
      case None => rest
  }

  /** The identities one requested key resolves to: exactly the registry
      entries whose key contains it, one per matching key. */
  function ResolveKey(reg: Registry, key: string): (r: seq<(string, InApp)>)
    ensures forall e :: e in r <==> Lookup(reg, e.0) == Some(e.1) && Contains(e.0, key)
    ensures |r| == |MatchingKeys(key, Keys(reg))|
  {
    ResolvesToMatches(reg, key);
    LookupAll(reg, KeysToUse(reg, key))
  }

  lemma ResolvesToMatches(reg: Registry, key: string)
    ensures forall e :: e in LookupAll(reg, KeysToUse(reg, key)) <==> Lookup(reg, e.0) == Some(e.1) && Contains(e.0, key)
    ensures |LookupAll(reg, KeysToUse(reg, key))| == |MatchingKeys(key, Keys(reg))|
  {
    FallbackNeverResolves(reg, key);
    MatchingKeysIff(key, Keys(reg));
    LookupAllKeys(reg, MatchingKeys(key, Keys(reg)));
    forall e: (string, InApp) | Lookup(reg, e.0) == Some(e.1)
      ensures e.0 in Keys(reg)
    {
      LookupFindsKeys(reg, e.0);
    }
  }

  /** The literal fallback never resolves: a registry key always contains
      itself, so a key with no match is never in the registry. */
  lemma FallbackNeverResolves(reg: Registry, key: string)
    ensures MatchingKeys(key, Keys(reg)) == [] ==> Lookup(reg, key).None?
  {
    ContainsSelf(key);
    LookupFindsKeys(reg, key);
    MatchingKeysIff(key, Keys(reg));
  }

  /** A key resolves to exactly the registry entries whose key contains it,
      one per matching key in registry order; case matters and an exact
      match has no priority. */
  lemma ResolveKeyIff(reg: Registry, key: string, e: (string, InApp))
    ensures e in ResolveKey(reg, key) <==> Lookup(reg, e.0) == Some(e.1) && Contains(e.0, key)
    ensures |ResolveKey(reg, key)| == |MatchingKeys(key, Keys(reg))|
  {
    FallbackNeverResolves(reg, key);
    MatchingKeysIff(key, Keys(reg));
    var m := MatchingKeys(key, Keys(reg));
    LookupAllKeys(reg, m);
    if Lookup(reg, e.0) == Some(e.1) {
      LookupFindsKeys(reg, e.0);
    }
  }

  /** Every key drawn from the registry is found in it. */
  lemma {:induction false} LookupAllKeys(reg: Registry, ks: seq<string>)
    requires forall k :: k in ks ==> k in Keys(reg)
    ensures |LookupAll(reg, ks)| == |ks|
    ensures forall i :: 0 <= i < |ks| ==> LookupAll(reg, ks)[i].0 == ks[i]
  {
    if |ks| > 0 {
      LookupFindsKeys(reg, ks[0]);
      LookupAllKeys(reg, ks[1..]);
    }
  }

  /** `--ua-spoof`: every requested key in turn, duplicates kept. */
  function ResolveSpoofKeys(reg: Registry, keys: seq<string>): (found: seq<(string, InApp)>)
    ensures forall e :: e in found ==> Lookup(reg, e.0) == Some(e.1)
  {
    if |keys| == 0 then []
    else ResolveKey(reg, keys[0]) + ResolveSpoofKeys(reg, keys[1..])
  }

  /** An identity is captured exactly when some requested key is contained in
      its registry key. */
  lemma {:induction false} ResolveSpoofKeysIff(reg: Registry, keys: seq<string>, e: (string, InApp))
    ensures e in ResolveSpoofKeys(reg, keys) <==>
              Lookup(reg, e.0) == Some(e.1) && exists i :: 0 <= i < |keys| && Contains(e.0, keys[i])
  {
    if |keys| > 0 {
      ResolveKeyIff(reg, keys[0], e);
      ResolveSpoofKeysIff(reg, keys[1..], e);
      if exists i :: 0 <= i < |keys| && Contains(e.0, keys[i]) {
        var i :| 0 <= i < |keys| && Contains(e.0, keys[i]);
        if i > 0 {
          assert keys[1..][i - 1] == keys[i];
        }
      }
      if exists i :: 0 <= i < |keys[1..]| && Contains(e.0, keys[1..][i]) {
        var i :| 0 <= i < |keys[1..]| && Contains(e.0, keys[1..][i]);
        assert keys[i + 1] == keys[1..][i];
      }
    }
  }

  /** Requesting the same key twice captures its identities twice. */
  lemma DuplicatesKept(reg: Registry, key: string)
    ensures ResolveSpoofKeys(reg, [key, key]) == ResolveKey(reg, key) + ResolveKey(reg, key)
  {
    assert [key, key][1..] == [key];
    assert [key][1..] == [];
    assert ResolveSpoofKeys(reg, [key]) == ResolveKey(reg, key) + [];
  }

  /** A key made of characters a registry key lacks does not match it. */
  lemma NoMatchByChar(k: string, key: string, c: char)
    requires c in key && c !in k
    ensures !Contains(k, key)
  {
    if Contains(k, key) {
      ContainsChars(k, key, c);
    }
  }

  /** The keys of the built-in registry, in declaration order. */
  lemma RegistryKeys()
    ensures Keys(InAppRegistry()) == ["facebook_ios", "facebook_android", "instagram_ios", "instagram_android",
                                      "tiktok_ios", "tiktok_android", "wechat", "line", "twitter_ios", "snapchat"]
  {
  }

  /** No key in the list contains `key`, shown by one character each lacks. */
  lemma {:induction false} NoneMatch(keys: seq<string>, key: string, c: char)
    requires c in key && forall i :: 0 <= i < |keys| ==> c !in keys[i]
    ensures MatchingKeys(key, keys) == []
  {
    if |keys| > 0 {
      NoMatchByChar(keys[0], key, c);
      StartsWithImpliesContains(keys[0], key);
      NoneMatch(keys[1..], key, c);
    }
  }

  /** A first key that starts with the requested key is kept. */
  lemma MatchHead(key: string, keys: seq<string>)
    requires |keys| > 0 && StartsWith(keys[0], key)
    ensures MatchingKeys(key, keys) == [keys[0]] + MatchingKeys(key, keys[1..])
  {
  }

  /** Two leading keys that start with the requested key, then no match. */
  lemma TwoLeadingMatches(k0: string, k1: string, rest: seq<string>, key: string)
    requires StartsWith(k0, key) && StartsWith(k1, key)
    requires MatchingKeys(key, rest) == []
    ensures MatchingKeys(key, [k0, k1] + rest) == [k0, k1]
  {
    MatchHead(key, [k1] + rest);
    assert ([k1] + rest)[1..] == rest;
    MatchHead(key, [k0, k1] + rest);
    assert ([k0, k1] + rest)[1..] == [k1] + rest;
  }

  /** The registry keys a resolution yields are the matching keys, when they
      all come from the registry. */
  lemma ResolvedKeys(reg: Registry, key: string)
    requires |MatchingKeys(key, Keys(reg))| > 0
    ensures Keys(ResolveKey(reg, key)) == MatchingKeys(key, Keys(reg))
  {
    MatchingKeysIff(key, Keys(reg));
    LookupAllKeys(reg, MatchingKeys(key, Keys(reg)));
  }

  /** Matching distributes over concatenation of key lists. */
  lemma {:induction false} MatchingKeysAppend(key: string, a: seq<string>, b: seq<string>)
    ensures MatchingKeys(key, a + b) == MatchingKeys(key, a) + MatchingKeys(key, b)
  {
    if |a| > 0 {
      assert (a + b)[1..] == a[1..] + b;
      MatchingKeysAppend(key, a[1..], b);
    } else {
      assert a + b == b;
    }
  }

  // The registry's keys in three groups, so that the scenarios below can be
  // checked a few keys at a time.
  const FacebookKeys: seq<string> := ["facebook_ios", "facebook_android"]
  const MiddleKeys: seq<string> := ["instagram_ios", "instagram_android", "tiktok_ios", "tiktok_android"]
  const LastKeys: seq<string> := ["wechat", "line", "twitter_ios", "snapchat"]

  lemma RegistryKeyGroups()
    ensures Keys(InAppRegistry()) == FacebookKeys + MiddleKeys + LastKeys
  {
    RegistryKeys();
  }

  /** Matching over three groups of keys is matching over each group. */
  lemma MatchingKeysGroups(key: string, a: seq<string>, b: seq<string>, c: seq<string>)
    ensures MatchingKeys(key, a + b + c) == MatchingKeys(key, a) + MatchingKeys(key, b) + MatchingKeys(key, c)
  {
    MatchingKeysAppend(key, a + b, c);
    MatchingKeysAppend(key, a, b);
  }

  /** "face" matches both Facebook keys ... */
  lemma FaceMatchesFacebookKeys(key: string)
    requires key == "face"
    ensures MatchingKeys(key, FacebookKeys) == FacebookKeys
  {
    TwoLeadingMatches(FacebookKeys[0], FacebookKeys[1], [], key);
    assert FacebookKeys == [FacebookKeys[0], FacebookKeys[1]] + [];
  }

  /** ... and no other key. */
  lemma FaceMissesOtherKeys(key: string)
    requires key == "face"
    ensures MatchingKeys(key, MiddleKeys) == [] && MatchingKeys(key, LastKeys) == []
  {
    NoneMatch(MiddleKeys + LastKeys, key, 'f');
    MatchingKeysAppend(key, MiddleKeys, LastKeys);
  }

  /** "face" resolves to both Facebook identities, iOS first. */
  lemma FaceResolvesToFacebook(key: string)
    requires key == "face"
    ensures Keys(ResolveKey(InAppRegistry(), key)) == ["facebook_ios", "facebook_android"]
  {
    RegistryKeyGroups();
    FaceMatchesFacebookKeys(key);
    FaceMissesOtherKeys(key);
    MatchingKeysGroups(key, FacebookKeys, MiddleKeys, LastKeys);
    ResolvedKeys(InAppRegistry(), key);
  }

  /** "wechat" matches no Facebook, Instagram or TikTok key ... */
  lemma WechatMissesEarlierKeys(key: string)
    requires key == "wechat"
    ensures MatchingKeys(key, FacebookKeys) == [] && MatchingKeys(key, MiddleKeys) == []
  {
    NoneMatch(FacebookKeys + MiddleKeys, key, 'w');
    MatchingKeysAppend(key, FacebookKeys, MiddleKeys);
  }

  /** No key in the list contains `key`, each lacking one of two of its characters. */
  lemma {:induction false} NoneMatchEither(keys: seq<string>, key: string, c: char, d: char)
    requires c in key && d in key
    requires forall i :: 0 <= i < |keys| ==> c !in keys[i] || d !in keys[i]
    ensures MatchingKeys(key, keys) == []
  {
    if |keys| > 0 {
      if c !in keys[0] {
        NoMatchByChar(keys[0], key, c);
      } else {
        NoMatchByChar(keys[0], key, d);
      }
      StartsWithImpliesContains(keys[0], key);
      NoneMatchEither(keys[1..], key, c, d);
    }
  }

  /** ... and among the last four keys only itself. */
  lemma WechatMatchesLastKeys(key: string)
    requires key == "wechat"
    ensures MatchingKeys(key, LastKeys) == ["wechat"]
  {
    NoneMatchEither(LastKeys[1..], key, 'w', 'c');
    assert StartsWith(LastKeys[0], key);
    MatchHead(key, LastKeys);
  }

  /** "wechat" resolves to the WeChat identity alone. */
  lemma WechatResolvesToItself(key: string)
    requires key == "wechat"
    ensures Keys(ResolveKey(InAppRegistry(), key)) == ["wechat"]
  {
    RegistryKeyGroups();
    WechatMissesEarlierKeys(key);
    WechatMatchesLastKeys(key);
    MatchingKeysGroups(key, FacebookKeys, MiddleKeys, LastKeys);
    ResolvedKeys(InAppRegistry(), key);
  }

  /** No identity key holds an upper-case letter or a `u`. */
  lemma RegistryKeysLack(c: char)
    requires 'A' <= c <= 'Z' || c == 'u'
    ensures forall i :: 0 <= i < |Keys(InAppRegistry())| ==> c !in Keys(InAppRegistry())[i]
  {
    FacebookKeysLack(c);
    OtherKeysLack(c);
    RegistryKeyGroups();
    var ks := FacebookKeys + MiddleKeys + LastKeys;
    forall i | 0 <= i < |ks|
      ensures c !in ks[i]
    {
      if i < |FacebookKeys| {
        assert ks[i] == FacebookKeys[i];
      } else if i < |FacebookKeys| + |MiddleKeys| {
        assert ks[i] == MiddleKeys[i - |FacebookKeys|];
      } else {
        assert ks[i] == LastKeys[i - |FacebookKeys| - |MiddleKeys|];
      }
    }
  }

  /** The Facebook keys hold no upper-case letter and no `u`. */
  lemma FacebookKeysLack(c: char)
    requires 'A' <= c <= 'Z' || c == 'u'
    ensures forall i :: 0 <= i < |FacebookKeys| ==> c !in FacebookKeys[i]
  {
  }

  /** Neither do the keys after them. */
  lemma OtherKeysLack(c: char)
    requires 'A' <= c <= 'Z' || c == 'u'
    ensures forall i :: 0 <= i < |MiddleKeys| ==> c !in MiddleKeys[i]
    ensures forall i :: 0 <= i < |LastKeys| ==> c !in LastKeys[i]
  {
  }

  /** Matching is case-sensitive: "Face" matches no key and resolves to nothing. */
  lemma CapitalisedKeyIsSkipped(key: string)
    requires key == "Face"
    ensures ResolveKey(InAppRegistry(), key) == []
  {
    RegistryKeysLack('F');
    NoneMatch(Keys(InAppRegistry()), key, 'F');
    FallbackNeverResolves(InAppRegistry(), key);
  }
}
