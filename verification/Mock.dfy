/** The deterministic provider: versioned values from a counter of rotations. */
module Mock {
  import opened Clock
  import opened Decimal
  import opened Provider
  import Api

  const PROVIDER_NAME := "mock"

  /** A two's complement 64-bit increment, as the atomic counter performs it. */
  function Increment(n: Duration): Duration {
    if n == MAX_DURATION then MIN_DURATION else n + 1
  }

  function Prefix(params: map<string, string>): string {
    if "prefix" in params && params["prefix"] != "" then params["prefix"] else PROVIDER_NAME
  }

  function Tagged(text: string, n: int): string {
    text + "v" + Itoa(n)
  }

  function Password(prefix: string, n: int): string {
    Tagged(prefix + "-password-", n)
  }

  function ApiKey(prefix: string, n: int): string {
    Tagged(prefix + "-apikey-", n)
  }

  function Values(params: map<string, string>, n: int): Secret {
    var prefix := Prefix(params);
    map["password" := Password(prefix, n), "username" := prefix + "-user", "apiKey" := ApiKey(prefix, n)]
  }

  lemma TextsAre(prefix: string, n: int)
    ensures Password(prefix, n) == prefix + "-password-v" + Itoa(n)
    ensures ApiKey(prefix, n) == prefix + "-apikey-v" + Itoa(n)
  {
    assert prefix + "-password-" + "v" == prefix + "-password-v";
    assert prefix + "-apikey-" + "v" == prefix + "-apikey-v";
  }

  class Mock {
    var rotateCount: Duration

    constructor ()
      ensures rotateCount == 0
    {
      rotateCount := 0;
    }

    method FetchSecret(params: map<string, string>) returns (secret: Secret)
      ensures secret == Values(params, rotateCount)
      ensures var prefix := if "prefix" in params && params["prefix"] != "" then params["prefix"] else "mock";
        secret == map["username" := prefix + "-user", "password" := prefix + "-password-v" + Itoa(rotateCount),
                      "apiKey" := prefix + "-apikey-v" + Itoa(rotateCount)]
    {
      var prefix := if "prefix" in params then params["prefix"] else "";
      if prefix == "" {
        prefix := PROVIDER_NAME;
      }
      var n := rotateCount;
      TextsAre(prefix, n);
      secret := map["password" := Password(prefix, n), "username" := prefix + "-user", "apiKey" := ApiKey(prefix, n)];
    }

    /** Short of overflow, each rotation carries a greater version than every earlier one. */
    method RotateSecret(params: map<string, string>) returns (secret: Secret)
      modifies this
      ensures rotateCount == Increment(old(rotateCount))
      ensures secret == Values(params, rotateCount)
      ensures var prefix := if "prefix" in params && params["prefix"] != "" then params["prefix"] else "mock";
        secret == map["username" := prefix + "-user", "password" := prefix + "-password-v" + Itoa(rotateCount),
                      "apiKey" := prefix + "-apikey-v" + Itoa(rotateCount)]
      ensures old(rotateCount) < MAX_DURATION ==> rotateCount > old(rotateCount)
      ensures old(rotateCount) < MAX_DURATION ==>
        forall earlier: map<string, string>, n: int :: n <= old(rotateCount) ==>
          Values(earlier, n)["password"] != secret["password"] && Values(earlier, n)["apiKey"] != secret["apiKey"]
    {
      rotateCount := Increment(rotateCount);
      var n := rotateCount;
      var prefix := if "prefix" in params then params["prefix"] else "";
      if prefix == "" {
        prefix := PROVIDER_NAME;
      }
      TextsAre(prefix, n);
      secret := map["password" := Password(prefix, n), "username" := prefix + "-user", "apiKey" := ApiKey(prefix, n)];
      forall earlier: map<string, string>, m: int | old(rotateCount) < MAX_DURATION && m <= old(rotateCount)
        ensures Values(earlier, m)["password"] != secret["password"] && Values(earlier, m)["apiKey"] != secret["apiKey"]
      {
        VersionsAreDistinct(earlier, m, params, n);
      }
    }
  }

  lemma LastLetterOfTagged(text: string, n: int)
    ensures var s := Tagged(text, n);
            s[|text|] == 'v' && s[|text| + 1..] == Itoa(n) && forall k :: |text| < k < |s| ==> s[k] != 'v'
  {
    var s := Tagged(text, n);
    assert s[|text| + 1..] == Itoa(n);
    NumeralHasNoLetter(n);
    forall k | |text| < k < |s| ensures s[k] != 'v' {
      assert s[k] == Itoa(n)[k - |text| - 1];
    }
  }

  lemma NumeralHasNoLetter(n: int)
    ensures forall k :: 0 <= k < |Itoa(n)| ==> Itoa(n)[k] != 'v'
  {
    forall k | 0 <= k < |Itoa(n)| ensures Itoa(n)[k] != 'v' {
      var d := Digits(if n < 0 then -n else n);
      var j := if n < 0 then k - 1 else k;
      if j >= 0 {
        assert d[j] in d;
      }
    }
  }

  /** Whatever text comes before the version, two tagged texts agree only when their versions do. */
  lemma TagIsInjective(x: string, a: int, y: string, b: int)
    requires Tagged(x, a) == Tagged(y, b)
    ensures a == b
  {
    LastLetterOfTagged(x, a);
    LastLetterOfTagged(y, b);
    ItoaIsInjective(a, b);
  }

  /** Passwords and API keys of different versions differ, even under different prefixes. */
  lemma VersionsAreDistinct(params: map<string, string>, a: int, params': map<string, string>, b: int)
    requires a != b
    ensures Values(params, a)["password"] != Values(params', b)["password"]
    ensures Values(params, a)["apiKey"] != Values(params', b)["apiKey"]
  {
    var p, q := Prefix(params), Prefix(params');
    if Password(p, a) == Password(q, b) {
      TagIsInjective(p + "-password-", a, q + "-password-", b);
    }
    if ApiKey(p, a) == ApiKey(q, b) {
      TagIsInjective(p + "-apikey-", a, q + "-apikey-", b);
    }
  }

  /** A target key whose deciding mapping takes the password or the API key. */
  ghost predicate Versioned(keys: seq<Api.KeyMapping>, key: string) {
    exists i: nat :: LastNaming(keys, key, i) && keys[i].providerKey in {"password", "apiKey"}
  }

  /** Mapped data of two different versions always differ, whatever mappings take the versioned values. */
  lemma MappedVersionsDiffer(key: string, keys: seq<Api.KeyMapping>, params: map<string, string>, a: int,
                             keys': seq<Api.KeyMapping>, params': map<string, string>, b: int)
    requires a != b && Versioned(keys, key) && Versioned(keys', key)
    requires Mapped(Values(params, a), keys).Ok? && Mapped(Values(params', b), keys').Ok?
    ensures Mapped(Values(params, a), keys).value != Mapped(Values(params', b), keys').value
  {
    var i: nat :| LastNaming(keys, key, i) && keys[i].providerKey in {"password", "apiKey"};
    var j: nat :| LastNaming(keys', key, j) && keys'[j].providerKey in {"password", "apiKey"};
    MappedContents(Values(params, a), keys);
    MappedContents(Values(params', b), keys');
    VersionedValuesDiffer(params, a, keys[i].providerKey, params', b, keys'[j].providerKey);
  }

  lemma VersionedValuesDiffer(params: map<string, string>, a: int, k: string,
                              params': map<string, string>, b: int, k': string)
    requires a != b && k in {"password", "apiKey"} && k' in {"password", "apiKey"}
    ensures k in Values(params, a) && k' in Values(params', b) && Values(params, a)[k] != Values(params', b)[k']
  {
    var x := Prefix(params) + if k == "password" then "-password-" else "-apikey-";
    var y := Prefix(params') + if k' == "password" then "-password-" else "-apikey-";
    assert Values(params, a)[k] == Tagged(x, a) && Values(params', b)[k'] == Tagged(y, b);
    if Tagged(x, a) == Tagged(y, b) {
      TagIsInjective(x, a, y, b);
    }
  }
}
