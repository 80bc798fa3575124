/** Provider secrets and the mapping of their keys to the keys of the target Secret. */
module Provider {
  import opened Prelude
  import opened Api

  type Secret = map<string, string>

  datatype ProviderError = CallFailed | KeyNotFound(key: string)

  /** The specification of `MapKeys`: mappings apply in order, the first missing key fails. */
  function Mapped(secret: Secret, mappings: seq<KeyMapping>): Result<Secret, ProviderError> {
    if mappings == [] then Ok(map[])
    else
      match Mapped(secret, mappings[..|mappings| - 1])
      case Err(e) => Err(e)
      case Ok(m) =>
        var k := Prelude.Last(mappings);
        if k.providerKey in secret then Ok(m[k.secretKey := secret[k.providerKey]])
        else Err(KeyNotFound(k.providerKey))
  }

  function SecretKeys(mappings: seq<KeyMapping>): (r: seq<string>)
    ensures |r| == |mappings| && forall i :: 0 <= i < |r| ==> r[i] == mappings[i].secretKey
  {
    seq(|mappings|, i requires 0 <= i < |mappings| => mappings[i].secretKey)
  }

  /** The last mapping that names `key`, if any. */
  ghost predicate LastNaming(mappings: seq<KeyMapping>, key: string, i: nat) {
    && i < |mappings| && mappings[i].secretKey == key
    && forall j :: i < j < |mappings| ==> mappings[j].secretKey != key
  }

  /** The first mapping whose provider key the secret lacks. */
  ghost predicate FirstMissing(secret: Secret, mappings: seq<KeyMapping>, i: nat) {
    && i < |mappings| && mappings[i].providerKey !in secret
    && forall j :: 0 <= j < i ==> mappings[j].providerKey in secret
  }

  lemma {:induction false} MappedIff(secret: Secret, mappings: seq<KeyMapping>)
    ensures Mapped(secret, mappings).Ok? <==> forall m :: m in mappings ==> m.providerKey in secret
    ensures Mapped(secret, mappings).Err? ==>
      exists i: nat ::
        FirstMissing(secret, mappings, i) && Mapped(secret, mappings) == Err(KeyNotFound(mappings[i].providerKey))
  {
    if mappings != [] {
      var front := mappings[..|mappings| - 1];
      MappedIff(secret, front);
      assert mappings == front + [Prelude.Last(mappings)];
      if Mapped(secret, front).Err? {
        var i: nat :| FirstMissing(secret, front, i) && Mapped(secret, front) == Err(KeyNotFound(front[i].providerKey));
        assert FirstMissing(secret, mappings, i);
      } else if Prelude.Last(mappings).providerKey !in secret {
        forall j | 0 <= j < |mappings| - 1 ensures mappings[j].providerKey in secret {
          assert mappings[j] == front[j] && front[j] in front;
        }
        assert FirstMissing(secret, mappings, |front|);
      }
    }
  }

  /** A mapped Secret has exactly the requested keys, and each holds what the last mapping naming it asked for. */
  lemma {:induction false} MappedContents(secret: Secret, mappings: seq<KeyMapping>)
    requires Mapped(secret, mappings).Ok?
    ensures Mapped(secret, mappings).value.Keys == Elements(SecretKeys(mappings))
    ensures forall i :: 0 <= i < |mappings| ==> mappings[i].providerKey in secret
    ensures forall key, i: nat :: LastNaming(mappings, key, i) ==>
      key in Mapped(secret, mappings).value && Mapped(secret, mappings).value[key] == secret[mappings[i].providerKey]
  {
    if mappings != [] {
      var n := |mappings| - 1;
      var front := mappings[..n];
      MappedContents(secret, front);
      assert SecretKeys(mappings) == SecretKeys(front) + [mappings[n].secretKey];
      forall key, i: nat | LastNaming(mappings, key, i)
        ensures key in Mapped(secret, mappings).value
          && Mapped(secret, mappings).value[key] == secret[mappings[i].providerKey]
      {
        if i < n {
          assert LastNaming(front, key, i);
        }
      }
    }
  }

  /** Fills the result one mapping at a time, giving up at the first missing provider key. */
  method MapKeys(secret: Secret, mappings: seq<KeyMapping>) returns (r: Result<Secret, ProviderError>)
    ensures r == Mapped(secret, mappings)
    ensures r.Ok? <==> forall m :: m in mappings ==> m.providerKey in secret
    ensures r.Ok? ==> r.value.Keys == Elements(SecretKeys(mappings))
    ensures r.Ok? ==> forall key, i: nat :: LastNaming(mappings, key, i) ==>
      && i < |mappings| && mappings[i].providerKey in secret
      && key in r.value && r.value[key] == secret[mappings[i].providerKey]
  {
    var result: Secret := map[];
    for i := 0 to |mappings|
      invariant Mapped(secret, mappings[..i]) == Ok(result)
    {
      assert mappings[..i + 1][..i] == mappings[..i];
      if mappings[i].providerKey !in secret {
        FailureIsFinal(secret, mappings, i + 1);
        MappedIff(secret, mappings);
        return Err(KeyNotFound(mappings[i].providerKey));
      }
      result := result[mappings[i].secretKey := secret[mappings[i].providerKey]];
    }
    assert mappings[..|mappings|] == mappings;
    MappedIff(secret, mappings);
    MappedContents(secret, mappings);
    return Ok(result);
  }

  lemma {:induction false} FailureIsFinal(secret: Secret, mappings: seq<KeyMapping>, i: nat)
    requires i <= |mappings| && Mapped(secret, mappings[..i]).Err?
    ensures Mapped(secret, mappings) == Mapped(secret, mappings[..i])
    decreases |mappings|
  {
    if i < |mappings| {
      var front := mappings[..|mappings| - 1];
      assert front[..i] == mappings[..i];
      FailureIsFinal(secret, front, i);
    } else {
      assert mappings[..i] == mappings;
    }
  }
}
