/**
 * The parameters of a token-endpoint request (`OpenIdConnectMessage.Parameters`):
 * a dictionary from parameter name to value, enumerated in insertion order
 * when the form body is built. It is modelled as a sequence of name/value
 * pairs with distinct names; names are compared exactly (ordinal).
 */
module FormParameters {
  import opened Wrappers

  datatype Parameter = Parameter(name: string, value: string)

  const ClientIdName: string := "client_id"
  const ClientSecretName: string := "client_secret"

  predicate HasName(ps: seq<Parameter>, name: string) {
    exists i :: 0 <= i < |ps| && ps[i].name == name
  }

  predicate DistinctNames(ps: seq<Parameter>) {
    forall i, j :: 0 <= i < j < |ps| ==> ps[i].name != ps[j].name
  }

  /** The value stored under `name`, or None when the dictionary has no such key. */
  function Lookup(ps: seq<Parameter>, name: string): (r: Option<string>)
    ensures r.Some? <==> HasName(ps, name)
    ensures r.Some? ==> Parameter(name, r.value) in ps
  {
    if ps == [] then None
    else if ps[0].name == name then Some(ps[0].value)
    else
      assert forall i :: 0 < i < |ps| ==> ps[i] == ps[1..][i - 1];
      Lookup(ps[1..], name)
  }

  /** The dictionary after `Remove(name)`: the entry for `name`, if any, is gone. */
  function Without(ps: seq<Parameter>, name: string): (r: seq<Parameter>)
    ensures |r| <= |ps|
    ensures forall i :: 0 <= i < |r| ==> r[i].name != name && r[i] in ps
  {
    if ps == [] then []
    else (if ps[0].name == name then [] else [ps[0]]) + Without(ps[1..], name)
  }

  /** Removal keeps exactly the entries under other names, and adds none. */
  lemma {:induction false} WithoutMembers(ps: seq<Parameter>, name: string, p: Parameter)
    ensures p in Without(ps, name) <==> p in ps && p.name != name
  {
    if ps != [] {
      WithoutMembers(ps[1..], name, p);
      assert ps == [ps[0]] + ps[1..];
    }
  }

  /** After removal `name` is absent, and every other name keeps its value. */
  lemma {:induction false} WithoutLookup(ps: seq<Parameter>, name: string, key: string)
    ensures Lookup(Without(ps, name), key) == if key == name then None else Lookup(ps, key)
  {
    if ps != [] {
      WithoutLookup(ps[1..], name, key);
      var head := if ps[0].name == name then [] else [ps[0]];
      assert Without(ps, name) == head + Without(ps[1..], name);
      if head != [] {
        assert (head + Without(ps[1..], name))[1..] == Without(ps[1..], name);
      } else {
        assert head + Without(ps[1..], name) == Without(ps[1..], name);
      }
    }
  }

  /** Removing a name that is not there changes nothing. */
  lemma {:induction false} WithoutAbsent(ps: seq<Parameter>, name: string)
    requires !HasName(ps, name)
    ensures Without(ps, name) == ps
  {
    if ps != [] {
      assert ps[0].name != name;
      assert forall i :: 0 <= i < |ps[1..]| ==> ps[1..][i] == ps[i + 1];
      WithoutAbsent(ps[1..], name);
      assert ps == [ps[0]] + ps[1..];
    }
  }

  /** Removal keeps the order of the entries that stay. */
  lemma {:induction false} WithoutAppend(xs: seq<Parameter>, ys: seq<Parameter>, name: string)
    ensures Without(xs + ys, name) == Without(xs, name) + Without(ys, name)
  {
    if xs == [] {
      assert xs + ys == ys;
    } else {
      assert (xs + ys)[0] == xs[0];
      assert (xs + ys)[1..] == xs[1..] + ys;
      WithoutAppend(xs[1..], ys, name);
    }
  }

  /**
   * With distinct names, removal drops at most one entry: exactly one when
   * the name is present, none otherwise.
   */
  lemma {:induction false} WithoutCount(ps: seq<Parameter>, name: string)
    requires DistinctNames(ps)
    ensures |Without(ps, name)| == |ps| - (if HasName(ps, name) then 1 else 0)
  {
    if ps != [] {
      assert DistinctNames(ps[1..]) by {
        forall i, j | 0 <= i < j < |ps[1..]|
          ensures ps[1..][i].name != ps[1..][j].name
        {
          assert ps[1..][i] == ps[i + 1] && ps[1..][j] == ps[j + 1];
        }
      }
      if ps[0].name == name {
        assert !HasName(ps[1..], name) by {
          forall i | 0 <= i < |ps[1..]|
            ensures ps[1..][i].name != name
          {
            assert ps[1..][i] == ps[i + 1];
          }
        }
        WithoutAbsent(ps[1..], name);
      } else {
        WithoutCount(ps[1..], name);
        assert HasName(ps, name) == HasName(ps[1..], name) by {
          if HasName(ps, name) {
            var i :| 0 <= i < |ps| && ps[i].name == name;
            assert ps[1..][i - 1] == ps[i];
          }
          if HasName(ps[1..], name) {
            var i :| 0 <= i < |ps[1..]| && ps[1..][i].name == name;
            assert ps[i + 1] == ps[1..][i];
          }
        }
      }
    }
  }

  /** Removal keeps the dictionary's names distinct. */
  lemma {:induction false} WithoutDistinct(ps: seq<Parameter>, name: string)
    requires DistinctNames(ps)
    ensures DistinctNames(Without(ps, name))
  {
    if ps != [] {
      var rest := Without(ps[1..], name);
      WithoutDistinct(ps[1..], name);
      if ps[0].name != name {
        forall k | 0 <= k < |rest|
          ensures rest[k].name != ps[0].name
        {
          WithoutMembers(ps[1..], name, rest[k]);
        }
        assert Without(ps, name) == [ps[0]] + rest;
      }
    }
  }

  /**
   * The parameters that go into the form body: `client_id` and
   * `client_secret` removed, one after the other.
   */
  function StripClientCredentials(ps: seq<Parameter>): (r: seq<Parameter>)
    ensures |r| <= |ps|
    ensures forall i :: 0 <= i < |r| ==> r[i].name != ClientIdName && r[i].name != ClientSecretName
  {
    Without(Without(ps, ClientIdName), ClientSecretName)
  }

  /** Neither credential name survives stripping, whether or not it was present. */
  lemma StripRemovesCredentials(ps: seq<Parameter>)
    ensures !HasName(StripClientCredentials(ps), ClientIdName)
    ensures !HasName(StripClientCredentials(ps), ClientSecretName)
  {
    WithoutLookup(Without(ps, ClientIdName), ClientSecretName, ClientIdName);
    WithoutLookup(ps, ClientIdName, ClientIdName);
    WithoutLookup(Without(ps, ClientIdName), ClientSecretName, ClientSecretName);
  }

  /** Stripping changes nothing else: other names keep their values, and no entry is added. */
  lemma StripKeepsOthers(ps: seq<Parameter>, key: string, p: Parameter)
    requires key != ClientIdName && key != ClientSecretName
    ensures Lookup(StripClientCredentials(ps), key) == Lookup(ps, key)
    ensures p in StripClientCredentials(ps) <==> p in ps && p.name != ClientIdName && p.name != ClientSecretName
  {
    WithoutLookup(ps, ClientIdName, key);
    WithoutLookup(Without(ps, ClientIdName), ClientSecretName, key);
    WithoutMembers(ps, ClientIdName, p);
    WithoutMembers(Without(ps, ClientIdName), ClientSecretName, p);
  }

  /** Stripping a dictionary without credentials leaves it as it is; hence stripping twice is stripping once. */
  lemma StripIdempotent(ps: seq<Parameter>)
    ensures !HasName(ps, ClientIdName) && !HasName(ps, ClientSecretName) ==> StripClientCredentials(ps) == ps
    ensures StripClientCredentials(StripClientCredentials(ps)) == StripClientCredentials(ps)
  {
    if !HasName(ps, ClientIdName) && !HasName(ps, ClientSecretName) {
      WithoutAbsent(ps, ClientIdName);
      WithoutAbsent(ps, ClientSecretName);
    }
    StripRemovesCredentials(ps);
    var stripped := StripClientCredentials(ps);
    WithoutAbsent(stripped, ClientIdName);
    WithoutAbsent(stripped, ClientSecretName);
  }

  /** The mutable parameter dictionary of a pending token request. */
  class ParameterDictionary {
    var entries: seq<Parameter>

    ghost predicate Valid()
      reads this
    {
      DistinctNames(entries)
    }

    constructor (initial: seq<Parameter>)
      requires DistinctNames(initial)
      ensures Valid() && entries == initial
    {
      entries := initial;
    }

    /**
     * `Dictionary.Remove`: drops the entry for `name` in place and reports
     * whether there was one.
     */
    method Remove(name: string) returns (removed: bool)
      requires Valid()
      modifies this
      ensures Valid()
      ensures removed == HasName(old(entries), name)
      ensures entries == Without(old(entries), name)
      ensures |entries| == |old(entries)| - (if removed then 1 else 0)
    {
      removed := HasName(entries, name);
      WithoutDistinct(entries, name);
      WithoutCount(entries, name);
      entries := Without(entries, name);
    }
  }
}
