/**
 * Properties of the configuration store: the set/get round trip, how
 * processUserConfig treats plain and dotted keys, and what initialize hands
 * to every parameter. What a write leaves alone, and where buildDefaultConfig
 * puts each default, is stated next to them in ConfigSystem.
 */
module ConfigProperties {
  import opened Outcomes
  import opened JsonValues
  import opened Paths
  import opened ConfigSystem

  /** Reading a value back at the path it was just stored under gives that value. */
  lemma GetAfterSet(config: Json, path: string, value: AnyValue, default: AnyValue, updated: Json)
    requires Supported(value) && SameKind(default, value)
    requires SetJsonValue(config, path, value) == Success(updated)
    ensures GetJsonValue(updated, path, default) == Success(Lookup(true, value))
  {
    ConvertToJson(value, default);
  }

  /** Parameters registered under distinct plain keys with handled defaults are well formed. */
  lemma PlainParamsWellFormed(params: seq<Param>)
    requires forall i :: 0 <= i < |params| ==>
      |params[i].path| > 0 && '.' !in params[i].path && Supported(params[i].default)
    requires forall i, j :: 0 <= i < j < |params| ==> params[i].path != params[j].path
    ensures WellFormedParams(params)
  {
    forall i | 0 <= i < |params|
      ensures SplitPath(params[i].path) == [params[i].path]
    {
      SplitPlainKey(params[i].path);
    }
  }

  /** A parameter whose path holds its own default reads back exactly that default. */
  lemma ReadsDefault(config: Json, p: Param)
    requires |SplitPath(p.path)| > 0 && Supported(p.default)
    requires At(config, SplitPath(p.path)) == Some(ToJson(p.default))
    ensures GetJsonValue(config, p.path, p.default) == Success(Lookup(true, p.default))
  {
    ConvertToJson(p.default, p.default);
  }

  /**
   * applyConfig hands each parameter the configuration's value when its path
   * holds one (converted to the default's type) and the default otherwise.
   */
  lemma ApplyValueOrDefault(config: Json, params: seq<Param>, i: int)
    requires ApplyConfig(config, params).Success? && 0 <= i < |params|
    requires |SplitPath(params[i].path)| > 0
    ensures var v := ApplyConfig(config, params).value[i];
      && (At(config, SplitPath(params[i].path)).None? ==> v == params[i].default)
      && (!Supported(params[i].default) ==> v == params[i].default)
      && (At(config, SplitPath(params[i].path)).Some? && Supported(params[i].default) ==>
            Convert(At(config, SplitPath(params[i].path)).value, params[i].default) == Success(v))
  {
  }

  /** Without user settings every parameter receives its default and the active configuration is the defaults. */
  lemma InitializeWithoutUserConfig(params: seq<Param>)
    requires WellFormedParams(params)
    ensures Initialize(Null, params).Success?
    ensures Initialize(Null, params).value.config == BuildDefaultConfig(params).value
    ensures forall i :: 0 <= i < |params| ==> Initialize(Null, params).value.applied[i] == params[i].default
  {
    var defaults := BuildDefaultConfig(params).value;
    forall i | 0 <= i < |params|
      ensures GetJsonValue(defaults, params[i].path, params[i].default) == Success(Lookup(true, params[i].default))
    {
      ReadsDefault(defaults, params[i]);
    }
  }

  /**
   * After initialize, a parameter the processed user settings do not reach
   * keeps its default, and one they set to a plain value receives that value
   * converted to the default's type.
   */
  lemma InitializeOverridesDefaults(user: Json, params: seq<Param>, processed: Json, r: Configured, i: int)
    requires WellFormedParams(params) && 0 <= i < |params|
    requires ProcessUserConfig(user) == Success(processed)
    requires Initialize(user, params) == Success(r)
    ensures var q := SplitPath(params[i].path);
      (processed.Null? || !processed.Object? || Untouched(processed, q)) ==> r.applied[i] == params[i].default
    ensures var q := SplitPath(params[i].path);
      (At(processed, q).Some? && !At(processed, q).value.Null? && !At(processed, q).value.Object?) ==>
        Convert(At(processed, q).value, params[i].default) == Success(r.applied[i])
  {
    var p := params[i];
    var q := SplitPath(p.path);
    var defaults := BuildDefaultConfig(params).value;
    var final := if !processed.Null? then MergeConfig(defaults, processed) else defaults;
    assert r.config == final;
    assert r.applied[i] == GetJsonValue(final, p.path, p.default).value.value;
    if processed.Null? || (processed.Object? && Untouched(processed, q)) {
      assert At(final, q) == At(defaults, q);
      ReadsDefault(final, p);
    }
    if At(processed, q).Some? && !At(processed, q).value.Null? && !At(processed, q).value.Object? {
      MergePatchOverrides(defaults, processed, q, At(processed, q).value);
    }
  }

  /**
   * A parameter read as JSON, one the processed user settings leave to its
   * default, or one they set to a plain value of a type the default's type
   * can be read from.
   */
  ghost predicate Settled(processed: Json, p: Param)
    requires |SplitPath(p.path)| > 0 && Supported(p.default)
  {
    var q := SplitPath(p.path);
    || p.default.AJson? || processed.Null? || !processed.Object? || Untouched(processed, q)
    || (&& At(processed, q).Some? && !At(processed, q).value.Null? && !At(processed, q).value.Object?
        && Convert(At(processed, q).value, p.default).Success?)
  }

  /** A parameter read as JSON can always be read, whatever its path holds. */
  lemma JsonParamReads(config: Json, p: Param)
    requires |SplitPath(p.path)| > 0 && p.default.AJson?
    ensures GetJsonValue(config, p.path, p.default).Success?
  {
    var q := SplitPath(p.path);
    if At(config, q).Some? {
      assert Convert(At(config, q).value, p.default).Success?;
    }
  }

  /** A parameter under a plain key is settled by a user object that leaves the key out or gives it a readable plain value. */
  lemma SettledByMember(user: Json, p: Param)
    requires user.Object? && SplitPath(p.path) == [p.path] && Supported(p.default)
    requires p.path in user.fields && !p.default.AJson? ==>
      !user.fields[p.path].Null? && !user.fields[p.path].Object? && Convert(user.fields[p.path], p.default).Success?
    ensures Settled(user, p)
  {
    var k := p.path;
    if k !in user.fields {
      assert Untouched(user, [k]);
    } else {
      assert At(user, [k]) == Some(user.fields[k]) by {
        assert [k][1..] == [];
      }
    }
  }

  /** Parameters under plain keys are all settled by a user object whose members for them are readable plain values. */
  lemma PlainObjectSettles(user: Json, params: seq<Param>)
    requires user.Object?
    requires forall i :: 0 <= i < |params| ==>
      SplitPath(params[i].path) == [params[i].path] && Supported(params[i].default)
    requires forall i :: 0 <= i < |params| && params[i].path in user.fields && !params[i].default.AJson? ==>
      && !user.fields[params[i].path].Null? && !user.fields[params[i].path].Object?
      && Convert(user.fields[params[i].path], params[i].default).Success?
    ensures forall i :: 0 <= i < |params| ==> Settled(user, params[i])
  {
    forall i | 0 <= i < |params|
      ensures Settled(user, params[i])
    {
      SettledByMember(user, params[i]);
    }
  }

  /** initialize succeeds when the user's settings are processed and every parameter is settled. */
  lemma InitializeSucceeds(user: Json, params: seq<Param>, processed: Json)
    requires WellFormedParams(params)
    requires ProcessUserConfig(user) == Success(processed)
    requires forall i :: 0 <= i < |params| ==> Settled(processed, params[i])
    ensures Initialize(user, params).Success?
    ensures var defaults := BuildDefaultConfig(params).value;
      Initialize(user, params).value.config == if !processed.Null? then MergeConfig(defaults, processed) else defaults
  {
    var defaults := BuildDefaultConfig(params).value;
    var final := if !processed.Null? then MergeConfig(defaults, processed) else defaults;
    forall i | 0 <= i < |params|
      ensures GetJsonValue(final, params[i].path, params[i].default).Success?
    {
      var p := params[i];
      var q := SplitPath(p.path);
      if p.default.AJson? {
        JsonParamReads(final, p);
      } else if processed.Null? || (processed.Object? && Untouched(processed, q)) {
        ReadsDefault(final, p);
      } else if processed.Object? {
        MergePatchOverrides(defaults, processed, q, At(processed, q).value);
      }
    }
  }

  // ---------------------------------------------------------------------
  // processUserConfig
  // ---------------------------------------------------------------------

  /** A key without dots, a value other than null, an integer a C++ int can hold. */
  predicate PlainMember(key: string, value: Json) {
    && |key| > 0 && '.' !in key
    && !value.Null?
    && (value.Int? ==> -0x8000_0000 <= value.i < 0x8000_0000)
  }

  /** Writing one plain member stores it under its key. */
  lemma WritePlainMember(config: Json, k: string, v: Json)
    requires config.Null? || config.Object?
    requires PlainMember(k, v)
    ensures var base := if config.Object? then config.fields else map[];
      SetJsonValue(config, k, JsonToAny(v)) == Success(Object(base[k := v]))
  {
    SplitPlainKey(k);
  }

  /** Writing under the dotted key p.a puts the value as member a of the object at p, created if missing. */
  lemma NestUnder(config: Json, p: string, a: string, v: Json)
    requires config.Object? && |p| > 0 && '.' !in p && PlainMember(a, v)
    requires p in config.fields ==> config.fields[p].Object?
    ensures var inner := if p in config.fields then config.fields[p].fields else map[];
      SetJsonValue(config, Join([p, a]), JsonToAny(v)) == Success(Object(config.fields[p := Object(inner[a := v])]))
  {
    SplitJoin([p, a]);
    var x := JsonToAny(v);
    assert Supported(x) && ToJson(x) == v;
    var inner := if p in config.fields then config.fields[p].fields else map[];
    var start := if p in config.fields then config.fields[p] else Object(map[]);
    assert SetAt(start, [a], x) == Success(Object(inner[a := v]));
    assert [p, a][1..] == [a];
    assert SetAt(config, [p, a], x) == Success(Object(config.fields[p := Object(inner[a := v])]));
  }

  /** p.a and p.n are different keys when a and n are, and neither is a dot-free key. */
  lemma DottedKeysDiffer(p: string, a: string, n: string, c: string)
    requires a != n && '.' !in c
    ensures Join([p, a]) != Join([p, n])
    ensures Join([p, a]) != c && Join([p, n]) != c
  {
    assert Join([p, a]) == p + "." + a && Join([p, n]) == p + "." + n;
    assert (p + "." + a)[|p| + 1..] == a && (p + "." + n)[|p| + 1..] == n;
    assert (p + "." + a)[|p|] == '.' && (p + "." + n)[|p|] == '.';
  }

  /**
   * A plain member c followed by the dotted members p.a and p.n, written in
   * that order from null, gives c beside one object p holding a and n.
   */
  lemma SetMembersNests(c: string, p: string, a: string, n: string, cv: Json, av: Json, nv: Json)
    requires PlainMember(c, cv) && PlainMember(a, av) && PlainMember(n, nv)
    requires |p| > 0 && '.' !in p && c != p && a != n
    ensures Join([p, a]) != c && Join([p, n]) != c && Join([p, a]) != Join([p, n])
    ensures var fields := map[c := cv, Join([p, a]) := av, Join([p, n]) := nv];
      SetMembers(Null, [c, Join([p, a]), Join([p, n])], fields)
        == Success(Object(map[c := cv, p := Object(map[a := av, n := nv])]))
  {
    DottedKeysDiffer(p, a, n, c);
    var ka, kn := Join([p, a]), Join([p, n]);
    var fields := map[c := cv, ka := av, kn := nv];
    var keys := [c, ka, kn];
    WritePlainMember(Null, c, cv);
    var s1 := Object(map[c := cv]);
    assert SetMembers(Null, keys, fields) == SetMembers(s1, keys[1..], fields);
    NestUnder(s1, p, a, av);
    var s2 := Object(map[c := cv, p := Object(map[a := av])]);
    assert keys[1..][1..] == [kn];
    assert SetMembers(s1, keys[1..], fields) == SetMembers(s2, [kn], fields);
    NestUnder(s2, p, n, nv);
    var s3 := Object(map[c := cv, p := Object(map[a := av, n := nv])]);
    assert s2.fields[p := Object(map[a := av][n := nv])] == s3.fields;
    assert SetMembers(s2, [kn], fields) == SetMembers(s3, [], fields);
  }

  /**
   * processUserConfig on a plain member c and dotted members p.a and p.n,
   * when c sorts first and p.a before p.n: c beside one object p holding a and n.
   */
  lemma ProcessNests(c: string, p: string, a: string, n: string, cv: Json, av: Json, nv: Json)
    requires PlainMember(c, cv) && PlainMember(a, av) && PlainMember(n, nv)
    requires |p| > 0 && '.' !in p && c != p && a != n
    requires KeyLe(c, Join([p, a])) && KeyLe(Join([p, a]), Join([p, n]))
    ensures ProcessUserConfig(Object(map[c := cv, Join([p, a]) := av, Join([p, n]) := nv]))
         == Success(Object(map[c := cv, p := Object(map[n := nv, a := av])]))
  {
    SetMembersNests(c, p, a, n, cv, av, nv);
    assert map[a := av, n := nv] == map[n := nv, a := av];
    var fields := map[c := cv, Join([p, a]) := av, Join([p, n]) := nv];
    assert fields.Keys == {c, Join([p, a]), Join([p, n])};
    SortedThreeKeys(c, Join([p, a]), Join([p, n]));
  }

  /** initialize sees the user's settings only through processUserConfig. */
  lemma InitializeSeesProcessed(user1: Json, user2: Json, params: seq<Param>)
    requires ProcessUserConfig(user1) == ProcessUserConfig(user2)
    ensures Initialize(user1, params) == Initialize(user2, params)
  {
    var processed := ProcessUserConfig(user1);
    if processed.Success? {
      var defaults := BuildDefaultConfig(params);
      if defaults.Success? {
        var p, d := processed.value, defaults.value;
        var final := if !p.Null? then MergeConfig(d, p) else d;
        var applied := ApplyConfig(final, params);
        if applied.Success? {
          assert Initialize(user1, params) == Success(Configured(final, applied.value));
          assert Initialize(user2, params) == Success(Configured(final, applied.value));
        }
      }
    }
  }

  /** Writing plain members one by one copies them over, starting from null. */
  lemma {:induction false} SetMembersCopies(config: Json, keys: seq<string>, fields: map<string, Json>)
    requires forall k :: k in keys ==> k in fields && PlainMember(k, fields[k])
    requires config.Null? || config.Object?
    ensures SetMembers(config, keys, fields).Success?
    ensures var base := if config.Object? then config.fields else map[];
      SetMembers(config, keys, fields).value ==
        (if |keys| == 0 && config.Null? then Null
         else Object(base + map k | k in keys :: fields[k]))
    decreases |keys|
  {
    if |keys| > 0 {
      var k := keys[0];
      assert k in keys;
      var base := if config.Object? then config.fields else map[];
      var next := Object(base[k := fields[k]]);
      WritePlainMember(config, k, fields[k]);
      SetMembersCopies(next, keys[1..], fields);
      CopyFirstMember(base, keys, fields);
    }
  }

  /** Copying the first key and then the rest copies them all. */
  lemma CopyFirstMember(base: map<string, Json>, keys: seq<string>, fields: map<string, Json>)
    requires |keys| > 0 && forall k :: k in keys ==> k in fields
    ensures base[keys[0] := fields[keys[0]]] + (map k | k in keys[1..] :: fields[k])
         == base + (map k | k in keys :: fields[k])
  {
    assert forall k :: k in keys <==> k == keys[0] || k in keys[1..];
  }

  /** Copying every key of a map copies the map. */
  lemma CopyAllMembers(keys: seq<string>, fields: map<string, Json>)
    requires forall k :: k in keys <==> k in fields
    ensures map[] + (map k | k in keys :: fields[k]) == fields
  {
    var copied := map[] + map k | k in keys :: fields[k];
    assert copied.Keys == fields.Keys;
  }

  /** A user object made only of plain members comes through processUserConfig unchanged. */
  lemma ProcessPlainObject(user: Json)
    requires user.Object? && |user.fields| > 0
    requires forall k :: k in user.fields ==> PlainMember(k, user.fields[k])
    ensures ProcessUserConfig(user) == Success(user)
  {
    var keys := SortedKeys(user.fields.Keys);
    assert |keys| > 0;
    SetMembersCopies(Null, keys, user.fields);
    CopyAllMembers(keys, user.fields);
  }

  /** The value a user object gives parameter p: its member read as the default's type, or else the default. */
  function Chosen(fields: map<string, Json>, p: Param): AnyValue
    requires Supported(p.default)
  {
    if p.path in fields && Convert(fields[p.path], p.default).Success? then Convert(fields[p.path], p.default).value
    else p.default
  }

  /**
   * Initializing from a user object of plain members, for parameters under
   * plain keys: a member named like a parameter overrides its default, read
   * as the default's type; every other parameter keeps its default.
   */
  lemma InitializeFromPlainObject(user: Json, params: seq<Param>)
    requires WellFormedParams(params)
    requires forall i :: 0 <= i < |params| ==> SplitPath(params[i].path) == [params[i].path]
    requires user.Object? && |user.fields| > 0
    requires forall k :: k in user.fields ==> PlainMember(k, user.fields[k])
    requires forall i :: 0 <= i < |params| && params[i].path in user.fields ==>
      !user.fields[params[i].path].Object? && Convert(user.fields[params[i].path], params[i].default).Success?
    ensures Initialize(user, params).Success?
    ensures forall i :: 0 <= i < |params| ==> Initialize(user, params).value.applied[i] == Chosen(user.fields, params[i])
  {
    ProcessPlainObject(user);
    PlainObjectSettles(user, params);
    InitializeSucceeds(user, params, user);
    var r := Initialize(user, params).value;
    forall i | 0 <= i < |params|
      ensures r.applied[i] == Chosen(user.fields, params[i])
    {
      var k := params[i].path;
      InitializeOverridesDefaults(user, params, user, r, i);
      if k in user.fields {
        assert At(user, [k]) == Some(user.fields[k]) by {
          assert [k][1..] == [];
        }
      } else {
        assert Untouched(user, [k]);
      }
    }
  }

  /** The parameters setJsonValue receives, in order, while processUserConfig writes the members. */
  function MemberParams(keys: seq<string>, fields: map<string, Json>): (params: seq<Param>)
    requires forall k :: k in keys ==> k in fields
    ensures |params| == |keys|
    ensures forall i :: 0 <= i < |keys| ==> params[i] == Param(keys[i], JsonToAny(fields[keys[i]]))
  {
    seq(|keys|, i requires 0 <= i < |keys| => Param(keys[i], JsonToAny(fields[keys[i]])))
  }

  /** Writing the members is writing them as parameters with their values as defaults. */
  lemma {:induction false} SetMembersWritesParams(config: Json, keys: seq<string>, fields: map<string, Json>)
    requires forall k :: k in keys ==> k in fields
    ensures SetMembers(config, keys, fields) == SetAll(config, MemberParams(keys, fields))
    decreases |keys|
  {
    if |keys| > 0 {
      var params := MemberParams(keys, fields);
      assert params[1..] == MemberParams(keys[1..], fields);
      var step := SetJsonValue(config, keys[0], JsonToAny(fields[keys[0]]));
      if step.Success? {
        SetMembersWritesParams(step.value, keys[1..], fields);
      }
    }
  }

  /**
   * User members that processUserConfig can place side by side: every key
   * spells a non-empty path, no value is null, integers fit a C++ int, and
   * the paths of two different keys part ways.
   */
  predicate SeparateMembers(fields: map<string, Json>) {
    && (forall k :: k in fields ==>
          |SplitPath(k)| > 0 && !fields[k].Null?
          && (fields[k].Int? ==> -0x8000_0000 <= fields[k].i < 0x8000_0000))
    && (forall k1, k2 :: k1 in fields && k2 in fields && k1 != k2 ==> Diverges(SplitPath(k1), SplitPath(k2)))
  }

  /** Separate members written in a duplicate-free order make well-formed parameters. */
  lemma MemberParamsWellFormed(keys: seq<string>, fields: map<string, Json>)
    requires SeparateMembers(fields)
    requires forall k :: k in keys ==> k in fields
    requires forall i, j :: 0 <= i < j < |keys| ==> keys[i] != keys[j]
    ensures WellFormedParams(MemberParams(keys, fields))
  {
    var params := MemberParams(keys, fields);
    forall i | 0 <= i < |params|
      ensures |SplitPath(params[i].path)| > 0 && Supported(params[i].default)
    {
      assert keys[i] in keys;
    }
    forall i, j | 0 <= i < j < |params|
      ensures Diverges(SplitPath(params[i].path), SplitPath(params[j].path))
    {
      assert keys[i] in keys && keys[j] in keys;
    }
  }

  /**
   * processUserConfig places every member of such a user object at the path
   * its dotted key spells, so "a.b": v ends up as v inside the member a.
   */
  lemma ProcessPlacesMembers(user: Json)
    requires user.Object? && SeparateMembers(user.fields)
    ensures ProcessUserConfig(user).Success?
    ensures forall k :: k in user.fields ==>
      At(ProcessUserConfig(user).value, SplitPath(k)) == Some(user.fields[k])
  {
    var fields := user.fields;
    var keys := SortedKeys(fields.Keys);
    var params := MemberParams(keys, fields);
    SetMembersWritesParams(Null, keys, fields);
    MemberParamsWellFormed(keys, fields);
    SetAllPlaces(Null, params);
    var processed := SetAll(Null, params).value;
    assert ProcessUserConfig(user) == Success(processed);
    forall k | k in fields
      ensures At(processed, SplitPath(k)) == Some(fields[k])
    {
      assert k in keys;
      var i :| 0 <= i < |keys| && keys[i] == k;
      assert At(processed, SplitPath(params[i].path)) == Some(ToJson(params[i].default));
      assert ToJson(JsonToAny(fields[k])) == fields[k];
    }
  }
}
