/**
 * The dotted-path configuration store of include/ConfigSystem.hh: typed
 * values written into and read from nested JSON objects, user settings
 * with dotted keys expanded, defaults built from the registered
 * parameters, and the initialization that lays the user's settings over
 * the defaults and hands every parameter its value.
 */
module ConfigSystem {
  import opened Outcomes
  import opened JsonValues
  import opened Paths

  /** A C++ int. */
  newtype Int32 = x: int | -0x8000_0000 <= x < 0x8000_0000

  /** Two's-complement narrowing of an integer to 32 bits. */
  function Wrap32(i: int): (n: Int32)
    ensures -0x8000_0000 <= i < 0x8000_0000 ==> n as int == i
    ensures (n as int - i) % 0x1_0000_0000 == 0
  {
    ((i + 0x8000_0000) % 0x1_0000_0000 - 0x8000_0000) as Int32
  }

  /** A C++ cast of a floating value to an integer: the fraction is dropped toward zero. */
  function TruncateToInt(r: real): (i: int)
    ensures r >= 0.0 ==> i as real <= r < i as real + 1.0
    ensures r < 0.0 ==> i as real - 1.0 < r <= i as real
  {
    if r >= 0.0 then r.Floor else -((-r).Floor)
  }

  /**
   * The std::any a parameter's value travels in. Unsupported stands for
   * every type the store does not handle, such as the nullptr that
   * json_to_any makes of a JSON null.
   */
  datatype AnyValue =
    | AInt(n: Int32)
    | ADouble(x: real)
    | ABool(b: bool)
    | AString(s: string)
    | AJson(j: Json)
    | Unsupported

  /** The store handles values of this type. */
  predicate Supported(v: AnyValue) {
    !v.Unsupported?
  }

  /** Both values hold the same C++ type. */
  predicate SameKind(v: AnyValue, w: AnyValue) {
    match v
    case AInt(_) => w.AInt?
    case ADouble(_) => w.ADouble?
    case ABool(_) => w.ABool?
    case AString(_) => w.AString?
    case AJson(_) => w.AJson?
    case Unsupported => w.Unsupported?
  }

  /** The JSON value assigning v produces. */
  function ToJson(v: AnyValue): Json
    requires Supported(v)
  {
    match v
    case AInt(n) => Int(n as int)
    case ADouble(x) => Double(x)
    case ABool(b) => Bool(b)
    case AString(s) => Str(s)
    case AJson(j) => j
  }

  /**
   * get<T> for the type T the default value holds: integers accept numbers
   * and booleans, doubles accept numbers, booleans and strings only
   * themselves, json anything; otherwise type_error 302.
   */
  function Convert(j: Json, default: AnyValue): (r: Result<AnyValue>)
    requires Supported(default)
    ensures r.Success? ==> SameKind(default, r.value)
  {
    match default
    case AInt(_) =>
      (match j
       case Int(i) => Success(AInt(Wrap32(i)))
       case Double(d) => Success(AInt(Wrap32(TruncateToInt(d))))
       case Bool(b) => Success(AInt(if b then 1 else 0))
       case _ => Failure(TypeError(302)))
    case ADouble(_) =>
      (match j
       case Int(i) => Success(ADouble(i as real))
       case Double(d) => Success(ADouble(d))
       case _ => Failure(TypeError(302)))
    case ABool(_) => if j.Bool? then Success(ABool(j.b)) else Failure(TypeError(302))
    case AString(_) => if j.Str? then Success(AString(j.s)) else Failure(TypeError(302))
    case AJson(_) => Success(AJson(j))
  }

  /** Reading back a stored value as its own type gives the value again. */
  lemma ConvertToJson(v: AnyValue, default: AnyValue)
    requires Supported(v) && SameKind(default, v)
    ensures Convert(ToJson(v), default) == Success(v)
  {
  }

  /** json_to_any: the std::any a user-supplied JSON value becomes. */
  function JsonToAny(j: Json): (v: AnyValue)
    ensures j.Null? <==> !Supported(v)
    ensures !j.Null? && !j.Int? ==> ToJson(v) == j
    ensures j.Int? ==> ToJson(v) == Int(Wrap32(j.i) as int)
  {
    match j
    case Null => Unsupported
    case Bool(b) => ABool(b)
    case Int(i) => AInt(Wrap32(i))
    case Double(d) => ADouble(d)
    case Str(s) => AString(s)
    case Array(_) => AJson(j)
    case Object(_) => AJson(j)
  }

  // ---------------------------------------------------------------------
  // setJsonValue
  // ---------------------------------------------------------------------

  /** operator[] with a string key followed by an assignment: null becomes an object first. */
  function Assign(current: Json, key: string, value: Json): (r: Result<Json>)
    ensures r.Success? <==> current.Null? || current.Object?
    ensures r.Success? ==> r.value.Object? && key in r.value.fields && r.value.fields[key] == value
    ensures r.Success? ==> forall k :: k != key ==> At(r.value, [k]) == At(current, [k])
  {
    match current
    case Null => Success(Object(map[key := value]))
    case Object(fields) => Success(Object(fields[key := value]))
    case _ => Failure(TypeError(305))
  }

  /** Writing value along parts succeeds: every existing value met on the way is null or an object. */
  predicate Navigable(current: Json, parts: seq<string>)
    decreases |parts|
  {
    && |parts| >= 1
    && (current.Null? || current.Object?)
    && (|parts| == 1 || !(current.Object? && parts[0] in current.fields)
        || Navigable(current.fields[parts[0]], parts[1..]))
  }

  /**
   * The walk of setJsonValue: missing members on the way become empty
   * objects, then the leaf is assigned if the value's type is handled.
   */
  function SetAt(current: Json, parts: seq<string>, value: AnyValue): (r: Result<Json>)
    requires |parts| >= 1
    ensures Supported(value) ==> (r.Success? <==> Navigable(current, parts))
    ensures Supported(value) && r.Success? ==> At(r.value, parts) == Some(ToJson(value))
    decreases |parts|
  {
    var key := parts[0];
    if |parts| == 1 then
      if Supported(value) then Assign(current, key, ToJson(value)) else Success(current)
    else if current.Object? && key in current.fields then
      var child :- SetAt(current.fields[key], parts[1..], value);
      Success(Object(current.fields[key := child]))
    else if current.Null? || current.Object? then
      var fields := if current.Object? then current.fields else map[];
      var child :- SetAt(Object(map[]), parts[1..], value);
      Success(Object(fields[key := child]))
    else
      Failure(TypeError(305))
  }

  /** setJsonValue: store value at the dotted path. */
  function SetJsonValue(config: Json, path: string, value: AnyValue): (r: Result<Json>)
    ensures |SplitPath(path)| == 0 ==> r == Failure(EmptyPath)
    ensures |SplitPath(path)| > 0 && Supported(value) ==>
      (r.Success? <==> Navigable(config, SplitPath(path)))
    ensures r.Success? && Supported(value) ==> At(r.value, SplitPath(path)) == Some(ToJson(value))
  {
    var parts := SplitPath(path);
    if |parts| == 0 then Failure(EmptyPath) else SetAt(config, parts, value)
  }

  // ---------------------------------------------------------------------
  // getJsonValue
  // ---------------------------------------------------------------------

  /** getJsonValue's two results: whether the path held a value, and the value handed out. */
  datatype Lookup = Lookup(found: bool, value: AnyValue)

  /** The lookup that a converted value, or the conversion's error, gives. */
  function Found(r: Result<AnyValue>): Result<Lookup> {
    match r
    case Success(v) => Success(Lookup(true, v))
    case Failure(e) => Failure(e)
  }

  /** The walk of getJsonValue. */
  function GetAt(current: Json, parts: seq<string>, default: AnyValue): (r: Result<Lookup>)
    requires |parts| >= 1
    ensures At(current, parts).None? ==> r == Success(Lookup(false, default))
    ensures At(current, parts).Some? && Supported(default) ==> r == Found(Convert(At(current, parts).value, default))
    ensures !Supported(default) ==> r == Success(Lookup(false, default))
    decreases |parts|
  {
    var key := parts[0];
    if !(current.Object? && key in current.fields) then Success(Lookup(false, default))
    else if |parts| == 1 then
      if Supported(default) then
        var v :- Convert(current.fields[key], default);
        Success(Lookup(true, v))
      else
        Success(Lookup(false, default))
    else
      GetAt(current.fields[key], parts[1..], default)
  }

  /** getJsonValue: the value at the dotted path as the default's type, or the default. */
  function GetJsonValue(config: Json, path: string, default: AnyValue): (r: Result<Lookup>)
    ensures r.Success? ==> SameKind(default, r.value.value)
    ensures |SplitPath(path)| == 0 ==> r == Failure(EmptyPath)
    ensures |SplitPath(path)| > 0 && At(config, SplitPath(path)).None? ==> r == Success(Lookup(false, default))
    ensures |SplitPath(path)| > 0 && !Supported(default) ==> r == Success(Lookup(false, default))
    ensures |SplitPath(path)| > 0 && At(config, SplitPath(path)).Some? && Supported(default)
            ==> r == Found(Convert(At(config, SplitPath(path)).value, default))
  {
    var parts := SplitPath(path);
    if |parts| == 0 then Failure(EmptyPath) else GetAt(config, parts, default)
  }

  // ---------------------------------------------------------------------
  // parameters, defaults, user settings, initialization
  // ---------------------------------------------------------------------

  /** A registered parameter: its dotted path and its default value. */
  datatype Param = Param(path: string, default: AnyValue)

  /** setJsonValue for each parameter's default, in registration order. */
  function SetAll(config: Json, params: seq<Param>): (r: Result<Json>)
    decreases |params|
  {
    if |params| == 0 then Success(config)
    else
      var next :- SetJsonValue(config, params[0].path, params[0].default);
      SetAll(next, params[1..])
  }

  /** Neither path is a prefix of the other: they part ways at some key. */
  predicate Diverges(p: seq<string>, q: seq<string>)
    decreases |p|
  {
    |p| > 0 && |q| > 0 && (p[0] != q[0] || Diverges(p[1..], q[1..]))
  }

  lemma {:induction false} DivergesSymmetric(p: seq<string>, q: seq<string>)
    requires Diverges(p, q)
    ensures Diverges(q, p)
    decreases |p|
  {
    if p[0] == q[0] {
      DivergesSymmetric(p[1..], q[1..]);
    }
  }

  /** Writing along parts leaves the value at every path that parts away from it. */
  lemma {:induction false} SetAtOffPath(current: Json, parts: seq<string>, value: AnyValue, q: seq<string>)
    requires |parts| >= 1 && Diverges(parts, q) && SetAt(current, parts, value).Success?
    ensures At(SetAt(current, parts, value).value, q) == At(current, q)
    decreases |parts|
  {
    var key := parts[0];
    var r := SetAt(current, parts, value).value;
    if |parts| == 1 {
      assert key != q[0];
    } else if key == q[0] {
      if current.Object? && key in current.fields {
        SetAtOffPath(current.fields[key], parts[1..], value, q[1..]);
      } else {
        SetAtOffPath(Object(map[]), parts[1..], value, q[1..]);
      }
    }
  }

  /** setJsonValue changes nothing at a path that parts away from the one written. */
  lemma SetJsonValueOffPath(config: Json, path: string, value: AnyValue, q: seq<string>, updated: Json)
    requires SetJsonValue(config, path, value) == Success(updated)
    requires Diverges(SplitPath(path), q)
    ensures At(updated, q) == At(config, q)
  {
    SetAtOffPath(config, SplitPath(path), value, q);
  }

  /** Writing along parts keeps every path that parts away from it writable. */
  lemma {:induction false} SetAtKeepsNavigable(current: Json, parts: seq<string>, value: AnyValue, q: seq<string>)
    requires |parts| >= 1 && Diverges(parts, q) && SetAt(current, parts, value).Success?
    requires Navigable(current, q)
    ensures Navigable(SetAt(current, parts, value).value, q)
    decreases |parts|
  {
    var key := parts[0];
    if |parts| > 1 && key == q[0] {
      if current.Object? && key in current.fields {
        SetAtKeepsNavigable(current.fields[key], parts[1..], value, q[1..]);
      } else {
        SetAtKeepsNavigable(Object(map[]), parts[1..], value, q[1..]);
      }
    }
  }

  /** Registered parameters whose paths are usable, pairwise unrelated, with defaults of handled types. */
  ghost predicate WellFormedParams(params: seq<Param>) {
    && (forall i :: 0 <= i < |params| ==> |SplitPath(params[i].path)| > 0 && Supported(params[i].default))
    && (forall i, j :: 0 <= i < j < |params| ==>
          Diverges(SplitPath(params[i].path), SplitPath(params[j].path)))
  }

  /** Writing parameters whose paths all part away from q leaves the value at q. */
  lemma {:induction false} SetAllKeeps(config: Json, params: seq<Param>, q: seq<string>)
    requires forall i :: 0 <= i < |params| ==> Diverges(SplitPath(params[i].path), q)
    requires SetAll(config, params).Success?
    ensures At(SetAll(config, params).value, q) == At(config, q)
    decreases |params|
  {
    if |params| > 0 {
      var next := SetJsonValue(config, params[0].path, params[0].default).value;
      SetJsonValueOffPath(config, params[0].path, params[0].default, q, next);
      SetAllKeeps(next, params[1..], q);
    }
  }

  /** Every default lands at its own path, and none of the writes fails. */
  lemma {:induction false} SetAllPlaces(config: Json, params: seq<Param>)
    requires WellFormedParams(params)
    requires forall i :: 0 <= i < |params| ==> Navigable(config, SplitPath(params[i].path))
    ensures SetAll(config, params).Success?
    ensures forall i :: 0 <= i < |params| ==>
      At(SetAll(config, params).value, SplitPath(params[i].path)) == Some(ToJson(params[i].default))
    decreases |params|
  {
    if |params| > 0 {
      var p0 := params[0];
      var q0 := SplitPath(p0.path);
      var next := SetJsonValue(config, p0.path, p0.default).value;
      var tail := params[1..];
      forall i | 0 <= i < |tail|
        ensures Navigable(next, SplitPath(tail[i].path))
      {
        assert tail[i] == params[i + 1];
        SetAtKeepsNavigable(config, q0, p0.default, SplitPath(tail[i].path));
      }
      assert WellFormedParams(tail) by {
        forall i, j | 0 <= i < j < |tail|
          ensures Diverges(SplitPath(tail[i].path), SplitPath(tail[j].path))
        {
          assert tail[i] == params[i + 1] && tail[j] == params[j + 1];
        }
      }
      SetAllPlaces(next, tail);
      forall i | 0 <= i < |tail|
        ensures Diverges(SplitPath(tail[i].path), q0)
      {
        assert tail[i] == params[i + 1];
        DivergesSymmetric(q0, SplitPath(tail[i].path));
      }
      SetAllKeeps(next, tail, q0);
      forall i | 0 <= i < |params|
        ensures At(SetAll(config, params).value, SplitPath(params[i].path)) == Some(ToJson(params[i].default))
      {
        if i > 0 {
          assert params[i] == tail[i - 1];
        }
      }
    }
  }

  /**
   * buildDefaultConfig: the defaults written into an initially null
   * document. With well-formed parameters every write succeeds and every
   * default can be read back at its own path.
   */
  function BuildDefaultConfig(params: seq<Param>): (r: Result<Json>)
    ensures WellFormedParams(params) ==> r.Success?
    ensures WellFormedParams(params) ==> forall i :: 0 <= i < |params| ==>
      At(r.value, SplitPath(params[i].path)) == Some(ToJson(params[i].default))
  {
    assert WellFormedParams(params) ==> SetAll(Null, params).Success? && forall i :: 0 <= i < |params| ==>
      At(SetAll(Null, params).value, SplitPath(params[i].path)) == Some(ToJson(params[i].default)) by {
      if WellFormedParams(params) {
        SetAllPlaces(Null, params);
      }
    }
    SetAll(Null, params)
  }

  /**
   * applyConfig: the value each parameter's setter receives, in
   * registration order: the configuration's value converted to the
   * default's type when the path holds one, otherwise the default.
   */
  function ApplyConfig(config: Json, params: seq<Param>): (r: Result<seq<AnyValue>>)
    ensures r.Success? <==> forall i :: 0 <= i < |params| ==>
      GetJsonValue(config, params[i].path, params[i].default).Success?
    ensures r.Success? ==> |r.value| == |params| && forall i :: 0 <= i < |params| ==>
      r.value[i] == GetJsonValue(config, params[i].path, params[i].default).value.value
    ensures r.Success? ==> forall i :: 0 <= i < |params| ==> SameKind(params[i].default, r.value[i])
    decreases |params|
  {
    if |params| == 0 then Success([])
    else
      var look :- GetJsonValue(config, params[0].path, params[0].default);
      var rest :- ApplyConfig(config, params[1..]);
      Success([look.value] + rest)
  }

  /** The user's members, in key order, each written at its dotted key. */
  function SetMembers(config: Json, keys: seq<string>, fields: map<string, Json>): (r: Result<Json>)
    requires forall k :: k in keys ==> k in fields
    decreases |keys|
  {
    if |keys| == 0 then Success(config)
    else
      var next :- SetJsonValue(config, keys[0], JsonToAny(fields[keys[0]]));
      SetMembers(next, keys[1..], fields)
  }

  /**
   * processUserConfig: a user object is rebuilt from null with every
   * member written at the path its key spells out; anything else is kept.
   * Where each member lands is ConfigProperties.ProcessPlacesMembers.
   */
  function ProcessUserConfig(user: Json): (r: Result<Json>)
    ensures !user.Object? ==> r == Success(user)
  {
    if !user.Object? then Success(user)
    else SetMembers(Null, SortedKeys(user.fields.Keys), user.fields)
  }

  /** mergeConfig: the user's settings laid over the base with merge_patch. */
  function MergeConfig(base: Json, override: Json): (r: Json)
    ensures !override.Object? ==> r == override
    ensures forall q :: Untouched(override, q) ==> At(r, q) == At(base, q)
  {
    forall q | Untouched(override, q)
      ensures At(MergePatch(base, override), q) == At(base, q)
    {
      MergePatchUntouched(base, override, q);
    }
    MergePatch(base, override)
  }

  /** What initialization leaves behind: the active configuration and the values the setters received. */
  datatype Configured = Configured(config: Json, applied: seq<AnyValue>)

  /**
   * initialize: process the user's settings, build the defaults, merge the
   * user's settings over them unless they are null, and apply the result.
   * What each parameter receives is ConfigProperties.InitializeOverridesDefaults.
   */
  function Initialize(user: Json, params: seq<Param>): (r: Result<Configured>)
    ensures r.Success? ==> |r.value.applied| == |params|
    ensures r.Success? ==> forall i :: 0 <= i < |params| ==> SameKind(params[i].default, r.value.applied[i])
  {
    var processed :- ProcessUserConfig(user);
    var defaults :- BuildDefaultConfig(params);
    var final := if !processed.Null? then MergeConfig(defaults, processed) else defaults;
    var applied :- ApplyConfig(final, params);
    Success(Configured(final, applied))
  }
}
