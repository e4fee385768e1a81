/**
 * JSON values as the configuration store sees them, navigation along a key
 * path, and the MergePatch algorithm of section 2 of RFC 7396, which the
 * store uses to lay user settings over the defaults.
 */
module JsonValues {
  import opened Outcomes

  /** A JSON document; numbers keep their integer/floating distinction. */
  datatype Json =
    | Null
    | Bool(b: bool)
    | Int(i: int)
    | Double(d: real)
    | Str(s: string)
    | Array(items: seq<Json>)
    | Object(fields: map<string, Json>)

  /** The value reached by following the keys of path through nested objects. */
  function At(j: Json, path: seq<string>): (r: Option<Json>)
    ensures |path| == 0 ==> r == Some(j)
    ensures |path| > 0 && !j.Object? ==> r.None?
    decreases |path|
  {
    if |path| == 0 then Some(j)
    else if j.Object? && path[0] in j.fields then At(j.fields[path[0]], path[1..])
    else None
  }

  /**
   * MergePatch of RFC 7396, section 2: a patch that is not an object replaces
   * the target; an object patch turns the target into an object, deletes the
   * members it maps to null and merges every other member recursively.
   */
  function MergePatch(target: Json, patch: Json): (r: Json)
    ensures !patch.Object? ==> r == patch
    ensures patch.Object? ==> r.Object?
    ensures patch.Object? ==> forall k :: k in r.fields <==>
      ((k in patch.fields && !patch.fields[k].Null?) || (k !in patch.fields && target.Object? && k in target.fields))
    decreases patch
  {
    if !patch.Object? then patch
    else
      var base := if target.Object? then target.fields else map[];
      Object(map k | k in base.Keys + patch.fields.Keys && !(k in patch.fields && patch.fields[k].Null?) ::
        if k in patch.fields then MergePatch(if k in base then base[k] else Null, patch.fields[k]) else base[k])
  }

  /** The member of patch at key k is merged into the target's member (null when absent). */
  lemma MergePatchMember(target: Json, patch: Json, k: string)
    requires patch.Object? && k in patch.fields && !patch.fields[k].Null?
    ensures var r := MergePatch(target, patch);
      && k in r.fields
      && r.fields[k] == MergePatch(if target.Object? && k in target.fields then target.fields[k] else Null,
                                   patch.fields[k])
  {
  }

  /** The patch does not mention path, nor any proper prefix of it, as a member of an object. */
  predicate Untouched(patch: Json, path: seq<string>)
    decreases |path|
  {
    && |path| >= 1
    && patch.Object?
    && (path[0] !in patch.fields || Untouched(patch.fields[path[0]], path[1..]))
  }

  /** Values the patch does not reach keep their place in the target. */
  lemma {:induction false} MergePatchUntouched(target: Json, patch: Json, path: seq<string>)
    requires Untouched(patch, path)
    ensures At(MergePatch(target, patch), path) == At(target, path)
    decreases |path|
  {
    var k := path[0];
    var r := MergePatch(target, patch);
    if k in patch.fields {
      var child := patch.fields[k];
      var t := if target.Object? && k in target.fields then target.fields[k] else Null;
      MergePatchMember(target, patch, k);
      MergePatchUntouched(t, child, path[1..]);
    }
  }

  /** A patch value that is neither null nor an object ends up exactly at its path. */
  lemma {:induction false} MergePatchOverrides(target: Json, patch: Json, path: seq<string>, v: Json)
    requires At(patch, path) == Some(v) && !v.Null? && !v.Object?
    ensures At(MergePatch(target, patch), path) == Some(v)
    decreases |path|
  {
    if |path| > 0 {
      var k := path[0];
      var child := patch.fields[k];
      var t := if target.Object? && k in target.fields then target.fields[k] else Null;
      assert !child.Null? by {
        assert |path| == 1 ==> child == v;
      }
      MergePatchMember(target, patch, k);
      MergePatchOverrides(t, child, path[1..], v);
    }
  }

  /** A null in the patch deletes the member at its path. */
  lemma {:induction false} MergePatchDeletes(target: Json, patch: Json, path: seq<string>)
    requires |path| >= 1 && At(patch, path) == Some(Null)
    ensures At(MergePatch(target, patch), path).None?
    decreases |path|
  {
    var k := path[0];
    var child := patch.fields[k];
    if |path| > 1 {
      var t := if target.Object? && k in target.fields then target.fields[k] else Null;
      MergePatchMember(target, patch, k);
      MergePatchDeletes(t, child, path[1..]);
    }
  }

  /** Applying the same patch twice changes nothing more than applying it once. */
  lemma {:induction false} MergePatchIdempotent(target: Json, patch: Json)
    ensures MergePatch(MergePatch(target, patch), patch) == MergePatch(target, patch)
    decreases patch
  {
    if patch.Object? {
      var once := MergePatch(target, patch);
      var twice := MergePatch(once, patch);
      forall k | k in patch.fields && !patch.fields[k].Null?
        ensures twice.fields[k] == once.fields[k]
      {
        var t := if target.Object? && k in target.fields then target.fields[k] else Null;
        MergePatchMember(target, patch, k);
        MergePatchMember(once, patch, k);
        MergePatchIdempotent(t, patch.fields[k]);
      }
      assert twice.fields.Keys == once.fields.Keys;
      assert twice.fields == once.fields;
    }
  }

  /** A patch that gives every member of the target a plain value replaces the target. */
  lemma MergePatchReplaces(target: Json, patch: Json)
    requires patch.Object?
    requires target.Object? ==> target.fields.Keys <= patch.fields.Keys
    requires forall k :: k in patch.fields ==> !patch.fields[k].Null? && !patch.fields[k].Object?
    ensures MergePatch(target, patch) == patch
  {
    var r := MergePatch(target, patch);
    forall k | k in patch.fields
      ensures r.fields[k] == patch.fields[k]
    {
      MergePatchMember(target, patch, k);
    }
    assert r.fields.Keys == patch.fields.Keys;
    assert r.fields == patch.fields;
  }
}
