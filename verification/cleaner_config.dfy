/**
 * The tailcuts cleaner as a configurable component (src/ImageCleaner.cpp):
 * the four parameters it registers, the configuration get_default_config
 * writes out, and the cleaner that initialization produces from a user
 * configuration.
 */
module CleanerConfig {
  import opened Outcomes
  import opened JsonValues
  import opened Paths
  import opened ConfigSystem
  import opened ConfigProperties
  import opened ImageCleaner

  /** registerParams: two doubles, a flag and an int, in this order. */
  const CleanerParams: seq<Param> := [
    Param("picture_thresh", ADouble(10.0)),
    Param("boundary_thresh", ADouble(5.0)),
    Param("keep_isolated_pixels", ABool(false)),
    Param("min_number_picture_neighbors", AInt(2))
  ]

  /** A configuration document in get_default_config's shape: the thresholds and the count as integers. */
  function CleanerDocument(picture: int, boundary: int, keep: bool, neighbours: int): Json {
    Object(map[
      "picture_thresh" := Int(picture),
      "boundary_thresh" := Int(boundary),
      "keep_isolated_pixels" := Bool(keep),
      "min_number_picture_neighbors" := Int(neighbours)
    ])
  }

  /** get_default_config: the registered defaults, the thresholds written as integers. */
  const DefaultConfigJson: Json := CleanerDocument(10, 5, false, 2)

  /** A cleaner built from a user configuration: initialize, then each setter stores its value. */
  function ConfigureCleaner(user: Json): (r: Result<TailcutsCleaner>)
    ensures r.Success? <==> Initialize(user, CleanerParams).Success?
    ensures r.Success? ==> -0x8000_0000 <= r.value.minNumberPictureNeighbors < 0x8000_0000
    ensures r.Success? ==> forall i :: 0 <= i < |CleanerParams| ==>
      Field(r.value, i) == Initialize(user, CleanerParams).value.applied[i]
  {
    var c :- Initialize(user, CleanerParams);
    var v := c.applied;
    assert v[0].ADouble? && v[1].ADouble? && v[2].ABool? && v[3].AInt? by {
      AppliedKinds(v);
    }
    Success(TailcutsCleaner(v[0].x, v[1].x, v[2].b, v[3].n as int))
  }

  /** Values of the registered parameters' types, in registration order. */
  lemma AppliedKinds(v: seq<AnyValue>)
    requires |v| == |CleanerParams|
    requires forall i :: 0 <= i < |CleanerParams| ==> SameKind(CleanerParams[i].default, v[i])
    ensures v[0].ADouble? && v[1].ADouble? && v[2].ABool? && v[3].AInt?
  {
    assert SameKind(CleanerParams[0].default, v[0]) && SameKind(CleanerParams[1].default, v[1]);
    assert SameKind(CleanerParams[2].default, v[2]) && SameKind(CleanerParams[3].default, v[3]);
  }

  /** The four keys differ in length, so they are distinct. */
  lemma CleanerKeyLengths()
    ensures |CleanerParams[0].path| == 14 && |CleanerParams[1].path| == 15
    ensures |CleanerParams[2].path| == 20 && |CleanerParams[3].path| == 28
  {
  }

  /** No key holds a dot. */
  lemma PictureKeyPlain() ensures '.' !in CleanerParams[0].path {}
  lemma BoundaryKeyPlain() ensures '.' !in CleanerParams[1].path {}
  lemma IsolatedKeyPlain() ensures '.' !in CleanerParams[2].path {}
  lemma NeighboursKeyPlain() ensures '.' !in CleanerParams[3].path {}

  lemma CleanerKeysPlain()
    ensures forall i :: 0 <= i < |CleanerParams| ==> '.' !in CleanerParams[i].path
  {
    PictureKeyPlain();
    BoundaryKeyPlain();
    IsolatedKeyPlain();
    NeighboursKeyPlain();
  }

  /** The cleaner's parameters have distinct plain keys and defaults of handled types. */
  lemma CleanerParamsWellFormed()
    ensures WellFormedParams(CleanerParams)
    ensures forall i :: 0 <= i < |CleanerParams| ==> SplitPath(CleanerParams[i].path) == [CleanerParams[i].path]
  {
    CleanerKeyLengths();
    CleanerKeysPlain();
    PlainParamsWellFormed(CleanerParams);
    forall i | 0 <= i < |CleanerParams|
      ensures SplitPath(CleanerParams[i].path) == [CleanerParams[i].path]
    {
      SplitPlainKey(CleanerParams[i].path);
    }
  }

  /** Without a user configuration the cleaner gets the registered defaults. */
  lemma ConfigureCleanerDefaults()
    ensures ConfigureCleaner(Null) == Success(DefaultCleaner)
  {
    CleanerParamsWellFormed();
    InitializeWithoutUserConfig(CleanerParams);
  }

  /** A user object of plain members configures each parameter from its member, or leaves it at its default. */
  lemma ConfigureFromPlainObject(user: Json)
    requires user.Object? && |user.fields| > 0
    requires forall k :: k in user.fields ==> PlainMember(k, user.fields[k])
    requires forall i :: 0 <= i < |CleanerParams| && CleanerParams[i].path in user.fields ==>
      !user.fields[CleanerParams[i].path].Object?
      && Convert(user.fields[CleanerParams[i].path], CleanerParams[i].default).Success?
    ensures ConfigureCleaner(user) == Success(TailcutsCleaner(
      Chosen(user.fields, CleanerParams[0]).x, Chosen(user.fields, CleanerParams[1]).x,
      Chosen(user.fields, CleanerParams[2]).b, Chosen(user.fields, CleanerParams[3]).n as int))
  {
    CleanerParamsWellFormed();
    InitializeFromPlainObject(user, CleanerParams);
  }

  /** Integers a C++ int holds. */
  predicate FitsInt(i: int) {
    -0x8000_0000 <= i < 0x8000_0000
  }

  /** Such a document has one plain member per parameter, each readable as the parameter's type. */
  lemma DocumentPlain(picture: int, boundary: int, keep: bool, neighbours: int)
    requires FitsInt(picture) && FitsInt(boundary) && FitsInt(neighbours)
    ensures var fields := CleanerDocument(picture, boundary, keep, neighbours).fields;
      && (forall k :: k in fields ==> PlainMember(k, fields[k]))
      && (forall i :: 0 <= i < |CleanerParams| ==>
            && CleanerParams[i].path in fields
            && !fields[CleanerParams[i].path].Object?
            && Convert(fields[CleanerParams[i].path], CleanerParams[i].default).Success?)
  {
    CleanerKeyLengths();
    CleanerKeysPlain();
  }

  /** Read back as the parameters' types, the document's members are the numbers and the flag written. */
  lemma DocumentChosen(picture: int, boundary: int, keep: bool, neighbours: int)
    requires FitsInt(neighbours)
    ensures var fields := CleanerDocument(picture, boundary, keep, neighbours).fields;
      && Chosen(fields, CleanerParams[0]) == ADouble(picture as real)
      && Chosen(fields, CleanerParams[1]) == ADouble(boundary as real)
      && Chosen(fields, CleanerParams[2]) == ABool(keep)
      && Chosen(fields, CleanerParams[3]) == AInt(neighbours as Int32)
  {
    CleanerKeyLengths();
  }

  /** A document in get_default_config's shape configures the cleaner with exactly the values it holds. */
  lemma ConfigureFromDocument(picture: int, boundary: int, keep: bool, neighbours: int)
    requires FitsInt(picture) && FitsInt(boundary) && FitsInt(neighbours)
    ensures ConfigureCleaner(CleanerDocument(picture, boundary, keep, neighbours))
         == Success(TailcutsCleaner(picture as real, boundary as real, keep, neighbours))
  {
    DocumentPlain(picture, boundary, keep, neighbours);
    DocumentChosen(picture, boundary, keep, neighbours);
    ConfigureFromPlainObject(CleanerDocument(picture, boundary, keep, neighbours));
  }

  /** Feeding get_default_config back in as the user configuration gives the same cleaner as no configuration. */
  lemma DefaultConfigAgrees()
    ensures ConfigureCleaner(DefaultConfigJson) == Success(DefaultCleaner)
  {
    ConfigureFromDocument(10, 5, false, 2);
  }

  /** A user setting for one threshold overrides it; the other parameters keep their defaults. */
  lemma ConfigureCleanerOverride(picture: real)
    ensures ConfigureCleaner(Object(map["picture_thresh" := Double(picture)]))
         == Success(TailcutsCleaner(picture, 5.0, false, 2))
  {
    var fields := map["picture_thresh" := Double(picture)];
    CleanerKeyLengths();
    CleanerKeysPlain();
    assert forall k :: k in fields ==> PlainMember(k, fields[k]);
    assert Chosen(fields, CleanerParams[0]) == ADouble(picture);
    assert Chosen(fields, CleanerParams[1]) == ADouble(5.0);
    assert Chosen(fields, CleanerParams[2]) == ABool(false);
    assert Chosen(fields, CleanerParams[3]) == AInt(2);
    ConfigureFromPlainObject(Object(fields));
  }

  /** The user configuration of the cleaner tests: every parameter set, the thresholds written as integers. */
  const UserConfigJson: Json := CleanerDocument(30, 10, true, 3)

  /** Overwriting every member of get_default_config gives the same document as writing the settings out afresh. */
  lemma EditedDefaultsAreUserConfig()
    ensures Object(DefaultConfigJson.fields["picture_thresh" := Int(30)]["boundary_thresh" := Int(10)]
                   ["keep_isolated_pixels" := Bool(true)]["min_number_picture_neighbors" := Int(3)])
         == UserConfigJson
  {
    CleanerKeyLengths();
  }

  /** A user configuration setting all four parameters configures the cleaner with exactly those values. */
  lemma ConfigureCleanerUserConfig()
    ensures ConfigureCleaner(UserConfigJson) == Success(TailcutsCleaner(30.0, 10.0, true, 3))
  {
    ConfigureFromDocument(30, 10, true, 3);
  }

  /** The processed user settings leave the member under key to its default. */
  ghost predicate LeftToDefault(processed: Json, key: string) {
    processed.Null? || !processed.Object? || Untouched(processed, [key])
  }

  /** The processed user settings hold a plain (neither null nor object) value under key. */
  ghost predicate SetPlainly(processed: Json, key: string) {
    At(processed, [key]).Some? && !At(processed, [key]).value.Null? && !At(processed, [key]).value.Object?
  }

  /**
   * For every user configuration: each field of the configured cleaner is
   * the registered default when the processed settings leave its key
   * alone, and the user's value read as the field's type when they set it.
   */
  lemma ConfigureCleanerFields(user: Json, processed: Json, c: TailcutsCleaner)
    requires ProcessUserConfig(user) == Success(processed)
    requires ConfigureCleaner(user) == Success(c)
    ensures LeftToDefault(processed, "picture_thresh") ==> c.pictureThresh == DefaultCleaner.pictureThresh
    ensures SetPlainly(processed, "picture_thresh") ==>
      Convert(At(processed, ["picture_thresh"]).value, ADouble(10.0)) == Success(ADouble(c.pictureThresh))
    ensures LeftToDefault(processed, "boundary_thresh") ==> c.boundaryThresh == DefaultCleaner.boundaryThresh
    ensures SetPlainly(processed, "boundary_thresh") ==>
      Convert(At(processed, ["boundary_thresh"]).value, ADouble(5.0)) == Success(ADouble(c.boundaryThresh))
    ensures LeftToDefault(processed, "keep_isolated_pixels") ==>
      c.keepIsolatedPixels == DefaultCleaner.keepIsolatedPixels
    ensures SetPlainly(processed, "keep_isolated_pixels") ==>
      Convert(At(processed, ["keep_isolated_pixels"]).value, ABool(false)) == Success(ABool(c.keepIsolatedPixels))
    ensures LeftToDefault(processed, "min_number_picture_neighbors") ==>
      c.minNumberPictureNeighbors == DefaultCleaner.minNumberPictureNeighbors
    ensures SetPlainly(processed, "min_number_picture_neighbors") ==>
      Convert(At(processed, ["min_number_picture_neighbors"]).value, AInt(2))
        == Success(AInt(c.minNumberPictureNeighbors as Int32))
  {
    var r := Initialize(user, CleanerParams).value;
    CleanerParamsWellFormed();
    FieldSetting(user, processed, c, r, 0);
    FieldSetting(user, processed, c, r, 1);
    FieldSetting(user, processed, c, r, 2);
    FieldSetting(user, processed, c, r, 3);
  }

  /** Parameter i's value as the configured cleaner holds it. */
  function Field(c: TailcutsCleaner, i: int): AnyValue
    requires 0 <= i < 4 && -0x8000_0000 <= c.minNumberPictureNeighbors < 0x8000_0000
  {
    if i == 0 then ADouble(c.pictureThresh)
    else if i == 1 then ADouble(c.boundaryThresh)
    else if i == 2 then ABool(c.keepIsolatedPixels)
    else AInt(c.minNumberPictureNeighbors as Int32)
  }

  /** InitializeOverridesDefaults for parameter i, read off the configured cleaner's field. */
  lemma FieldSetting(user: Json, processed: Json, c: TailcutsCleaner, r: Configured, i: int)
    requires WellFormedParams(CleanerParams) && 0 <= i < |CleanerParams|
    requires SplitPath(CleanerParams[i].path) == [CleanerParams[i].path]
    requires ProcessUserConfig(user) == Success(processed)
    requires Initialize(user, CleanerParams) == Success(r)
    requires ConfigureCleaner(user) == Success(c)
    ensures LeftToDefault(processed, CleanerParams[i].path) ==> Field(c, i) == CleanerParams[i].default
    ensures SetPlainly(processed, CleanerParams[i].path) ==>
      Convert(At(processed, [CleanerParams[i].path]).value, CleanerParams[i].default) == Success(Field(c, i))
  {
    InitializeOverridesDefaults(user, CleanerParams, processed, r, i);
  }
}
