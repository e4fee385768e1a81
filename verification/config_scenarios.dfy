/**
 * The configurable component of test/test_configurable.cpp: five registered
 * parameters (a double, an int, two strings and an embedded JSON object for
 * a person) and the person it embeds (a name and an age). The lemmas pin the
 * outcomes the test cases expect from the configuration store.
 */
module ConfigScenarios {
  import opened Outcomes
  import opened JsonValues
  import opened Paths
  import opened ConfigSystem
  import opened ConfigProperties

  /** test_person::registerParams. */
  const PersonParams: seq<Param> := [
    Param("name", AString("default")),
    Param("age", AInt(0))
  ]

  /** The JSON default registered for the embedded person. */
  const AnnaJson: Json := Object(map["name" := Str("Anna"), "age" := Int(25)])

  /** test_Configurable::registerParams. */
  const ConfigurableParams: seq<Param> := [
    Param("x", ADouble(10.0)),
    Param("y", AInt(10)),
    Param("str", AString("default")),
    Param("test_embedded_class_name", AString("test_person")),
    Param("test_person", AJson(AnnaJson))
  ]

  /** The embedded person, initialized from the configuration's test_person member when there is one. */
  function EmbeddedPerson(config: Json): (r: Result<Configured>)
    ensures r.Success? ==> |r.value.applied| == |PersonParams|
  {
    if config.Object? && "test_person" in config.fields then Initialize(config.fields["test_person"], PersonParams)
    else Initialize(Null, PersonParams)
  }

  lemma PersonParamsWellFormed()
    ensures WellFormedParams(PersonParams)
    ensures forall i :: 0 <= i < |PersonParams| ==> SplitPath(PersonParams[i].path) == [PersonParams[i].path]
  {
    assert |PersonParams[0].path| == 4 && |PersonParams[1].path| == 3;
    assert '.' !in "name" && '.' !in "age";
    PlainParamsWellFormed(PersonParams);
    forall i | 0 <= i < |PersonParams|
      ensures SplitPath(PersonParams[i].path) == [PersonParams[i].path]
    {
      SplitPlainKey(PersonParams[i].path);
    }
  }

  lemma ConfigurableKeysDistinct()
    ensures forall i, j :: 0 <= i < j < |ConfigurableParams| ==> ConfigurableParams[i].path != ConfigurableParams[j].path
  {
    assert |ConfigurableParams[0].path| == 1 && |ConfigurableParams[1].path| == 1;
    assert ConfigurableParams[0].path[0] != ConfigurableParams[1].path[0];
    assert |ConfigurableParams[2].path| == 3 && |ConfigurableParams[3].path| == 24 && |ConfigurableParams[4].path| == 11;
  }

  lemma ConfigurableKeysPlain()
    ensures forall i :: 0 <= i < |ConfigurableParams| ==> '.' !in ConfigurableParams[i].path
  {
    assert '.' !in "x" && '.' !in "y" && '.' !in "str";
    assert '.' !in "test_embedded_class_name" && '.' !in "test_person";
  }

  lemma ConfigurableParamsWellFormed()
    ensures WellFormedParams(ConfigurableParams)
    ensures forall i :: 0 <= i < |ConfigurableParams| ==>
      SplitPath(ConfigurableParams[i].path) == [ConfigurableParams[i].path]
  {
    ConfigurableKeysDistinct();
    ConfigurableKeysPlain();
    PlainParamsWellFormed(ConfigurableParams);
    forall i | 0 <= i < |ConfigurableParams|
      ensures SplitPath(ConfigurableParams[i].path) == [ConfigurableParams[i].path]
    {
      SplitPlainKey(ConfigurableParams[i].path);
    }
  }

  /** The person object the tests write: a name and an age that a C++ int holds. */
  function PersonJson(name: string, age: int): Json {
    Object(map["name" := Str(name), "age" := Int(age)])
  }

  /** Both members are plain, sit under the person's keys and read as the keys' types. */
  lemma PersonJsonPlain(name: string, age: int)
    requires -0x8000_0000 <= age < 0x8000_0000
    ensures var fields := PersonJson(name, age).fields;
      && (forall k :: k in fields ==> PlainMember(k, fields[k]))
      && PersonParams[0].path in fields && fields[PersonParams[0].path] == Str(name)
      && PersonParams[1].path in fields && fields[PersonParams[1].path] == Int(age)
  {
    assert '.' !in "name" && '.' !in "age" && |"name"| == 4 && |"age"| == 3;
  }

  /** A person configured from such an object takes both members over. */
  lemma PersonFromObject(name: string, age: int)
    requires -0x8000_0000 <= age < 0x8000_0000
    ensures Initialize(PersonJson(name, age), PersonParams).Success?
    ensures Initialize(PersonJson(name, age), PersonParams).value.applied == [AString(name), AInt(age as Int32)]
  {
    PersonParamsWellFormed();
    PersonJsonPlain(name, age);
    var user := PersonJson(name, age);
    assert Convert(Str(name), PersonParams[0].default) == Success(AString(name));
    assert Convert(Int(age), PersonParams[1].default) == Success(AInt(age as Int32));
    InitializeFromPlainObject(user, PersonParams);
  }

  // ---------------------------------------------------------------------
  // Default configuration
  // ---------------------------------------------------------------------

  /** Without user settings every parameter gets its default, and the active configuration is the defaults' one. */
  lemma DefaultApplied()
    ensures Initialize(Null, ConfigurableParams).Success?
    ensures Initialize(Null, ConfigurableParams).value.config == BuildDefaultConfig(ConfigurableParams).value
    ensures Initialize(Null, ConfigurableParams).value.applied
         == [ADouble(10.0), AInt(10), AString("default"), AString("test_person"), AJson(AnnaJson)]
  {
    ConfigurableParamsWellFormed();
    InitializeWithoutUserConfig(ConfigurableParams);
  }

  /** The defaults place x, y and str at their keys. */
  lemma DefaultsHoldScalars()
    ensures BuildDefaultConfig(ConfigurableParams).Success?
    ensures var d := BuildDefaultConfig(ConfigurableParams).value;
      && At(d, ["x"]) == Some(Double(10.0))
      && At(d, ["y"]) == Some(Int(10))
      && At(d, ["str"]) == Some(Str("default"))
  {
    ConfigurableParamsWellFormed();
    assert SplitPath(ConfigurableParams[0].path) == ["x"];
    assert SplitPath(ConfigurableParams[1].path) == ["y"];
    assert SplitPath(ConfigurableParams[2].path) == ["str"];
  }

  /** The defaults hold Anna under test_person. */
  lemma DefaultsHoldAnna()
    ensures BuildDefaultConfig(ConfigurableParams).Success?
    ensures At(BuildDefaultConfig(ConfigurableParams).value, ["test_person"]) == Some(AnnaJson)
  {
    ConfigurableParamsWellFormed();
    var p := ConfigurableParams[4];
    assert SplitPath(p.path) == [p.path];
    assert p == Param("test_person", AJson(AnnaJson));
  }

  /** Without user settings every parameter gets its default, and the active configuration lists them. */
  lemma DefaultConfiguration()
    ensures Initialize(Null, ConfigurableParams).Success?
    ensures var r := Initialize(Null, ConfigurableParams).value;
      && r.applied == [ADouble(10.0), AInt(10), AString("default"), AString("test_person"), AJson(AnnaJson)]
      && At(r.config, ["x"]) == Some(Double(10.0))
      && At(r.config, ["y"]) == Some(Int(10))
      && At(r.config, ["str"]) == Some(Str("default"))
      && At(r.config, ["test_person"]) == Some(AnnaJson)
  {
    DefaultApplied();
    DefaultsHoldScalars();
    DefaultsHoldAnna();
  }

  /** Default configuration: the embedded person is Anna, aged 25, read from the defaults. */
  lemma DefaultPerson()
    ensures var r := Initialize(Null, ConfigurableParams);
      && r.Success?
      && EmbeddedPerson(r.value.config).Success?
      && EmbeddedPerson(r.value.config).value.applied == [AString("Anna"), AInt(25)]
  {
    DefaultConfiguration();
    assert AnnaJson == PersonJson("Anna", 25);
    PersonFromObject("Anna", 25);
  }

  // ---------------------------------------------------------------------
  // User-defined configuration
  // ---------------------------------------------------------------------

  /** The user settings of the string test: a double, an int and a string. */
  function UserSettings(x: real, y: int, str: string): Json {
    Object(map["x" := Double(x), "y" := Int(y), "str" := Str(str)])
  }

  /** The three settings are plain, sit under the first three keys, and the last two keys are absent. */
  lemma UserSettingsPlain(x: real, y: int, str: string)
    requires -0x8000_0000 <= y < 0x8000_0000
    ensures var fields := UserSettings(x, y, str).fields;
      && (forall k :: k in fields ==> PlainMember(k, fields[k]))
      && ConfigurableParams[0].path in fields && fields[ConfigurableParams[0].path] == Double(x)
      && ConfigurableParams[1].path in fields && fields[ConfigurableParams[1].path] == Int(y)
      && ConfigurableParams[2].path in fields && fields[ConfigurableParams[2].path] == Str(str)
      && ConfigurableParams[3].path !in fields && ConfigurableParams[4].path !in fields
  {
    assert |"x"| == 1 && |"y"| == 1 && |"str"| == 3 && |"test_embedded_class_name"| == 24 && |"test_person"| == 11;
    assert "x"[0] != "y"[0];
    assert '.' !in "x" && '.' !in "y" && '.' !in "str";
  }

  /** Read as the parameters' types, the settings give x, y and str; the other two keep their defaults. */
  lemma UserSettingsChosen(x: real, y: int, str: string)
    requires -0x8000_0000 <= y < 0x8000_0000
    ensures var fields := UserSettings(x, y, str).fields;
      && Chosen(fields, ConfigurableParams[0]) == ADouble(x)
      && Chosen(fields, ConfigurableParams[1]) == AInt(y as Int32)
      && Chosen(fields, ConfigurableParams[2]) == AString(str)
      && Chosen(fields, ConfigurableParams[3]) == AString("test_person")
      && Chosen(fields, ConfigurableParams[4]) == AJson(AnnaJson)
  {
    UserSettingsPlain(x, y, str);
  }

  /** Every setting the parameters look up is readable as the parameter's type. */
  lemma UserSettingsReadable(x: real, y: int, str: string)
    requires -0x8000_0000 <= y < 0x8000_0000
    ensures var fields := UserSettings(x, y, str).fields;
      forall i :: 0 <= i < |ConfigurableParams| && ConfigurableParams[i].path in fields ==>
        !fields[ConfigurableParams[i].path].Object?
        && Convert(fields[ConfigurableParams[i].path], ConfigurableParams[i].default).Success?
  {
    var fields := UserSettings(x, y, str).fields;
    UserSettingsPlain(x, y, str);
    forall i | 0 <= i < |ConfigurableParams| && ConfigurableParams[i].path in fields
      ensures !fields[ConfigurableParams[i].path].Object?
      ensures Convert(fields[ConfigurableParams[i].path], ConfigurableParams[i].default).Success?
    {
      if i == 0 {
      } else if i == 1 {
      } else {
        assert i == 2;
      }
    }
  }

  /** Initializing from the settings gives every parameter its chosen value. */
  lemma UserDefinedApplied(x: real, y: int, str: string)
    requires -0x8000_0000 <= y < 0x8000_0000
    ensures WellFormedParams(ConfigurableParams)
    ensures Initialize(UserSettings(x, y, str), ConfigurableParams).Success?
    ensures forall i :: 0 <= i < |ConfigurableParams| ==>
      Initialize(UserSettings(x, y, str), ConfigurableParams).value.applied[i]
        == Chosen(UserSettings(x, y, str).fields, ConfigurableParams[i])
  {
    ConfigurableParamsWellFormed();
    UserSettingsPlain(x, y, str);
    UserSettingsReadable(x, y, str);
    InitializeFromPlainObject(UserSettings(x, y, str), ConfigurableParams);
  }

  /** The three user settings override their defaults; the other two parameters keep theirs. */
  lemma UserDefinedConfiguration(x: real, y: int, str: string)
    requires -0x8000_0000 <= y < 0x8000_0000
    ensures Initialize(UserSettings(x, y, str), ConfigurableParams).Success?
    ensures var applied := Initialize(UserSettings(x, y, str), ConfigurableParams).value.applied;
      && applied[0] == ADouble(x) && applied[1] == AInt(y as Int32) && applied[2] == AString(str)
      && applied[3] == AString("test_person") && applied[4] == AJson(AnnaJson)
  {
    UserDefinedApplied(x, y, str);
    UserSettingsChosen(x, y, str);
  }

  // ---------------------------------------------------------------------
  // Embedded configuration
  // ---------------------------------------------------------------------

  /** The person is built from whatever object the active configuration holds under test_person. */
  lemma EmbeddedFromConfig(config: Json, person: Json)
    requires At(config, ["test_person"]) == Some(person)
    ensures EmbeddedPerson(config) == Initialize(person, PersonParams)
  {
  }

  /** The embedded test's user settings with the person given as a nested object. */
  function NestedPerson(name: string, age: int): Json {
    Object(map["test_embedded_class_name" := Str("test_person"), "test_person" := PersonJson(name, age)])
  }

  /**
   * The embedded test's user settings with the person's members given under
   * the dotted keys "test_person.age" and "test_person.name" (DottedKeysJoin).
   */
  function DottedPerson(name: string, age: int): Json {
    Object(map["test_embedded_class_name" := Str("test_person"),
               Join(["test_person", "age"]) := Int(age), Join(["test_person", "name"]) := Str(name)])
  }

  /** Both members of the nested settings are plain. */
  lemma NestedPersonMembers(name: string, age: int)
    ensures var fields := NestedPerson(name, age).fields;
      forall k :: k in fields ==> PlainMember(k, fields[k])
  {
    assert '.' !in "test_embedded_class_name";
  }

  /** The nested settings leave the first three keys out and set the last two. */
  lemma NestedPersonKeys(name: string, age: int)
    ensures var fields := NestedPerson(name, age).fields;
      && ConfigurableParams[0].path !in fields && ConfigurableParams[1].path !in fields
      && ConfigurableParams[2].path !in fields
      && ConfigurableParams[3].path in fields && fields[ConfigurableParams[3].path] == Str("test_person")
      && ConfigurableParams[4].path in fields && fields[ConfigurableParams[4].path] == PersonJson(name, age)
  {
    assert |"x"| == 1 && |"y"| == 1 && |"str"| == 3 && |"test_embedded_class_name"| == 24 && |"test_person"| == 11;
  }

  /** User settings that leave x, y and str out and name the embedded class by a string settle every parameter. */
  lemma EmbeddedOnlySettles(user: Json)
    requires user.Object?
    requires ConfigurableParams[0].path !in user.fields && ConfigurableParams[1].path !in user.fields
    requires ConfigurableParams[2].path !in user.fields
    requires ConfigurableParams[3].path in user.fields && user.fields[ConfigurableParams[3].path].Str?
    ensures WellFormedParams(ConfigurableParams)
    ensures forall i :: 0 <= i < |ConfigurableParams| ==> Settled(user, ConfigurableParams[i])
  {
    ConfigurableParamsWellFormed();
    forall i | 0 <= i < |ConfigurableParams|
      ensures Settled(user, ConfigurableParams[i])
    {
      if i < 3 {
        assert ConfigurableParams[i].path !in user.fields;
      } else if i == 3 {
        assert ConfigurableParams[i].default.AString?;
      } else {
        assert ConfigurableParams[i].default.AJson?;
      }
      SettledByMember(user, ConfigurableParams[i]);
    }
  }

  /** Every parameter is settled by the nested settings, which processing leaves as they are. */
  lemma NestedPersonSettled(name: string, age: int)
    ensures ProcessUserConfig(NestedPerson(name, age)) == Success(NestedPerson(name, age))
    ensures WellFormedParams(ConfigurableParams)
    ensures forall i :: 0 <= i < |ConfigurableParams| ==> Settled(NestedPerson(name, age), ConfigurableParams[i])
  {
    var user := NestedPerson(name, age);
    ConfigurableParamsWellFormed();
    NestedPersonMembers(name, age);
    NestedPersonKeys(name, age);
    ProcessPlainObject(user);
    EmbeddedOnlySettles(user);
  }

  /** Merged over defaults holding Anna, the nested person replaces her. */
  lemma NestedPersonMerged(name: string, age: int, defaults: Json)
    requires At(defaults, ["test_person"]) == Some(AnnaJson)
    ensures At(MergeConfig(defaults, NestedPerson(name, age)), ["test_person"]) == Some(PersonJson(name, age))
  {
    var user := NestedPerson(name, age);
    NestedPersonKeys(name, age);
    MergePatchMember(defaults, user, "test_person");
    assert |"name"| == 4 && |"age"| == 3;
    MergePatchReplaces(AnnaJson, PersonJson(name, age));
  }

  /** Initialization with the nested settings succeeds and merges them over the defaults. */
  lemma NestedPersonInitializes(name: string, age: int)
    ensures Initialize(NestedPerson(name, age), ConfigurableParams).Success?
    ensures BuildDefaultConfig(ConfigurableParams).Success?
    ensures Initialize(NestedPerson(name, age), ConfigurableParams).value.config
         == MergeConfig(BuildDefaultConfig(ConfigurableParams).value, NestedPerson(name, age))
  {
    var user := NestedPerson(name, age);
    ConfigurableParamsWellFormed();
    NestedPersonSettled(name, age);
    InitializeSucceeds(user, ConfigurableParams, user);
  }

  /**
   * With the person given as a nested object, initialization succeeds and the
   * active configuration holds exactly that object under test_person: its
   * members replace both of the default's.
   */
  lemma NestedPersonConfiguration(name: string, age: int)
    ensures Initialize(NestedPerson(name, age), ConfigurableParams).Success?
    ensures At(Initialize(NestedPerson(name, age), ConfigurableParams).value.config, ["test_person"])
         == Some(PersonJson(name, age))
  {
    NestedPersonInitializes(name, age);
    DefaultsHoldAnna();
    NestedPersonMerged(name, age, BuildDefaultConfig(ConfigurableParams).value);
  }

  /** Embedded configuration, first case: the person takes the nested object's name and age. */
  lemma NestedPersonEmbedded(name: string, age: int)
    requires -0x8000_0000 <= age < 0x8000_0000
    ensures var r := Initialize(NestedPerson(name, age), ConfigurableParams);
      && r.Success?
      && EmbeddedPerson(r.value.config).Success?
      && EmbeddedPerson(r.value.config).value.applied == [AString(name), AInt(age as Int32)]
  {
    NestedPersonConfiguration(name, age);
    EmbeddedFromConfig(Initialize(NestedPerson(name, age), ConfigurableParams).value.config, PersonJson(name, age));
    PersonFromObject(name, age);
  }

  // ---------------------------------------------------------------------
  // Embedded configuration, second case: the person under dotted keys
  // ---------------------------------------------------------------------

  /** The class key sorts before the person's keys: they part at 'e' against 'p'. */
  lemma ClassKeyFirst()
    ensures KeyLe("test_embedded_class_name", Join(["test_person", "age"]))
  {
    DottedKeysJoin();
    assert KeyLe("test_embedded_class_name", "test_person.age");
  }

  /** "age" sorts before "name". */
  lemma AgeKeyBeforeName()
    ensures KeyLe(Join(["test_person", "age"]), Join(["test_person", "name"]))
  {
    DottedKeysJoin();
    assert KeyLe("test_person.age", "test_person.name");
  }

  /** The dotted keys join the person's key with each member's key. */
  lemma DottedKeysJoin()
    ensures Join(["test_person", "age"]) == "test_person.age"
    ensures Join(["test_person", "name"]) == "test_person.name"
  {
  }

  /** The three settings are plain where they must be: no dot in the class key, the person's key or the member keys. */
  lemma DottedPiecesPlain()
    ensures '.' !in "test_embedded_class_name" && '.' !in "test_person"
    ensures "test_embedded_class_name" != "test_person" && "age" != "name"
    ensures '.' !in "age" && '.' !in "name"
  {
    assert |"test_embedded_class_name"| == 24 && |"test_person"| == 11 && |"age"| == 3 && |"name"| == 4;
  }

  /** processUserConfig gathers the dotted members into the nested person object. */
  lemma DottedPersonProcessed(name: string, age: int)
    requires -0x8000_0000 <= age < 0x8000_0000
    ensures ProcessUserConfig(DottedPerson(name, age)) == Success(NestedPerson(name, age))
  {
    DottedPiecesPlain();
    ClassKeyFirst();
    AgeKeyBeforeName();
    ProcessNests("test_embedded_class_name", "test_person", "age", "name", Str("test_person"), Int(age), Str(name));
  }

  /** Embedded configuration, second case: dotted keys configure the person exactly as the nested object does. */
  lemma DottedPersonEmbedded(name: string, age: int)
    requires -0x8000_0000 <= age < 0x8000_0000
    ensures Initialize(DottedPerson(name, age), ConfigurableParams) == Initialize(NestedPerson(name, age), ConfigurableParams)
    ensures var r := Initialize(DottedPerson(name, age), ConfigurableParams);
      && r.Success?
      && EmbeddedPerson(r.value.config).Success?
      && EmbeddedPerson(r.value.config).value.applied == [AString(name), AInt(age as Int32)]
  {
    DottedPersonProcessed(name, age);
    NestedPersonSettled(name, age);
    InitializeSeesProcessed(DottedPerson(name, age), NestedPerson(name, age), ConfigurableParams);
    NestedPersonEmbedded(name, age);
  }
}
