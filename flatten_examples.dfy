/** The named-root fixture of the flattener's unit tests, under both versions. */
module FlattenExamples {
  import opened Wrappers
  import opened JsonValue
  import opened FlatMaps
  import opened Flatten

  const Meta := JObject([("name", JString("MyButton"))])
  const Members := [("meta", Meta), ("type", JString("ia.display.button"))]

  lemma ButtonSteps(ver: Version)
    ensures MetaName(Members) == Ok(Some(JString("MyButton")))
    ensures MetaName(Meta.members) == Ok(None)
    ensures FlattenMembers(ver, Meta.members, NamedPath(ver, "", MetaName(Members).value) + ".meta", 0, [])
      == Ok([(NamedPath(ver, "", MetaName(Members).value) + ".meta.name", JString("MyButton"))])
  {
    assert Get(Members, "meta") == Some(Meta);
    assert Get(Meta.members, "name") == Some(JString("MyButton"));
    assert Get(Meta.members, "meta") == None by {
      assert Meta.members[0].0 == "name" != "meta";
      assert Meta.members[1..] == [];
    }
    var p := NamedPath(ver, "", Some(JString("MyButton")));
    assert p != "";
    var q := p + ".meta";
    assert ChildPath(q, "name") == p + ".meta.name";
    assert Put([], p + ".meta.name", JString("MyButton")) == [(p + ".meta.name", JString("MyButton"))];
  }

  /** The path the button's own keys hang from. */
  function ButtonPath(ver: Version): string {
    NamedPath(ver, "", Some(JString("MyButton")))
  }

  /** The fixture is an object named by its `meta.name`, flattened from its members. */
  lemma RootMembers(ver: Version)
    ensures ButtonPath(ver) != ""
    ensures FlattenJson(ver, JObject(Members)) == FlattenMembers(ver, Members, ButtonPath(ver), 0, [])
  {
    ButtonSteps(ver);
  }

  /** The `meta` member contributes its one `name` key. */
  lemma MetaMember(ver: Version)
    ensures var p := ButtonPath(ver);
      FlattenMembers(ver, Members, p, 0, []) == FlattenMembers(ver, Members, p, 1, [(p + ".meta.name", JString("MyButton"))])
  {
    ButtonSteps(ver);
    var p := ButtonPath(ver);
    assert Members[0] == ("meta", Meta);
    assert p != "";
    assert ChildPath(p, "meta") == p + ".meta";
    assert FlattenFrom(ver, Meta, p + ".meta", []) == FlattenMembers(ver, Meta.members, p + ".meta", 0, []);
  }

  /** The `type` member is a new key after the `meta.name` one. */
  lemma TypeMember(ver: Version)
    ensures var p := ButtonPath(ver); var e1 := [(p + ".meta.name", JString("MyButton"))];
      FlattenMembers(ver, Members, p, 1, e1) == Ok(e1 + [(p + ".type", JString("ia.display.button"))])
  {
    RootMembers(ver);
    var p := ButtonPath(ver);
    var e1 := [(p + ".meta.name", JString("MyButton"))];
    assert Members[1] == ("type", JString("ia.display.button"));
    assert ChildPath(p, "type") == p + ".type";
    assert (p + ".meta.name")[|p| + 1] != (p + ".type")[|p| + 1];
    assert IndexOf(e1, p + ".type") == -1;
    var e2 := e1 + [(p + ".type", JString("ia.display.button"))];
    assert FlattenMembers(ver, Members, p, 1, e1) == FlattenMembers(ver, Members, p, 2, e2);
  }

  lemma CommonKeys()
    ensures ButtonPath(Common) + ".meta.name" == ".MyButton.meta.name"
    ensures ButtonPath(Common) + ".type" == ".MyButton.type"
  {
    assert ButtonPath(Common) == ".MyButton";
  }

  /** The common flattener puts a leading dot before the root's name. */
  lemma CommonNamedRoot()
    ensures FlattenJson(Common, JObject(Members)) == Ok([(".MyButton.meta.name", JString("MyButton")), (".MyButton.type", JString("ia.display.button"))])
  {
    RootMembers(Common);
    MetaMember(Common);
    TypeMember(Common);
    var p := ButtonPath(Common);
    var e1 := [(p + ".meta.name", JString("MyButton"))];
    var e2 := e1 + [(p + ".type", JString("ia.display.button"))];
    assert FlattenJson(Common, JObject(Members)) == FlattenMembers(Common, Members, p, 1, e1);
    assert FlattenJson(Common, JObject(Members)) == Ok(e2);
    CommonKeys();
    assert e2[0] == (".MyButton.meta.name", JString("MyButton")) && e2[1] == (".MyButton.type", JString("ia.display.button"));
    assert e2 == [(".MyButton.meta.name", JString("MyButton")), (".MyButton.type", JString("ia.display.button"))];
  }

  lemma TempKeys()
    ensures ButtonPath(Temp) + ".meta.name" == "MyButton.meta.name"
    ensures ButtonPath(Temp) + ".type" == "MyButton.type"
  {
    assert ButtonPath(Temp) == "MyButton";
  }

  /** The variant makes the name the first segment. */
  lemma TempNamedRoot()
    ensures FlattenJson(Temp, JObject(Members)) == Ok([("MyButton.meta.name", JString("MyButton")), ("MyButton.type", JString("ia.display.button"))])
  {
    RootMembers(Temp);
    MetaMember(Temp);
    TypeMember(Temp);
    var p := ButtonPath(Temp);
    var e1 := [(p + ".meta.name", JString("MyButton"))];
    var e2 := e1 + [(p + ".type", JString("ia.display.button"))];
    assert FlattenJson(Temp, JObject(Members)) == FlattenMembers(Temp, Members, p, 1, e1);
    assert FlattenJson(Temp, JObject(Members)) == Ok(e2);
    TempKeys();
    assert e2[0] == ("MyButton.meta.name", JString("MyButton")) && e2[1] == ("MyButton.type", JString("ia.display.button"));
    assert e2 == [("MyButton.meta.name", JString("MyButton")), ("MyButton.type", JString("ia.display.button"))];
  }
}
