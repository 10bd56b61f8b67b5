/**
 * The interface the bundled example add-on registers for its script
 * (example/__init__.py, setup_script): a getter that fills unset overrides
 * with fixed values, a setter that accepts every save, the stored and
 * read-only field lists, and a reset.
 */
module Example {
  import opened Wrappers
  import opened ConfigTypes
  import Config
  import ScriptConfig

  const SCRIPT_NAME: string := "MyAwesomeScript"
  const VERSION: string := "v1.0"
  const DESCRIPTION: string := "This is my awesome script!"
  const TAG: string := "MyAwesomeScript_tag"
  const DEFAULT_POSITION: string := "into_template"

  /**
   * Stands in for the stripped text of MyAwesomeScript.js, which `get_script`
   * reads from disk at start-up (example/__init__.py:16-23). That file is not
   * part of this model, and no property depends on this value.
   */
  const BUNDLED_SCRIPT: string := "// MyAwesomeScript"

  /**
   * The getter: name, type, label, version and description are constants;
   * enabled, position, conditions and code come from storage when overridden.
   */
  function Getter(id: string, storage: ScriptStorage): (c: ConcreteScript)
    ensures c.name == SCRIPT_NAME && c.scriptType == "js" && c.labelText == ""
    ensures c.version == VERSION && c.description == DESCRIPTION
    ensures storage.enabled.Some? ==> c.enabled == storage.enabled.value
    ensures storage.enabled.None? ==> c.enabled
    ensures storage.position.Some? ==> c.position == storage.position.value
    ensures storage.position.None? ==> c.position == DEFAULT_POSITION
    ensures storage.conditions.Some? ==> c.conditions == storage.conditions.value
    ensures storage.conditions.None? ==> c.conditions == []
    ensures storage.code.Some? ==> c.code == storage.code.value
    ensures storage.code.None? ==> c.code == BUNDLED_SCRIPT
  {
    ConcreteScript(
      SCRIPT_NAME,
      if storage.enabled.Some? then storage.enabled.value else true,
      "js",
      "",
      VERSION,
      DESCRIPTION,
      if storage.position.Some? then storage.position.value else DEFAULT_POSITION,
      if storage.conditions.Some? then storage.conditions.value else [],
      if storage.code.Some? then storage.code.value else BUNDLED_SCRIPT)
  }

  /** The setter accepts every save as it is. */
  function Setter(id: string, script: ConcreteScript): (r: SetterResult)
    ensures r.Verdict? && r.truthy
  {
    Verdict(true)
  }

  /** The flag record the interface library builds from a list of field names. */
  function FlagsOf(names: seq<string>): (b: ScriptBool)
    ensures forall f :: FlagAt(b, f) <==> FieldName(f) in names
  {
    var b := ScriptBool(
      "name" in names, "enabled" in names, "type" in names, "label" in names, "version" in names,
      "description" in names, "position" in names, "conditions" in names, "code" in names);
    FlagsOfFields(names, b);
    b
  }

  lemma FlagsOfFields(names: seq<string>, b: ScriptBool)
    requires b == ScriptBool(
      "name" in names, "enabled" in names, "type" in names, "label" in names, "version" in names,
      "description" in names, "position" in names, "conditions" in names, "code" in names)
    ensures forall f :: FlagAt(b, f) <==> FieldName(f) in names
  {
    forall f ensures FlagAt(b, f) <==> FieldName(f) in names {
      match f
      case Name =>
      case Enabled =>
      case Type =>
      case Label =>
      case Version =>
      case Description =>
      case Position =>
      case Conditions =>
      case Code =>
    }
  }

  const STORE: ScriptBool := FlagsOf(["enabled", "code", "position", "conditions"])
  const READONLY: ScriptBool := FlagsOf(["name", "type", "version", "description"])

  /**
   * No field is both stored and read-only, and every field except the label is
   * one or the other.
   */
  lemma StoreReadonlyPartition()
    ensures forall f :: !(FlagAt(STORE, f) && FlagAt(READONLY, f))
    ensures forall f :: f != Label ==> FlagAt(STORE, f) || FlagAt(READONLY, f)
    ensures !FlagAt(STORE, Label) && !FlagAt(READONLY, Label)
  {
    forall f
      ensures !(FlagAt(STORE, f) && FlagAt(READONLY, f))
      ensures f != Label ==> FlagAt(STORE, f) || FlagAt(READONLY, f)
    {
      match f
      case Name =>
      case Enabled =>
      case Type =>
      case Label =>
      case Version =>
      case Description =>
      case Position =>
      case Conditions =>
      case Code =>
    }
  }

  /** The truthiness of an optional flag: `None` and `False` are both falsy. */
  predicate Truthy(o: Option<bool>) {
    o.Some? && o.value
  }

  /**
   * The reset as written: it tests the stored enabled flag for truthiness, so
   * a stored `False` is replaced by `True` as well.
   */
  function ResetAsWritten(id: string, storage: ScriptStorage): (c: ConcreteScript)
    ensures c == Getter(id, storage.(enabled := None, position := None, code := None))
  {
    ConcreteScript(
      SCRIPT_NAME,
      if Truthy(storage.enabled) then storage.enabled.value else true,
      "js",
      "",
      VERSION,
      DESCRIPTION,
      DEFAULT_POSITION,
      if storage.conditions.Some? then storage.conditions.value else [],
      BUNDLED_SCRIPT)
  }

  /** A disabled script comes back enabled from the reset as written. */
  lemma ResetAsWrittenEnables(id: string)
    ensures var disabled := EMPTY_STORAGE.(enabled := Some(false));
      ResetAsWritten(id, disabled).enabled != disabled.enabled.value
  {
  }

  /**
   * The reset as its comment describes it: the getter with the position and
   * code overrides cleared, so the enabled status and the conditions are kept.
   */
  function Reset(id: string, storage: ScriptStorage): (c: ConcreteScript)
    ensures c == Getter(id, storage.(position := None, code := None))
    ensures storage.enabled.Some? ==> c.enabled == storage.enabled.value
    ensures storage.conditions.Some? ==> c.conditions == storage.conditions.value
    ensures c.position == DEFAULT_POSITION && c.code == BUNDLED_SCRIPT
  {
    ConcreteScript(
      SCRIPT_NAME,
      if storage.enabled.Some? then storage.enabled.value else true,
      "js",
      "",
      VERSION,
      DESCRIPTION,
      DEFAULT_POSITION,
      if storage.conditions.Some? then storage.conditions.value else [],
      BUNDLED_SCRIPT)
  }

  /** The registered interface; the autodelete policy is left at its default, false. */
  const INTERFACE: Interface := Interface(TAG, Getter, Setter, STORE, READONLY, Some(Reset), Always(false))

  /**
   * Merging an edit with the stored fields and reading it back through the
   * getter gives the edit's enabled, code, position and conditions.
   */
  lemma GetterAgreesWithMerge(id: string, storage: ScriptStorage, c: ConcreteScript)
    ensures var shown := Getter(id, ScriptConfig.FixStorage(storage, c, STORE));
      shown.enabled == c.enabled && shown.code == c.code
      && shown.position == c.position && shown.conditions == c.conditions
  {
    var merged := ScriptConfig.FixStorage(storage, c, STORE);
    assert FlagAt(STORE, Enabled) && FlagAt(STORE, Code) && FlagAt(STORE, Position) && FlagAt(STORE, Conditions);
    assert StorageAt(merged, Enabled) == Some(BoolValue(c.enabled));
    assert StorageAt(merged, Code) == Some(TextValue(c.code));
    assert StorageAt(merged, Position) == Some(TextValue(c.position));
    assert StorageAt(merged, Conditions) == Some(ConditionsValue(c.conditions));
  }

  /**
   * A save from the editor followed by a reload shows the form's enabled,
   * code, position and conditions, while the read-only fields revert to the
   * getter's constants whatever was typed.
   */
  lemma SaveThenReload(meta: MetaScript, form: ScriptConfig.Form)
    ensures var saved := ScriptConfig.ExportData(ScriptConfig.EditingMeta(meta, INTERFACE), form);
      var shown := Getter(meta.id, saved.meta.storage);
      && saved.Meta? && saved.meta.tag == meta.tag && saved.meta.id == meta.id
      && shown.enabled == form.enabled && shown.code == form.code
      && shown.position == form.position && shown.conditions == form.conditions
      && shown.name == SCRIPT_NAME && shown.scriptType == "js"
      && shown.version == VERSION && shown.description == DESCRIPTION
  {
    var edited := ScriptConfig.EditedScript(form);
    GetterAgreesWithMerge(meta.id, meta.storage, edited);
  }

  /** In the editor the read-only fields are never editable and the stored ones follow the enabled box. */
  lemma Editability(checked: bool, meta: MetaScript)
    ensures var e := ScriptConfig.EnableChangeGui(checked, ScriptConfig.EditingMeta(meta, INTERFACE));
      && !e.name && !e.scriptType && !e.version && !e.description
      && e.position == checked && e.conditions == checked && e.code == checked
  {
    var e := ScriptConfig.EnableChangeGui(checked, ScriptConfig.EditingMeta(meta, INTERFACE));
    assert ScriptConfig.EditableAt(e, Name) == (checked && !FlagAt(READONLY, Name));
    assert ScriptConfig.EditableAt(e, Type) == (checked && !FlagAt(READONLY, Type));
    assert ScriptConfig.EditableAt(e, Version) == (checked && !FlagAt(READONLY, Version));
    assert ScriptConfig.EditableAt(e, Description) == (checked && !FlagAt(READONLY, Description));
    assert ScriptConfig.EditableAt(e, Position) == (checked && !FlagAt(READONLY, Position));
    assert ScriptConfig.EditableAt(e, Conditions) == (checked && !FlagAt(READONLY, Conditions));
    assert ScriptConfig.EditableAt(e, Code) == (checked && !FlagAt(READONLY, Code));
  }

  /** The example's meta scripts are never autodeleted. */
  lemma NeverAutodeleted(m: MetaScript)
    requires m.tag == TAG
    ensures !Config.ShouldAutodelete(map[TAG := INTERFACE], Meta(m))
  {
  }
}
