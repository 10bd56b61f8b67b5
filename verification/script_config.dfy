/**
 * The script editor's data rules (src/gui_config/custom/script_config.py):
 * merging an edited script into a meta script's storage, deciding what a save
 * produces from the interface setter's answer, and which fields are editable.
 * The dialog's own state (`self.meta`, `self.iface`, the widgets) is passed in
 * as values.
 */
module ScriptConfig {
  import opened Wrappers
  import opened ConfigTypes
  import Config

  /**
   * fix_storage: the fields flagged in `toStore` take the script's values;
   * every other field keeps what the storage had.
   */
  function FixStorage(store: ScriptStorage, script: ConcreteScript, toStore: ScriptBool): (r: ScriptStorage)
    ensures forall f :: FlagAt(toStore, f) ==> StorageAt(r, f) == Some(ScriptAt(script, f))
    ensures forall f :: !FlagAt(toStore, f) ==> StorageAt(r, f) == StorageAt(store, f)
  {
    var r := ScriptStorage(
      Pick(toStore.name, script.name, store.name),
      Pick(toStore.enabled, script.enabled, store.enabled),
      Pick(toStore.scriptType, script.scriptType, store.scriptType),
      Pick(toStore.labelText, script.labelText, store.labelText),
      Pick(toStore.version, script.version, store.version),
      Pick(toStore.description, script.description, store.description),
      Pick(toStore.position, script.position, store.position),
      Pick(toStore.conditions, script.conditions, store.conditions),
      Pick(toStore.code, script.code, store.code));
    FixStorageFields(store, script, toStore, r);
    r
  }

  /** One field of the merge: the script's value when flagged, the stored one otherwise. */
  function Pick<T>(flag: bool, value: T, stored: Option<T>): Option<T> {
    if flag then Some(value) else stored
  }

  lemma FixStorageFields(store: ScriptStorage, script: ConcreteScript, toStore: ScriptBool, r: ScriptStorage)
    requires r == ScriptStorage(
      Pick(toStore.name, script.name, store.name),
      Pick(toStore.enabled, script.enabled, store.enabled),
      Pick(toStore.scriptType, script.scriptType, store.scriptType),
      Pick(toStore.labelText, script.labelText, store.labelText),
      Pick(toStore.version, script.version, store.version),
      Pick(toStore.description, script.description, store.description),
      Pick(toStore.position, script.position, store.position),
      Pick(toStore.conditions, script.conditions, store.conditions),
      Pick(toStore.code, script.code, store.code))
    ensures forall f :: FlagAt(toStore, f) ==> StorageAt(r, f) == Some(ScriptAt(script, f))
    ensures forall f :: !FlagAt(toStore, f) ==> StorageAt(r, f) == StorageAt(store, f)
  {
    forall f
      ensures FlagAt(toStore, f) ==> StorageAt(r, f) == Some(ScriptAt(script, f))
      ensures !FlagAt(toStore, f) ==> StorageAt(r, f) == StorageAt(store, f)
    {
      match f
      case Name =>
      case Enabled =>
      case Type =>
      case Label =>
      case Version =>
      case Description =>
      case Position =>
      case Conditions =>
      case Code =>
    }
  }

  /** With nothing flagged, the storage is returned unchanged. */
  lemma FixStorageNoFlags(store: ScriptStorage, script: ConcreteScript)
    ensures FixStorage(store, script, NO_FLAGS) == store
  {
    StorageExt(FixStorage(store, script, NO_FLAGS), store);
  }

  /** Merging the same script twice with the same flags is merging it once. */
  lemma FixStorageIdempotent(store: ScriptStorage, script: ConcreteScript, toStore: ScriptBool)
    ensures FixStorage(FixStorage(store, script, toStore), script, toStore) == FixStorage(store, script, toStore)
  {
    var once := FixStorage(store, script, toStore);
    StorageExt(FixStorage(once, script, toStore), once);
  }

  /** The editor's widgets as read on export; the form has no label field. */
  datatype Form = Form(
    name: string,
    enabled: bool,
    scriptType: string,
    version: string,
    description: string,
    position: string,
    conditions: seq<Condition>,
    code: string)

  /** The mapping exportData builds from the widgets. */
  function FormMapping(form: Form): (r: RawScript)
    ensures RawScriptKeys(r) == CONCRETE_KEYS - {"label"}
    ensures r.name == Some(form.name) && r.enabled == Some(form.enabled) && r.scriptType == Some(form.scriptType)
    ensures r.version == Some(form.version) && r.description == Some(form.description)
    ensures r.position == Some(form.position) && r.conditions == Some(form.conditions) && r.code == Some(form.code)
  {
    RawScript(
      Some(form.name), Some(form.enabled), Some(form.scriptType), None, Some(form.version),
      Some(form.description), Some(form.position), Some(form.conditions), Some(form.code),
      None, None, None)
  }

  /**
   * The script the user edited: the form's mapping always has a "name" key, so
   * it reads back as a concrete script carrying the form's values, with the
   * default label.
   */
  function EditedScript(form: Form): (c: ConcreteScript)
    ensures c.name == form.name && c.enabled == form.enabled && c.scriptType == form.scriptType
    ensures c.version == form.version && c.description == form.description
    ensures c.position == form.position && c.conditions == form.conditions && c.code == form.code
    ensures c.labelText == DEFAULT_CONCRETE_SCRIPT.labelText
  {
    var s := Config.DeserializeScript(Mapping(FormMapping(form)));
    assert s.Concrete?;
    assert ScriptAt(s.concrete, Label) == ScriptAt(DEFAULT_CONCRETE_SCRIPT, Label);
    s.concrete
  }

  /** What the dialog is editing: a concrete script, or a meta script with its interface. */
  datatype EditContext = EditingConcrete | EditingMeta(meta: MetaScript, iface: Interface)

  /**
   * exportData: a concrete script is returned as edited; for a meta script the
   * setter's answer decides. A script answer is stored instead of the edit
   * (checked first), any other truthy answer stores the edit, and a falsy one
   * returns the meta script unchanged. Only the storage is ever replaced.
   */
  function ExportData(ctx: EditContext, form: Form): (r: Script)
    ensures ctx.EditingConcrete? ==> r == Concrete(EditedScript(form))
    ensures ctx.EditingMeta? ==> r.Meta? && r.meta.tag == ctx.meta.tag && r.meta.id == ctx.meta.id
    ensures ctx.EditingMeta? && ctx.iface.setter(ctx.meta.id, EditedScript(form)) == Verdict(false) ==>
      r == Meta(ctx.meta)
    ensures ctx.EditingMeta? && ctx.iface.setter(ctx.meta.id, EditedScript(form)) == Verdict(true) ==>
      r.meta.storage == FixStorage(ctx.meta.storage, EditedScript(form), ctx.iface.store)
    ensures ctx.EditingMeta? && ctx.iface.setter(ctx.meta.id, EditedScript(form)).Substitute? ==>
      r.meta.storage == FixStorage(ctx.meta.storage, ctx.iface.setter(ctx.meta.id, EditedScript(form)).script, ctx.iface.store)
  {
    var edited := EditedScript(form);
    match ctx
    case EditingConcrete => Concrete(edited)
    case EditingMeta(meta, iface) =>
      match iface.setter(meta.id, edited)
      case Substitute(replacement) => Meta(meta.(storage := FixStorage(meta.storage, replacement, iface.store)))
      case Verdict(truthy) =>
        if truthy then Meta(meta.(storage := FixStorage(meta.storage, edited, iface.store)))
        else Meta(meta)
  }

  /**
   * A save never persists a field the interface does not store: such a field
   * keeps its previous override, whatever the setter answered.
   */
  lemma ExportKeepsUnstoredFields(meta: MetaScript, iface: Interface, form: Form, f: Field)
    requires !FlagAt(iface.store, f)
    ensures StorageAt(ExportData(EditingMeta(meta, iface), form).meta.storage, f) == StorageAt(meta.storage, f)
  {
  }

  // ----------------------------------------------------------- editability

  /** The fields whose widgets enableChange switches. */
  const GUARDED_FIELDS: set<Field> := {Name, Type, Version, Description, Position, Conditions, Code}

  /** Whether each guarded widget accepts input. */
  datatype Editability = Editability(
    name: bool,
    scriptType: bool,
    version: bool,
    description: bool,
    position: bool,
    conditions: bool,
    code: bool)

  function EditableAt(e: Editability, f: Field): bool
    requires f in GUARDED_FIELDS
  {
    match f
    case Name => e.name
    case Type => e.scriptType
    case Version => e.version
    case Description => e.description
    case Position => e.position
    case Conditions => e.conditions
    case Code => e.code
  }

  /** enableChange: a field is editable exactly when the script is enabled and the field is not read-only. */
  function EnableChange(state: bool, readonly: ScriptBool): (r: Editability)
    ensures forall f | f in GUARDED_FIELDS :: EditableAt(r, f) == (state && !FlagAt(readonly, f))
  {
    Editability(
      !(!state || readonly.name),
      state && !readonly.scriptType,
      !(!state || readonly.version),
      !(!state || readonly.description),
      state && !readonly.position,
      !(!state || readonly.conditions),
      !(!state || readonly.code))
  }

  /**
   * enableChangeGui: the interface's read-only record when a meta script is
   * edited, the all-false default otherwise.
   */
  function EnableChangeGui(checked: bool, ctx: EditContext): (r: Editability)
    ensures ctx.EditingConcrete? ==> forall f | f in GUARDED_FIELDS :: EditableAt(r, f) == checked
    ensures ctx.EditingMeta? ==>
      forall f | f in GUARDED_FIELDS :: EditableAt(r, f) == (checked && !FlagAt(ctx.iface.readonly, f))
  {
    match ctx
    case EditingMeta(_, iface) => EnableChange(checked, iface.readonly)
    case EditingConcrete => EnableChange(checked, NO_FLAGS)
  }
}
