/**
 * The records the add-on stores per note type: concrete scripts, meta scripts
 * with their partial storage, the interfaces that govern meta scripts, the
 * settings that hold them, and the raw JSON-shaped mappings they are read from.
 */
module ConfigTypes {
  import opened Wrappers

  /** One condition object of a script or fragment, kept as opaque JSON text. */
  type Condition = string

  /** The nine fields shared by a concrete script, its storage and its flag record. */
  datatype Field = Name | Enabled | Type | Label | Version | Description | Position | Conditions | Code

  const ALL_FIELDS: set<Field> := {Name, Enabled, Type, Label, Version, Description, Position, Conditions, Code}

  /** The JSON key (and dataclass attribute) of a field. */
  function FieldName(f: Field): string {
    match f
    case Name => "name"
    case Enabled => "enabled"
    case Type => "type"
    case Label => "label"
    case Version => "version"
    case Description => "description"
    case Position => "position"
    case Conditions => "conditions"
    case Code => "code"
  }

  /** The value of one field, whatever its type. */
  datatype FieldValue = TextValue(text: string) | BoolValue(flag: bool) | ConditionsValue(conditions: seq<Condition>)

  function TextOf(o: Option<string>): Option<FieldValue> {
    match o
    case Some(s) => Some(TextValue(s))
    case None => None
  }

  function BoolOf(o: Option<bool>): Option<FieldValue> {
    match o
    case Some(b) => Some(BoolValue(b))
    case None => None
  }

  function ConditionsOf(o: Option<seq<Condition>>): Option<FieldValue> {
    match o
    case Some(cs) => Some(ConditionsValue(cs))
    case None => None
  }

  // ------------------------------------------------------------------ scripts

  /** A fully literal script. `scriptType` is the record's `type` attribute. */
  datatype ConcreteScript = ConcreteScript(
    name: string,
    enabled: bool,
    scriptType: string,
    labelText: string,
    version: string,
    description: string,
    position: string,
    conditions: seq<Condition>,
    code: string)

  function ScriptAt(c: ConcreteScript, f: Field): FieldValue {
    match f
    case Name => TextValue(c.name)
    case Enabled => BoolValue(c.enabled)
    case Type => TextValue(c.scriptType)
    case Label => TextValue(c.labelText)
    case Version => TextValue(c.version)
    case Description => TextValue(c.description)
    case Position => TextValue(c.position)
    case Conditions => ConditionsValue(c.conditions)
    case Code => TextValue(c.code)
  }

  /** The overrides stored for a meta script; `None` defers to the interface's getter. */
  datatype ScriptStorage = ScriptStorage(
    name: Option<string>,
    enabled: Option<bool>,
    scriptType: Option<string>,
    labelText: Option<string>,
    version: Option<string>,
    description: Option<string>,
    position: Option<string>,
    conditions: Option<seq<Condition>>,
    code: Option<string>)

  /** Storage with nothing overridden. */
  const EMPTY_STORAGE: ScriptStorage := ScriptStorage(None, None, None, None, None, None, None, None, None)

  function StorageAt(s: ScriptStorage, f: Field): Option<FieldValue> {
    match f
    case Name => TextOf(s.name)
    case Enabled => BoolOf(s.enabled)
    case Type => TextOf(s.scriptType)
    case Label => TextOf(s.labelText)
    case Version => TextOf(s.version)
    case Description => TextOf(s.description)
    case Position => TextOf(s.position)
    case Conditions => ConditionsOf(s.conditions)
    case Code => TextOf(s.code)
  }

  /** One flag per field: which fields an interface stores, or which it makes read-only. */
  datatype ScriptBool = ScriptBool(
    name: bool,
    enabled: bool,
    scriptType: bool,
    labelText: bool,
    version: bool,
    description: bool,
    position: bool,
    conditions: bool,
    code: bool)

  /** The record `make_script_bool()` builds when given no flags. */
  const NO_FLAGS: ScriptBool := ScriptBool(false, false, false, false, false, false, false, false, false)

  function FlagAt(b: ScriptBool, f: Field): bool {
    match f
    case Name => b.name
    case Enabled => b.enabled
    case Type => b.scriptType
    case Label => b.labelText
    case Version => b.version
    case Description => b.description
    case Position => b.position
    case Conditions => b.conditions
    case Code => b.code
  }

  /** A reference to an interface (`tag`) and an instance of it (`id`), with overrides. */
  datatype MetaScript = MetaScript(tag: string, id: string, storage: ScriptStorage)

  datatype Script = Concrete(concrete: ConcreteScript) | Meta(meta: MetaScript)

  /** A `(tag, id)` pair the registry expects for a note type. */
  datatype MetaRef = MetaRef(tag: string, id: string)

  // --------------------------------------------------------------- interfaces

  /** What an interface's setter hands back: any plain value (by its truthiness) or a script. */
  datatype SetterResult = Verdict(truthy: bool) | Substitute(script: ConcreteScript)

  /** An interface's autodelete policy: a constant or a test on `(id, storage)`. */
  datatype Autodelete = Always(flag: bool) | When(test: (string, ScriptStorage) -> bool)

  datatype Interface = Interface(
    tag: string,
    getter: (string, ScriptStorage) -> ConcreteScript,
    setter: (string, ConcreteScript) -> SetterResult,
    store: ScriptBool,
    readonly: ScriptBool,
    reset: Option<(string, ScriptStorage) -> ConcreteScript>,
    autodelete: Autodelete)

  /**
   * The registry of the external library: interfaces by tag, and the meta
   * scripts it expects for each note type id.
   */
  datatype Registry = Registry(interfaces: map<string, Interface>, metaScripts: int -> seq<MetaRef>)

  // ----------------------------------------------------------------- settings

  datatype ScriptSetting = ScriptSetting(enabled: bool, insertStub: bool, indentSize: int, scripts: seq<Script>)

  /** An HTML fragment: concrete only, without type or position. */
  datatype ConcreteHTML = ConcreteHTML(
    name: string,
    enabled: bool,
    labelText: string,
    version: string,
    description: string,
    conditions: seq<Condition>,
    code: string)

  /** The fields of a fragment, `None` for the two script fields it lacks. */
  function HtmlAt(h: ConcreteHTML, f: Field): Option<FieldValue> {
    match f
    case Name => Some(TextValue(h.name))
    case Enabled => Some(BoolValue(h.enabled))
    case Type => None
    case Label => Some(TextValue(h.labelText))
    case Version => Some(TextValue(h.version))
    case Description => Some(TextValue(h.description))
    case Position => None
    case Conditions => Some(ConditionsValue(h.conditions))
    case Code => Some(TextValue(h.code))
  }

  datatype HTMLSetting = HTMLSetting(enabled: bool, minify: bool, fragments: seq<ConcreteHTML>)

  // ------------------------------------------------------ raw mappings (JSON)

  /**
   * A raw storage mapping. Outer `Some`: the key is present; inner `None`: its
   * value is JSON null.
   */
  datatype RawStorage = RawStorage(
    name: Option<Option<string>>,
    enabled: Option<Option<bool>>,
    scriptType: Option<Option<string>>,
    labelText: Option<Option<string>>,
    version: Option<Option<string>>,
    description: Option<Option<string>>,
    position: Option<Option<string>>,
    conditions: Option<Option<seq<Condition>>>,
    code: Option<Option<string>>)

  function RawStorageAt(r: RawStorage, f: Field): Option<Option<FieldValue>> {
    match f
    case Name => LiftText(r.name)
    case Enabled => LiftBool(r.enabled)
    case Type => LiftText(r.scriptType)
    case Label => LiftText(r.labelText)
    case Version => LiftText(r.version)
    case Description => LiftText(r.description)
    case Position => LiftText(r.position)
    case Conditions => LiftConditions(r.conditions)
    case Code => LiftText(r.code)
  }

  function LiftText(o: Option<Option<string>>): Option<Option<FieldValue>> {
    match o
    case Some(v) => Some(TextOf(v))
    case None => None
  }

  function LiftBool(o: Option<Option<bool>>): Option<Option<FieldValue>> {
    match o
    case Some(v) => Some(BoolOf(v))
    case None => None
  }

  function LiftConditions(o: Option<Option<seq<Condition>>>): Option<Option<FieldValue>> {
    match o
    case Some(v) => Some(ConditionsOf(v))
    case None => None
  }

  /** A raw script mapping: the nine script keys plus the three meta-script keys. */
  datatype RawScript = RawScript(
    name: Option<string>,
    enabled: Option<bool>,
    scriptType: Option<string>,
    labelText: Option<string>,
    version: Option<string>,
    description: Option<string>,
    position: Option<string>,
    conditions: Option<seq<Condition>>,
    code: Option<string>,
    tag: Option<string>,
    id: Option<string>,
    storage: Option<RawStorage>)

  function RawAt(r: RawScript, f: Field): Option<FieldValue> {
    match f
    case Name => TextOf(r.name)
    case Enabled => BoolOf(r.enabled)
    case Type => TextOf(r.scriptType)
    case Label => TextOf(r.labelText)
    case Version => TextOf(r.version)
    case Description => TextOf(r.description)
    case Position => TextOf(r.position)
    case Conditions => ConditionsOf(r.conditions)
    case Code => TextOf(r.code)
  }

  /** The keys present in a raw script mapping. */
  function RawScriptKeys(r: RawScript): set<string> {
    (if r.name.Some? then {"name"} else {})
    + (if r.enabled.Some? then {"enabled"} else {})
    + (if r.scriptType.Some? then {"type"} else {})
    + (if r.labelText.Some? then {"label"} else {})
    + (if r.version.Some? then {"version"} else {})
    + (if r.description.Some? then {"description"} else {})
    + (if r.position.Some? then {"position"} else {})
    + (if r.conditions.Some? then {"conditions"} else {})
    + (if r.code.Some? then {"code"} else {})
    + (if r.tag.Some? then {"tag"} else {})
    + (if r.id.Some? then {"id"} else {})
    + (if r.storage.Some? then {"storage"} else {})
  }

  const CONCRETE_KEYS: set<string> :=
    {"name", "enabled", "type", "label", "version", "description", "position", "conditions", "code"}
  const META_KEYS: set<string> := {"tag", "id", "storage"}

  /** An entry of a setting's script list: an already-typed script, or a raw mapping. */
  datatype ScriptEntry = Typed(script: Script) | Mapping(raw: RawScript)

  datatype RawSetting = RawSetting(
    enabled: Option<bool>,
    insertStub: Option<bool>,
    indentSize: Option<int>,
    scripts: Option<seq<ScriptEntry>>)

  /** A raw fragment mapping; it has no type or position key. */
  datatype RawFragment = RawFragment(
    name: Option<string>,
    enabled: Option<bool>,
    labelText: Option<string>,
    version: Option<string>,
    description: Option<string>,
    conditions: Option<seq<Condition>>,
    code: Option<string>)

  function RawFragmentAt(r: RawFragment, f: Field): Option<FieldValue> {
    match f
    case Name => TextOf(r.name)
    case Enabled => BoolOf(r.enabled)
    case Type => None
    case Label => TextOf(r.labelText)
    case Version => TextOf(r.version)
    case Description => TextOf(r.description)
    case Position => None
    case Conditions => ConditionsOf(r.conditions)
    case Code => TextOf(r.code)
  }

  datatype FragmentEntry = TypedFragment(fragment: ConcreteHTML) | FragmentMapping(raw: RawFragment)

  datatype RawHtmlSetting = RawHtmlSetting(
    enabled: Option<bool>,
    minify: Option<bool>,
    fragments: Option<seq<FragmentEntry>>)

  // ----------------------------------------------------------------- defaults

  const DEFAULT_SETTING: ScriptSetting := ScriptSetting(true, false, 4, [])
  const DEFAULT_CONCRETE_SCRIPT: ConcreteScript := ConcreteScript("", true, "js", "", "v1.0", "", "external", [], "")
  const DEFAULT_META_SCRIPT: MetaScript := MetaScript("", "", EMPTY_STORAGE)
  const DEFAULT_HTML_SETTING: HTMLSetting := HTMLSetting(true, false, [])
  const DEFAULT_CONCRETE_HTML: ConcreteHTML := ConcreteHTML("", true, "", "v1.0", "", [], "")

  // ---------------------------------------------------------- extensionality

  /** A concrete script is determined by its nine field values. */
  lemma ConcreteExt(a: ConcreteScript, b: ConcreteScript)
    requires forall f :: ScriptAt(a, f) == ScriptAt(b, f)
    ensures a == b
  {
    assert ScriptAt(a, Name) == ScriptAt(b, Name);
    assert ScriptAt(a, Enabled) == ScriptAt(b, Enabled);
    assert ScriptAt(a, Type) == ScriptAt(b, Type);
    assert ScriptAt(a, Label) == ScriptAt(b, Label);
    assert ScriptAt(a, Version) == ScriptAt(b, Version);
    assert ScriptAt(a, Description) == ScriptAt(b, Description);
    assert ScriptAt(a, Position) == ScriptAt(b, Position);
    assert ScriptAt(a, Conditions) == ScriptAt(b, Conditions);
    assert ScriptAt(a, Code) == ScriptAt(b, Code);
  }

  /** A storage record is determined by its nine overrides. */
  lemma StorageExt(a: ScriptStorage, b: ScriptStorage)
    requires forall f :: StorageAt(a, f) == StorageAt(b, f)
    ensures a == b
  {
    assert StorageAt(a, Name) == StorageAt(b, Name);
    assert StorageAt(a, Enabled) == StorageAt(b, Enabled);
    assert StorageAt(a, Type) == StorageAt(b, Type);
    assert StorageAt(a, Label) == StorageAt(b, Label);
    assert StorageAt(a, Version) == StorageAt(b, Version);
    assert StorageAt(a, Description) == StorageAt(b, Description);
    assert StorageAt(a, Position) == StorageAt(b, Position);
    assert StorageAt(a, Conditions) == StorageAt(b, Conditions);
    assert StorageAt(a, Code) == StorageAt(b, Code);
  }

  /** A fragment is determined by its seven field values. */
  lemma HtmlExt(a: ConcreteHTML, b: ConcreteHTML)
    requires forall f :: HtmlAt(a, f) == HtmlAt(b, f)
    ensures a == b
  {
    assert HtmlAt(a, Name) == HtmlAt(b, Name);
    assert HtmlAt(a, Enabled) == HtmlAt(b, Enabled);
    assert HtmlAt(a, Label) == HtmlAt(b, Label);
    assert HtmlAt(a, Version) == HtmlAt(b, Version);
    assert HtmlAt(a, Description) == HtmlAt(b, Description);
    assert HtmlAt(a, Conditions) == HtmlAt(b, Conditions);
    assert HtmlAt(a, Code) == HtmlAt(b, Code);
  }
}
