# Script Manager settings model

A Dafny model of the data core of an add-on that attaches small scripts and
HTML fragments to the note types of a flashcard application. Each note type
stores a setting: flags plus an ordered list of scripts. A script is either
concrete (all nine fields written out) or a meta script, which names an
interface by its tag, carries an instance id, and keeps partial overrides
(its storage). The interface supplies the missing fields through a getter.

The model covers:

- reading a setting from its JSON-shaped mapping, with a default for every missing key;
- telling concrete scripts from meta scripts by the presence of a `name` key;
- reconciling the list with the meta scripts the registry expects (append
  the missing pairs, then drop what the autodelete policy deletes);
- writing a setting back, with meta-script storage reduced to its non-null overrides;
- the same scheme for HTML fragments;
- the editor's merge of an edited script into storage (`fix_storage`);
- the save dispatch driven by the interface setter's answer, and which fields the editor lets the user change;
- the example interface bundled with the add-on;
- the integer sort key of the settings dialog.

Files:

- `wrappers.dfy`: `Option`.
- `config_types.dfy`: the records. It also has a `Field` enumeration of the nine
  script fields, so that contracts can speak of "every field" at once.
- `config.dfy`: `src/config.py`. `add_other_metas` is modelled by three methods.
  `AddOtherMetas` runs the append loop over the expected pairs. For each pair it
  calls `FindMeta`, a search loop over the growing list, and appends a fresh
  meta script when the search fails. It then calls `FilterNotAutodeleted`, the
  loop that filters the list. `AddOtherMetas` is proved equal to `Reconciled`,
  the function the lemmas talk about.
- `script_config.dfy`: the data rules of `src/gui_config/custom/script_config.py`.
- `example.dfy`: the interface built in `example/__init__.py`.
- `am_config.dfy`: `sort_negative_first` of `src/gui_config/custom/am_config.py`.

Raw mappings are records whose fields are all `Option`s. `Some` means the key
is present. In a raw storage mapping each field is an `Option<Option<_>>`: the
outer `Some` means the key is present, and an inner `None` means its value is
JSON null. With this encoding the serializer's dropping of `None` values can be
observed. The registry is a parameter: a map from tag to interface, plus a
function from note-type id to the expected `(tag, id)` pairs.

Assumptions about library code that is not part of this model:

- `src/config_types.py` is not part of this model, so the default records
  (`DEFAULT_SETTING`, `DEFAULT_CONCRETE_SCRIPT`, `DEFAULT_META_SCRIPT`,
  `DEFAULT_HTML_SETTING`, `DEFAULT_CONCRETE_HTML`) are constants with assumed
  values. Every property is stated relative to these constants, never to
  their particular values.
- `make_script_storage` sets every absent or null key to `None`.
- `make_meta_script(tag, id)` creates a meta script with nothing overridden.
- `make_script_bool()` sets every flag to false.
- `make_interface` turns the `store` and `readonly` name lists into flag records.
- Looking up an unregistered tag is a precondition violation. Every member
  that calls `get_interface` requires the tag to be registered.

Points where the code says more, or less, than its own comments:

- `should_autodelete` calls `get_interface` (src/config.py:80) without handling
  an unknown tag, so the model makes registration a precondition.
- The comment on the example setter (example/__init__.py:56-59) names the
  answers `True` and `False`. The code in `exportData` tests truthiness, so any
  truthy answer stores the edit. The model's `Verdict(truthy)` stands for every
  answer that is not a script.
- `exportData` builds its mapping without a `label` key. The edited script
  therefore always carries the default label (`ScriptConfig.EditedScript`).
- The comment on the example reset (example/__init__.py:72-73) says the reset
  keeps the enabled status. The code does not keep it (see Findings).

## Model

| member | source | states |
|---|---|---|
| `Config.MakeScriptStorage` | src/config.py:161-165 | every storage field is the raw value when its key is present and non-null, otherwise `None` |
| `Config.DeserializeConcreteScript` | src/config.py:125-154 | each of the nine fields is the raw value when its key is present, and the `DEFAULT_CONCRETE_SCRIPT` value otherwise |
| `Config.DeserializeMetaScript` | src/config.py:157-168 | tag, id and storage come from the mapping when present, and from `DEFAULT_META_SCRIPT` otherwise; storage maps null and absent to `None` |
| `Config.DeserializeScript` | src/config.py:113-122 | a typed script is returned unchanged; a mapping becomes a concrete script exactly when it has a `name` key, and a meta script otherwise |
| `Config.DeserializeScriptIdempotent` | src/config.py:113-122 | deserialising a deserialised script changes nothing |
| `Config.ShouldAutodelete` | src/config.py:76-85 | false for every concrete script; for a meta script it is its interface's constant policy, or the answer of its policy callback for the script's id and storage |
| `Config.AppendMissingSpec` | src/config.py:88-108 | the append phase keeps the original list as an unchanged prefix and covers every expected pair; each appended entry is a fresh meta script for an expected pair that nothing earlier in the list matches, so a pair listed twice is appended once |
| `Config.AppendMissingPrefix` | src/config.py:91-108 | the append phase only appends: the original list is an unchanged prefix of its result |
| `Config.AppendMissingCovers` | src/config.py:91-108 | after the append phase every expected pair has a meta script in the list |
| `Config.AppendMissingFresh` | src/config.py:91-108 | every appended entry is a fresh meta script for an expected pair that nothing before it in the list matches |
| `Config.AppendMissingCovered` | src/config.py:91-108 | if every expected pair is already present, nothing is appended |
| `Config.KeepConcat` | src/config.py:110 | the autodelete filter distributes over concatenation, so it keeps the list's order |
| `Config.KeepCounts` | src/config.py:110 | the filter keeps every surviving script as often as it occurs (duplicates are not merged), and keeps nothing that is deleted or absent |
| `Config.KeepAll` | src/config.py:110 | when nothing is autodeleted, the filter returns the list unchanged |
| `Config.AddOtherMetas` | src/config.py:88-110 | the loop of searches and appends followed by the stable filter computes exactly `Reconciled` (append the missing pairs, then drop the autodeleted scripts) |
| `Config.FindMeta` | src/config.py:93-102 | the search answers true exactly when some meta script in the list has the pair's tag and id |
| `Config.FilterNotAutodeleted` | src/config.py:110 | the filter loop returns, in order, exactly the scripts whose autodelete policy is false (`KeepNotAutodeleted`) |
| `Config.ReconciledCovers` | src/config.py:88-110 | every expected pair whose interface never autodeletes is present in the result |
| `Config.ReconciledKeepsOriginals` | src/config.py:88-110 | the surviving original scripts form a prefix of the result, in their original order and with their duplicates |
| `Config.ReconciledDropsAutodeleted` | src/config.py:76-110 | a meta script whose interface always autodeletes is absent from the result, even if it was stored |
| `Config.DeserializeSetting` | src/config.py:47-73 | `enabled`, `insertStub` and `indentSize` come from the mapping when present, and from `DEFAULT_SETTING` otherwise; the scripts are the stored (or default) entries deserialised one by one and then reconciled with the registry's expected meta scripts |
| `Config.DeserializeEmptySetting` | src/config.py:47-73 | an empty mapping gives the default setting, whose default scripts are reconciled with the registry |
| `Config.SelfHealingInsert` | src/config.py:58-108 | with no stored scripts and one expected pair that is kept, the list is exactly that one fresh meta script with empty storage |
| `Config.SerializeStorage` | src/config.py:184-190 | the storage mapping has a key exactly for each non-`None` override, with that value, and it never writes a null |
| `Config.SerializeScript` | src/config.py:180-190 | a concrete script maps to exactly its nine keys and values; a meta script maps to exactly `tag`, `id` and `storage` |
| `Config.ScriptRoundTrip` | src/config.py:113-190 | reading back a serialised script, concrete or meta, gives the same script |
| `Config.SerializeSetting` | src/config.py:171-177 | the output has all four keys with the setting's values; its scripts are the serialised scripts, one to one and in list order, and each reads back as its script |
| `Config.SettingRoundTrip` | src/config.py:47-177 | a setting already reconciled with the registry is unchanged by a write followed by a read |
| `Config.DeserializeHtml` | src/config.py:231-258 | a typed fragment is returned unchanged; otherwise each field is the raw value when present, and the `DEFAULT_CONCRETE_HTML` value otherwise |
| `Config.SerializeHtml` | src/config.py:269-270 | every field of the fragment is written out |
| `Config.HtmlRoundTrip` | src/config.py:231-270 | reading back a serialised fragment gives the same fragment |
| `Config.DeserializeHtmlSetting` | src/config.py:212-228 | `enabled` and `minify` are defaulted; each fragment is deserialised in order, with nothing added or removed |
| `Config.DeserializeHtmlSettingIgnoresModel` | src/config.py:212-228 | the note-type id has no effect on the result |
| `Config.SerializeHtmlSetting` | src/config.py:261-266 | the output has all three keys, with the fragments serialised in list order |
| `Config.HtmlSettingRoundTrip` | src/config.py:212-270 | every HTML setting is unchanged by a write followed by a read, because there is no reconciliation |
| `ScriptConfig.FixStorage` | src/gui_config/custom/script_config.py:29-46 | every field flagged in `to_store` takes the script's value; every other field keeps its previous storage value |
| `ScriptConfig.FixStorageNoFlags` | src/gui_config/custom/script_config.py:29-46 | with every flag false, the storage is returned unchanged |
| `ScriptConfig.FixStorageIdempotent` | src/gui_config/custom/script_config.py:29-46 | merging twice with the same script and flags equals merging once |
| `ScriptConfig.FormMapping` | src/gui_config/custom/script_config.py:205-218 | the editor's mapping has every script key except `label`, and each key carries its widget's value |
| `ScriptConfig.EditedScript` | src/gui_config/custom/script_config.py:205-218 | the edited script is concrete, carries the form's values and has the default label |
| `ScriptConfig.ExportData` | src/gui_config/custom/script_config.py:204-239 | a concrete edit is returned as is. For a meta script, tag and id never change. A falsy setter answer returns the meta script unchanged. A truthy answer stores `fix_storage` of the edit. A script answer stores `fix_storage` of that script instead |
| `ScriptConfig.ExportKeepsUnstoredFields` | src/gui_config/custom/script_config.py:220-236 | a field the interface does not store keeps its previous override after any save |
| `ScriptConfig.EnableChange` | src/gui_config/custom/script_config.py:162-172 | a guarded field is editable exactly when the script is enabled and the field is not read-only |
| `ScriptConfig.EnableChangeGui` | src/gui_config/custom/script_config.py:156-160 | when editing a meta script, the interface's read-only flags apply; otherwise the all-false default applies, so editability follows the enabled box alone |
| `Example.Getter` | example/__init__.py:41-53 | name, type `"js"`, label `""`, version and description are constants. Enabled, position, conditions and code come from storage when overridden, and are `True`, `"into_template"`, `[]` and the bundled text otherwise |
| `Example.Setter` | example/__init__.py:60 | every save is accepted |
| `Example.FlagsOf` | example/__init__.py:62-64 | a field is flagged exactly when its name is in the list |
| `Example.StoreReadonlyPartition` | example/__init__.py:62-64 | the stored and read-only lists are disjoint, and together they cover every field except the label |
| `Example.ResetAsWritten` | example/__init__.py:74-84 | the reset as written equals the getter with the enabled, position and code overrides cleared |
| `Example.ResetAsWrittenEnables` | example/__init__.py:73-76 | a stored `enabled = False` comes back as `True` from the reset as written |
| `Example.Reset` | example/__init__.py:71-84 | the corrected reset equals the getter with the position and code overrides cleared, so it keeps the stored enabled flag and conditions |
| `Example.GetterAgreesWithMerge` | example/__init__.py:41-62 | after `fix_storage` with the stored fields, the getter agrees with the edit on enabled, code, position and conditions |
| `Example.SaveThenReload` | example/__init__.py:41-64 | a save followed by a reload shows the form's enabled, code, position and conditions, while name, type, version and description revert to the constants |
| `Example.Editability` | example/__init__.py:64 | name, type, version and description are never editable; position, conditions and code are editable exactly when the script is enabled |
| `Example.NeverAutodeleted` | example/__init__.py:92-96 | the example's meta scripts are never autodeleted (the default policy is false) |
| `AmConfig.SortNegativeFirst` | src/gui_config/custom/am_config.py:20-21 | the key is at least 1. It is even exactly for negative names: 2·abs(n) for those, and 2·abs(n)+1 for the others |
| `AmConfig.NameOfKey` | src/gui_config/custom/am_config.py:21 | every positive integer is the key of some name |
| `AmConfig.NameOfKeyRoundTrip` | src/gui_config/custom/am_config.py:21 | the name is recovered from its key |
| `AmConfig.SortKeyInjective` | src/gui_config/custom/am_config.py:21 | distinct names have distinct keys, so sorting has no ties |
| `AmConfig.NegativeJustBefore` | src/gui_config/custom/am_config.py:21 | for n > 0, key(-n) + 1 = key(n) |
| `AmConfig.SortKeyByMagnitude` | src/gui_config/custom/am_config.py:21 | keys grow with absolute value, so the order is 0, -1, 1, -2, 2, … and not "all negatives first" |
| `AmConfig.SortKeyNegatives` | src/gui_config/custom/am_config.py:21 | among negative names, the one closer to zero sorts first |
| `AmConfig.SortKeyNonNegatives` | src/gui_config/custom/am_config.py:21 | among non-negative names, the order is ascending |

## Left out

- Config.DeserializeMetaScript: for a mapping without a `storage` key the code passes `DEFAULT_META_SCRIPT.storage` through `**` into `make_script_storage` (src/config.py:161-165). That call only succeeds if the default storage is itself a mapping of keyword arguments; `src/config_types.py` is not part of this model, so the model assumes it and returns the default storage unchanged, and does not model the `TypeError` that a record-valued default would raise.
- Qt dialog wiring is not modelled: widget set-up, repainting, message boxes,
  button signals, the code editor's font and highlighter, `AMConfigDialog`
  and the reset button's flow. Only the data rules those call are modelled.
- JSON parsing and JSON-Schema validation of conditions and imported settings
  are not modelled (`getConditions`, `validateConditionsRaw`,
  `validateConditions`, `importDialog`). A condition is opaque JSON text, and
  the form carries conditions already parsed.
- Raw values are assumed to have the right JSON type (a string where a string
  belongs, and so on). Python would pass an ill-typed value through unchecked.
- Unknown keys in a raw storage mapping are not modelled. They would make
  `make_script_storage` raise.
- Reading and writing the host's config store is not modelled
  (`get_setting_from_notetype`, `maybe_get_setting_from_card`,
  `get_html_setting_from_notetype`, `write_html`, `write_scripts`,
  `write_setting`). These assign host state.
- The registry library is not modelled (`get_interface`, `get_meta_scripts`,
  `make_interface`, `make_script_v2`, `make_meta_script`,
  `make_script_storage`, `make_script_bool`, `make_setting`). It becomes
  parameters and plain constructors, under the assumptions listed above.
- The interface's `label` callback and `generator` are not modelled. They
  only feed display and template insertion.
- The truthiness filter `if s` in `deserialize_setting` is not modelled.
  Records are always truthy, so it removes nothing.
- An `AttributeError` raised inside a setter is not modelled. `exportData`
  would catch it and return the edited concrete script. Only the absence of a
  meta script and interface leads to that branch here.
- The combo-box index conversions (`pos_to_script_type`,
  `pos_to_script_position`) are not modelled. The form carries the values.
- In the example, reading the bundled script file, installing meta scripts for
  every note type, and finding the add-on are host and file-system plumbing.
  The bundled text is a constant.
- `sort_negative_first` parses the name with `int(...)`. The model takes the
  integer directly.
- `src/main.py` only registers a menu action, and is not modelled.

## Findings

| source | as written | input that shows it | evidently intended | confidence | as-written member | corrected member |
|---|---|---|---|---|---|---|
| example/__init__.py:73-76 | `enabled=storage.enabled if storage.enabled else True` tests truthiness, so a stored `False` becomes `True` | storage with `enabled = False`: the reset gives `enabled = True` | the comment above the reset says it keeps the enabled status, i.e. `storage.enabled if storage.enabled is not None else True` as in the getter | medium, not executed | `Example.ResetAsWritten` (exhibited by `Example.ResetAsWrittenEnables`) | `Example.Reset` (used by `Example.INTERFACE`) |
