/**
 * Reading per-note-type script and HTML settings from their raw JSON-shaped
 * mappings, reconciling the script list with the registry, and writing the
 * settings back out (src/config.py).
 */
module Config {
  import opened Wrappers
  import opened ConfigTypes

  // ================================================================ scripts

  /** The typed storage built from a raw storage mapping: absent keys and null values give `None`. */
  function MakeScriptStorage(raw: RawStorage): (s: ScriptStorage)
    ensures forall f :: StorageAt(s, f) == Flatten(RawStorageAt(raw, f))
  {
    ScriptStorage(
      Flatten(raw.name), Flatten(raw.enabled), Flatten(raw.scriptType), Flatten(raw.labelText),
      Flatten(raw.version), Flatten(raw.description), Flatten(raw.position),
      Flatten(raw.conditions), Flatten(raw.code))
  }

  /** Each of the nine fields comes from the mapping when its key is present, else from the default. */
  function DeserializeConcreteScript(raw: RawScript): (c: ConcreteScript)
    ensures forall f :: RawAt(raw, f).Some? ==> ScriptAt(c, f) == RawAt(raw, f).value
    ensures forall f :: RawAt(raw, f).None? ==> ScriptAt(c, f) == ScriptAt(DEFAULT_CONCRETE_SCRIPT, f)
  {
    ConcreteScript(
      raw.name.GetOr(DEFAULT_CONCRETE_SCRIPT.name),
      raw.enabled.GetOr(DEFAULT_CONCRETE_SCRIPT.enabled),
      raw.scriptType.GetOr(DEFAULT_CONCRETE_SCRIPT.scriptType),
      raw.labelText.GetOr(DEFAULT_CONCRETE_SCRIPT.labelText),
      raw.version.GetOr(DEFAULT_CONCRETE_SCRIPT.version),
      raw.description.GetOr(DEFAULT_CONCRETE_SCRIPT.description),
      raw.position.GetOr(DEFAULT_CONCRETE_SCRIPT.position),
      raw.conditions.GetOr(DEFAULT_CONCRETE_SCRIPT.conditions),
      raw.code.GetOr(DEFAULT_CONCRETE_SCRIPT.code))
  }

  /** Tag, id and storage come from the mapping when present, else from the default meta script. */
  function DeserializeMetaScript(raw: RawScript): (m: MetaScript)
    ensures raw.tag.Some? ==> m.tag == raw.tag.value
    ensures raw.tag.None? ==> m.tag == DEFAULT_META_SCRIPT.tag
    ensures raw.id.Some? ==> m.id == raw.id.value
    ensures raw.id.None? ==> m.id == DEFAULT_META_SCRIPT.id
    ensures raw.storage.Some? ==>
      forall f :: StorageAt(m.storage, f) == Flatten(RawStorageAt(raw.storage.value, f))
    ensures raw.storage.None? ==> m.storage == DEFAULT_META_SCRIPT.storage
  {
    MetaScript(
      raw.tag.GetOr(DEFAULT_META_SCRIPT.tag),
      raw.id.GetOr(DEFAULT_META_SCRIPT.id),
      if raw.storage.Some? then MakeScriptStorage(raw.storage.value) else DEFAULT_META_SCRIPT.storage)
  }

  /**
   * A typed script passes through; a mapping is a concrete script exactly when
   * it has a "name" key, and a meta script otherwise.
   */
  function DeserializeScript(e: ScriptEntry): (s: Script)
    ensures e.Typed? ==> s == e.script
    ensures e.Mapping? ==> (s.Concrete? <==> "name" in RawScriptKeys(e.raw))
    ensures e.Mapping? && s.Concrete? ==> s.concrete == DeserializeConcreteScript(e.raw)
    ensures e.Mapping? && s.Meta? ==> s.meta == DeserializeMetaScript(e.raw)
  {
    match e
    case Typed(script) => script
    case Mapping(raw) =>
      if raw.name.Some? then Concrete(DeserializeConcreteScript(raw)) else Meta(DeserializeMetaScript(raw))
  }

  /** Deserialising an already deserialised script changes nothing. */
  lemma DeserializeScriptIdempotent(e: ScriptEntry)
    ensures DeserializeScript(Typed(DeserializeScript(e))) == DeserializeScript(e)
  {
  }

  function DeserializeScripts(es: seq<ScriptEntry>): (r: seq<Script>)
    ensures |r| == |es|
    ensures forall i | 0 <= i < |es| :: r[i] == DeserializeScript(es[i])
  {
    seq(|es|, i requires 0 <= i < |es| => DeserializeScript(es[i]))
  }

  // ------------------------------------------------------ registry matters

  /** A meta script's tag must name a registered interface. */
  predicate Registered(interfaces: map<string, Interface>, s: Script) {
    s.Meta? ==> s.meta.tag in interfaces
  }

  predicate AllRegistered(interfaces: map<string, Interface>, xs: seq<Script>) {
    forall s | s in xs :: Registered(interfaces, s)
  }

  predicate RefsRegistered(interfaces: map<string, Interface>, refs: seq<MetaRef>) {
    forall ref | ref in refs :: ref.tag in interfaces
  }

  /** Concrete scripts are never deleted; a meta script asks its interface's policy. */
  function ShouldAutodelete(interfaces: map<string, Interface>, s: Script): (r: bool)
    requires Registered(interfaces, s)
    ensures s.Concrete? ==> !r
    ensures s.Meta? && interfaces[s.meta.tag].autodelete.Always? ==> r == interfaces[s.meta.tag].autodelete.flag
    ensures s.Meta? && interfaces[s.meta.tag].autodelete.When? ==>
      r == interfaces[s.meta.tag].autodelete.test(s.meta.id, s.meta.storage)
  {
    match s
    case Concrete(_) => false
    case Meta(m) =>
      match interfaces[m.tag].autodelete
      case Always(flag) => flag
      case When(test) => test(m.id, m.storage)
  }

  /** The script is a meta script for the pair `ref`. */
  predicate Matches(s: Script, ref: MetaRef) {
    s.Meta? && s.meta.tag == ref.tag && s.meta.id == ref.id
  }

  predicate HasMeta(xs: seq<Script>, ref: MetaRef) {
    exists i | 0 <= i < |xs| :: Matches(xs[i], ref)
  }

  function RefOf(s: Script): MetaRef
    requires s.Meta?
  {
    MetaRef(s.meta.tag, s.meta.id)
  }

  /** The meta script `make_meta_script(tag, id)` builds: nothing overridden. */
  function FreshMeta(ref: MetaRef): (s: Script)
    ensures Matches(s, ref)
  {
    Meta(MetaScript(ref.tag, ref.id, EMPTY_STORAGE))
  }

  /**
   * The list after the append phase of add_other_metas: for each expected pair
   * in turn, a fresh meta script is appended unless the list built so far
   * already has one for that pair.
   */
  function AppendMissing(scripts: seq<Script>, refs: seq<MetaRef>): seq<Script>
    decreases |refs|
  {
    if refs == [] then scripts
    else
      var grown := if HasMeta(scripts, refs[0]) then scripts else scripts + [FreshMeta(refs[0])];
      AppendMissing(grown, refs[1..])
  }

  /** The stable sublist of the scripts that their policies do not delete. */
  function KeepNotAutodeleted(interfaces: map<string, Interface>, xs: seq<Script>): seq<Script>
    requires AllRegistered(interfaces, xs)
    decreases |xs|
  {
    if xs == [] then []
    else
      var init, last := xs[..|xs| - 1], xs[|xs| - 1];
      assert forall s | s in init :: s in xs;
      KeepNotAutodeleted(interfaces, init) + (if ShouldAutodelete(interfaces, last) then [] else [last])
  }

  lemma HasMetaExtend(xs: seq<Script>, ys: seq<Script>, ref: MetaRef)
    requires HasMeta(xs, ref)
    ensures HasMeta(xs + ys, ref)
  {
    var i :| 0 <= i < |xs| && Matches(xs[i], ref);
    assert (xs + ys)[i] == xs[i];
  }

  /** The first step of the append phase ends with a list that has the first pair. */
  lemma GrownHasMeta(scripts: seq<Script>, ref: MetaRef)
    ensures HasMeta(if HasMeta(scripts, ref) then scripts else scripts + [FreshMeta(ref)], ref)
  {
    if !HasMeta(scripts, ref) {
      assert Matches((scripts + [FreshMeta(ref)])[|scripts|], ref);
    }
  }

  /** The append phase keeps the original list as an unchanged prefix. */
  lemma {:induction false} AppendMissingPrefix(scripts: seq<Script>, refs: seq<MetaRef>)
    ensures var r := AppendMissing(scripts, refs);
      |scripts| <= |r| && r[..|scripts|] == scripts
    decreases |refs|
  {
    if refs != [] {
      var grown := if HasMeta(scripts, refs[0]) then scripts else scripts + [FreshMeta(refs[0])];
      var r := AppendMissing(grown, refs[1..]);
      AppendMissingPrefix(grown, refs[1..]);
      assert r[..|scripts|] == r[..|grown|][..|scripts|] == grown[..|scripts|] == scripts;
    }
  }

  /** After the append phase every expected pair has a meta script. */
  lemma {:induction false} AppendMissingCovers(scripts: seq<Script>, refs: seq<MetaRef>)
    ensures forall ref | ref in refs :: HasMeta(AppendMissing(scripts, refs), ref)
    decreases |refs|
  {
    if refs != [] {
      var ref := refs[0];
      var grown := if HasMeta(scripts, ref) then scripts else scripts + [FreshMeta(ref)];
      var r := AppendMissing(grown, refs[1..]);
      AppendMissingCovers(grown, refs[1..]);
      AppendMissingPrefix(grown, refs[1..]);
      GrownHasMeta(scripts, ref);
      assert r == grown + r[|grown|..];
      HasMetaExtend(grown, r[|grown|..], ref);
      forall ref' | ref' in refs
        ensures HasMeta(r, ref')
      {
        if ref' != ref {
          assert ref' in refs[1..];
        }
      }
    }
  }

  /**
   * Every appended entry is a fresh meta script for an expected pair that
   * nothing before it in the list matches.
   */
  lemma {:induction false} AppendMissingFresh(scripts: seq<Script>, refs: seq<MetaRef>)
    ensures var r := AppendMissing(scripts, refs);
      forall i | |scripts| <= i < |r| ::
        r[i].Meta? && RefOf(r[i]) in refs && r[i] == FreshMeta(RefOf(r[i])) && !HasMeta(r[..i], RefOf(r[i]))
    decreases |refs|
  {
    if refs != [] {
      var ref := refs[0];
      var grown := if HasMeta(scripts, ref) then scripts else scripts + [FreshMeta(ref)];
      var r := AppendMissing(grown, refs[1..]);
      AppendMissingFresh(grown, refs[1..]);
      AppendMissingPrefix(grown, refs[1..]);
      forall i | |scripts| <= i < |r|
        ensures r[i].Meta? && RefOf(r[i]) in refs && r[i] == FreshMeta(RefOf(r[i]))
        ensures !HasMeta(r[..i], RefOf(r[i]))
      {
        if i < |grown| {
          assert i == |scripts| && grown == scripts + [FreshMeta(ref)];
          assert r[i] == grown[i] == FreshMeta(ref);
          assert r[..i] == scripts;
        } else {
          assert RefOf(r[i]) in refs[1..];
        }
      }
    }
  }

  /**
   * The append phase keeps the original list as a prefix, covers every
   * expected pair, and appends only fresh meta scripts for pairs that nothing
   * before them in the list matches (so a pair listed twice is appended once).
   */
  lemma AppendMissingSpec(scripts: seq<Script>, refs: seq<MetaRef>)
    ensures var r := AppendMissing(scripts, refs);
      && |scripts| <= |r| && r[..|scripts|] == scripts
      && (forall ref | ref in refs :: HasMeta(r, ref))
      && (forall i | |scripts| <= i < |r| ::
            r[i].Meta? && RefOf(r[i]) in refs && r[i] == FreshMeta(RefOf(r[i])) && !HasMeta(r[..i], RefOf(r[i])))
  {
    AppendMissingPrefix(scripts, refs);
    AppendMissingCovers(scripts, refs);
    AppendMissingFresh(scripts, refs);
  }

  lemma AppendMissingRegistered(interfaces: map<string, Interface>, scripts: seq<Script>, refs: seq<MetaRef>)
    requires AllRegistered(interfaces, scripts) && RefsRegistered(interfaces, refs)
    ensures AllRegistered(interfaces, AppendMissing(scripts, refs))
  {
    AppendMissingSpec(scripts, refs);
    var r := AppendMissing(scripts, refs);
    forall s | s in r
      ensures Registered(interfaces, s)
    {
      var i :| 0 <= i < |r| && r[i] == s;
      if i < |scripts| {
        assert r[i] == r[..|scripts|][i] == scripts[i];
      }
    }
  }

  /** When every expected pair is already matched, the append phase changes nothing. */
  lemma {:induction false} AppendMissingCovered(scripts: seq<Script>, refs: seq<MetaRef>)
    requires forall ref | ref in refs :: HasMeta(scripts, ref)
    ensures AppendMissing(scripts, refs) == scripts
    decreases |refs|
  {
    if refs != [] {
      assert refs[0] in refs;
      forall ref | ref in refs[1..]
        ensures HasMeta(scripts, ref)
      {
        assert ref in refs;
      }
      AppendMissingCovered(scripts, refs[1..]);
    }
  }

  /** The whole reconciliation of add_other_metas: append missing pairs, then drop autodeleted scripts. */
  function Reconciled(interfaces: map<string, Interface>, refs: seq<MetaRef>, scripts: seq<Script>): seq<Script>
    requires AllRegistered(interfaces, scripts) && RefsRegistered(interfaces, refs)
  {
    AppendMissingRegistered(interfaces, scripts, refs);
    KeepNotAutodeleted(interfaces, AppendMissing(scripts, refs))
  }

  // ------------------------------------------------- the autodelete filter

  /** Filtering distributes over concatenation: the filter keeps the order of the list. */
  lemma {:induction false} KeepConcat(interfaces: map<string, Interface>, a: seq<Script>, b: seq<Script>)
    requires AllRegistered(interfaces, a) && AllRegistered(interfaces, b)
    ensures AllRegistered(interfaces, a + b)
    ensures KeepNotAutodeleted(interfaces, a + b) == KeepNotAutodeleted(interfaces, a) + KeepNotAutodeleted(interfaces, b)
    decreases |b|
  {
    assert forall s | s in a + b :: s in a || s in b;
    if b != [] {
      var b' := b[..|b| - 1];
      assert forall s | s in b' :: s in b;
      assert (a + b)[..|a + b| - 1] == a + b';
      assert (a + b)[|a + b| - 1] == b[|b| - 1];
      KeepConcat(interfaces, a, b');
    } else {
      assert a + b == a;
    }
  }

  /**
   * The filter keeps every surviving script as often as it occurs (duplicates
   * are not merged) and nothing else.
   */
  lemma {:induction false} KeepCounts(interfaces: map<string, Interface>, xs: seq<Script>)
    requires AllRegistered(interfaces, xs)
    ensures forall s | s in xs && !ShouldAutodelete(interfaces, s) ::
      multiset(KeepNotAutodeleted(interfaces, xs))[s] == multiset(xs)[s]
    ensures forall s | s in KeepNotAutodeleted(interfaces, xs) :: s in xs && !ShouldAutodelete(interfaces, s)
    decreases |xs|
  {
    if xs != [] {
      var init, last := xs[..|xs| - 1], xs[|xs| - 1];
      assert forall s | s in init :: s in xs;
      assert xs == init + [last];
      KeepCounts(interfaces, init);
      var k := KeepNotAutodeleted(interfaces, xs);
      var tail := if ShouldAutodelete(interfaces, last) then [] else [last];
      assert k == KeepNotAutodeleted(interfaces, init) + tail;
      forall s | s in xs && !ShouldAutodelete(interfaces, s)
        ensures multiset(k)[s] == multiset(xs)[s]
      {
        assert multiset(xs) == multiset(init) + multiset([last]);
        assert multiset(k) == multiset(KeepNotAutodeleted(interfaces, init)) + multiset(tail);
        if s !in init {
          assert multiset(init)[s] == 0;
          assert multiset(KeepNotAutodeleted(interfaces, init))[s] == 0;
        }
      }
    }
  }

  /** When no script is autodeleted the filter is the identity. */
  lemma {:induction false} KeepAll(interfaces: map<string, Interface>, xs: seq<Script>)
    requires AllRegistered(interfaces, xs)
    requires forall s | s in xs :: !ShouldAutodelete(interfaces, s)
    ensures KeepNotAutodeleted(interfaces, xs) == xs
    decreases |xs|
  {
    if xs != [] {
      var init, last := xs[..|xs| - 1], xs[|xs| - 1];
      assert xs == init + [last];
      assert AllRegistered(interfaces, init) && forall s | s in init :: !ShouldAutodelete(interfaces, s) by {
        forall s | s in init ensures s in xs { }
      }
      assert !ShouldAutodelete(interfaces, last) by {
        assert last in xs;
      }
      KeepAll(interfaces, init);
    }
  }

  // ------------------------------------------- add_other_metas, imperative

  /**
   * add_other_metas: walks the expected pairs, searching the growing list for
   * each and appending a fresh meta script when the search fails, then keeps
   * the scripts whose autodelete policy is false, in order.
   */
  method AddOtherMetas(interfaces: map<string, Interface>, refs: seq<MetaRef>, scripts: seq<Script>)
    returns (r: seq<Script>)
    requires AllRegistered(interfaces, scripts) && RefsRegistered(interfaces, refs)
    ensures r == Reconciled(interfaces, refs, scripts)
  {
    var list := scripts;
    for k := 0 to |refs|
      invariant AppendMissing(list, refs[k..]) == AppendMissing(scripts, refs)
    {
      var ref := refs[k];
      var found := FindMeta(list, ref);
      assert refs[k..][0] == ref && refs[k..][1..] == refs[k + 1..];
      if !found {
        list := list + [FreshMeta(ref)];
      }
    }
    assert refs[|refs|..] == [];
    AppendMissingRegistered(interfaces, scripts, refs);
    r := FilterNotAutodeleted(interfaces, list);
  }

  /**
   * The search `next(filter(...))` of add_other_metas: scans the list for a
   * meta script with the pair's tag and id, stopping at the first one.
   */
  method FindMeta(list: seq<Script>, ref: MetaRef) returns (found: bool)
    ensures found <==> HasMeta(list, ref)
  {
    found := false;
    var j := 0;
    while j < |list| && !found
      invariant 0 <= j <= |list|
      invariant found <==> exists i | 0 <= i < j :: Matches(list[i], ref)
    {
      found := Matches(list[j], ref);
      j := j + 1;
    }
  }

  /** The closing `list(filter(...))` of add_other_metas: keeps, in order, the scripts not autodeleted. */
  method FilterNotAutodeleted(interfaces: map<string, Interface>, list: seq<Script>) returns (r: seq<Script>)
    requires AllRegistered(interfaces, list)
    ensures r == KeepNotAutodeleted(interfaces, list)
  {
    r := [];
    for j := 0 to |list|
      invariant forall s | s in list[..j] :: s in list
      invariant r == KeepNotAutodeleted(interfaces, list[..j])
    {
      assert list[..j + 1][..j] == list[..j];
      if !ShouldAutodelete(interfaces, list[j]) {
        r := r + [list[j]];
      }
    }
    assert list[..|list|] == list;
  }

  /** Every expected pair whose interface never autodeletes appears in the reconciled list. */
  lemma ReconciledCovers(interfaces: map<string, Interface>, refs: seq<MetaRef>, scripts: seq<Script>, ref: MetaRef)
    requires AllRegistered(interfaces, scripts) && RefsRegistered(interfaces, refs)
    requires ref in refs && interfaces[ref.tag].autodelete == Always(false)
    ensures HasMeta(Reconciled(interfaces, refs, scripts), ref)
  {
    AppendMissingSpec(scripts, refs);
    AppendMissingRegistered(interfaces, scripts, refs);
    var grown := AppendMissing(scripts, refs);
    var i :| 0 <= i < |grown| && Matches(grown[i], ref);
    KeepCounts(interfaces, grown);
    assert grown[i] in grown;
    assert grown[i] in multiset(KeepNotAutodeleted(interfaces, grown));
  }

  /**
   * The original scripts that survive the filter keep their order and their
   * number of occurrences: reconciliation never merges or drops them otherwise.
   */
  lemma ReconciledKeepsOriginals(interfaces: map<string, Interface>, refs: seq<MetaRef>, scripts: seq<Script>)
    requires AllRegistered(interfaces, scripts) && RefsRegistered(interfaces, refs)
    ensures var r := Reconciled(interfaces, refs, scripts);
      |KeepNotAutodeleted(interfaces, scripts)| <= |r|
      && r[..|KeepNotAutodeleted(interfaces, scripts)|] == KeepNotAutodeleted(interfaces, scripts)
  {
    AppendMissingSpec(scripts, refs);
    AppendMissingRegistered(interfaces, scripts, refs);
    var grown := AppendMissing(scripts, refs);
    var extra := grown[|scripts|..];
    assert grown == scripts + extra;
    assert forall s | s in extra :: s in grown;
    KeepConcat(interfaces, scripts, extra);
  }

  /** A meta script whose interface always autodeletes is never in the reconciled list. */
  lemma ReconciledDropsAutodeleted(interfaces: map<string, Interface>, refs: seq<MetaRef>, scripts: seq<Script>, m: MetaScript)
    requires AllRegistered(interfaces, scripts) && RefsRegistered(interfaces, refs)
    requires m.tag in interfaces && interfaces[m.tag].autodelete == Always(true)
    ensures Meta(m) !in Reconciled(interfaces, refs, scripts)
  {
    AppendMissingRegistered(interfaces, scripts, refs);
    KeepCounts(interfaces, AppendMissing(scripts, refs));
  }

  // ----------------------------------------------------- script settings

  /** The raw script list of a setting, or the default setting's (already typed) scripts. */
  function RawScriptEntries(raw: RawSetting): seq<ScriptEntry> {
    if raw.scripts.Some? then raw.scripts.value
    else seq(|DEFAULT_SETTING.scripts|, i requires 0 <= i < |DEFAULT_SETTING.scripts| => Typed(DEFAULT_SETTING.scripts[i]))
  }

  /**
   * deserialize_setting: the three flags come from the mapping or the default
   * setting, and the script list is deserialised and reconciled with the
   * registry's expected meta scripts for this note type.
   */
  function DeserializeSetting(reg: Registry, modelId: int, raw: RawSetting): (s: ScriptSetting)
    requires AllRegistered(reg.interfaces, DeserializeScripts(RawScriptEntries(raw)))
    requires RefsRegistered(reg.interfaces, reg.metaScripts(modelId))
    ensures s.enabled == (if raw.enabled.Some? then raw.enabled.value else DEFAULT_SETTING.enabled)
    ensures s.insertStub == (if raw.insertStub.Some? then raw.insertStub.value else DEFAULT_SETTING.insertStub)
    ensures s.indentSize == (if raw.indentSize.Some? then raw.indentSize.value else DEFAULT_SETTING.indentSize)
    ensures s.scripts == Reconciled(reg.interfaces, reg.metaScripts(modelId), DeserializeScripts(RawScriptEntries(raw)))
  {
    ScriptSetting(
      raw.enabled.GetOr(DEFAULT_SETTING.enabled),
      raw.insertStub.GetOr(DEFAULT_SETTING.insertStub),
      raw.indentSize.GetOr(DEFAULT_SETTING.indentSize),
      Reconciled(reg.interfaces, reg.metaScripts(modelId), DeserializeScripts(RawScriptEntries(raw))))
  }

  const EMPTY_RAW_SETTING: RawSetting := RawSetting(None, None, None, None)

  /**
   * An empty mapping gives the default flags and the default scripts
   * reconciled with the registry.
   */
  lemma DeserializeEmptySetting(reg: Registry, modelId: int)
    requires AllRegistered(reg.interfaces, DEFAULT_SETTING.scripts)
    requires RefsRegistered(reg.interfaces, reg.metaScripts(modelId))
    ensures AllRegistered(reg.interfaces, DeserializeScripts(RawScriptEntries(EMPTY_RAW_SETTING)))
    ensures DeserializeSetting(reg, modelId, EMPTY_RAW_SETTING)
      == DEFAULT_SETTING.(scripts := Reconciled(reg.interfaces, reg.metaScripts(modelId), DEFAULT_SETTING.scripts))
  {
    assert DeserializeScripts(RawScriptEntries(EMPTY_RAW_SETTING)) == DEFAULT_SETTING.scripts;
  }

  /**
   * Self-healing insert: with no stored scripts and one expected pair whose
   * interface keeps it, the list holds exactly that fresh meta script.
   */
  lemma SelfHealingInsert(reg: Registry, modelId: int, raw: RawSetting, ref: MetaRef)
    requires raw.scripts == Some([])
    requires reg.metaScripts(modelId) == [ref]
    requires ref.tag in reg.interfaces && reg.interfaces[ref.tag].autodelete == Always(false)
    ensures RefsRegistered(reg.interfaces, reg.metaScripts(modelId))
    ensures AllRegistered(reg.interfaces, DeserializeScripts(RawScriptEntries(raw)))
    ensures DeserializeSetting(reg, modelId, raw).scripts == [Meta(MetaScript(ref.tag, ref.id, EMPTY_STORAGE))]
  {
    var refs := reg.metaScripts(modelId);
    assert DeserializeScripts(RawScriptEntries(raw)) == [];
    assert !HasMeta([], ref);
    assert AppendMissing([], refs) == AppendMissing([FreshMeta(ref)], []) == [FreshMeta(ref)];
    var healed := FreshMeta(ref);
    assert [healed][..0] == [];
    assert KeepNotAutodeleted(reg.interfaces, [healed])
      == KeepNotAutodeleted(reg.interfaces, []) + [healed] == [healed];
  }

  // ---------------------------------------------------------- serialising

  /** The storage mapping keeps exactly the non-`None` overrides, never writing a null. */
  function SerializeStorage(st: ScriptStorage): (r: RawStorage)
    ensures forall f :: RawStorageAt(r, f).Some? <==> StorageAt(st, f).Some?
    ensures forall f :: RawStorageAt(r, f).Some? ==> RawStorageAt(r, f).value == StorageAt(st, f)
    ensures forall f :: RawStorageAt(r, f) != Some(None)
  {
    RawStorage(
      Drop(st.name), Drop(st.enabled), Drop(st.scriptType), Drop(st.labelText), Drop(st.version),
      Drop(st.description), Drop(st.position), Drop(st.conditions), Drop(st.code))
  }

  /** A `None`-valued entry is left out of the mapping. */
  function Drop<T>(o: Option<T>): Option<Option<T>> {
    if o.None? then None else Some(o)
  }

  /**
   * serialize_script: a concrete script becomes all nine of its fields; a meta
   * script becomes exactly tag, id and its non-`None` storage.
   */
  function SerializeScript(s: Script): (r: RawScript)
    ensures s.Concrete? ==> RawScriptKeys(r) == CONCRETE_KEYS
    ensures s.Concrete? ==> forall f :: RawAt(r, f) == Some(ScriptAt(s.concrete, f))
    ensures s.Meta? ==> RawScriptKeys(r) == META_KEYS
    ensures s.Meta? ==> r.tag == Some(s.meta.tag) && r.id == Some(s.meta.id)
    ensures s.Meta? ==> forall f :: RawStorageAt(r.storage.value, f).Some? <==> StorageAt(s.meta.storage, f).Some?
  {
    match s
    case Concrete(c) =>
      RawScript(
        Some(c.name), Some(c.enabled), Some(c.scriptType), Some(c.labelText), Some(c.version),
        Some(c.description), Some(c.position), Some(c.conditions), Some(c.code), None, None, None)
    case Meta(m) =>
      RawScript(None, None, None, None, None, None, None, None, None, Some(m.tag), Some(m.id), Some(SerializeStorage(m.storage)))
  }

  /** Writing a script out and reading it back gives the same script, concrete or meta. */
  lemma ScriptRoundTrip(s: Script)
    ensures DeserializeScript(Mapping(SerializeScript(s))) == s
  {
    var raw := SerializeScript(s);
    var back := DeserializeScript(Mapping(raw));
    match s
    case Concrete(c) =>
      ConcreteExt(back.concrete, c);
    case Meta(m) =>
      StorageExt(back.meta.storage, m.storage);
  }

  function SerializeScripts(xs: seq<Script>): (r: seq<ScriptEntry>)
    ensures |r| == |xs|
    ensures forall i | 0 <= i < |xs| :: r[i] == Mapping(SerializeScript(xs[i]))
  {
    seq(|xs|, i requires 0 <= i < |xs| => Mapping(SerializeScript(xs[i])))
  }

  /** serialize_setting: all four keys, with the scripts serialised in list order. */
  function SerializeSetting(s: ScriptSetting): (r: RawSetting)
    ensures r.enabled == Some(s.enabled) && r.insertStub == Some(s.insertStub) && r.indentSize == Some(s.indentSize)
    ensures r.scripts.Some? && |r.scripts.value| == |s.scripts|
    ensures forall i | 0 <= i < |s.scripts| :: r.scripts.value[i] == Mapping(SerializeScript(s.scripts[i]))
    ensures forall i | 0 <= i < |s.scripts| :: DeserializeScript(r.scripts.value[i]) == s.scripts[i]
  {
    forall x | x in s.scripts ensures DeserializeScript(Mapping(SerializeScript(x))) == x {
      ScriptRoundTrip(x);
    }
    RawSetting(Some(s.enabled), Some(s.insertStub), Some(s.indentSize), Some(SerializeScripts(s.scripts)))
  }

  /**
   * A setting already reconciled with the registry (every expected pair
   * present, nothing autodeleted) survives a write and a read unchanged.
   */
  lemma SettingRoundTrip(reg: Registry, modelId: int, s: ScriptSetting)
    requires AllRegistered(reg.interfaces, s.scripts)
    requires RefsRegistered(reg.interfaces, reg.metaScripts(modelId))
    requires forall ref | ref in reg.metaScripts(modelId) :: HasMeta(s.scripts, ref)
    requires forall x | x in s.scripts :: !ShouldAutodelete(reg.interfaces, x)
    ensures AllRegistered(reg.interfaces, DeserializeScripts(RawScriptEntries(SerializeSetting(s))))
    ensures DeserializeSetting(reg, modelId, SerializeSetting(s)) == s
  {
    var entries := RawScriptEntries(SerializeSetting(s));
    assert DeserializeScripts(entries) == s.scripts;
    AppendMissingCovered(s.scripts, reg.metaScripts(modelId));
    KeepAll(reg.interfaces, s.scripts);
  }

  // =================================================================== HTML

  /** A typed fragment passes through; otherwise each field comes from the mapping or the default. */
  function DeserializeHtml(e: FragmentEntry): (h: ConcreteHTML)
    ensures e.TypedFragment? ==> h == e.fragment
    ensures e.FragmentMapping? ==>
      forall f :: RawFragmentAt(e.raw, f).Some? ==> HtmlAt(h, f) == RawFragmentAt(e.raw, f)
    ensures e.FragmentMapping? ==>
      forall f :: RawFragmentAt(e.raw, f).None? ==> HtmlAt(h, f) == HtmlAt(DEFAULT_CONCRETE_HTML, f)
  {
    match e
    case TypedFragment(fragment) => fragment
    case FragmentMapping(raw) =>
      ConcreteHTML(
        raw.name.GetOr(DEFAULT_CONCRETE_HTML.name),
        raw.enabled.GetOr(DEFAULT_CONCRETE_HTML.enabled),
        raw.labelText.GetOr(DEFAULT_CONCRETE_HTML.labelText),
        raw.version.GetOr(DEFAULT_CONCRETE_HTML.version),
        raw.description.GetOr(DEFAULT_CONCRETE_HTML.description),
        raw.conditions.GetOr(DEFAULT_CONCRETE_HTML.conditions),
        raw.code.GetOr(DEFAULT_CONCRETE_HTML.code))
  }

  /** serialize_html: every field of the fragment, present. */
  function SerializeHtml(h: ConcreteHTML): (r: RawFragment)
    ensures forall f :: RawFragmentAt(r, f) == HtmlAt(h, f)
  {
    RawFragment(Some(h.name), Some(h.enabled), Some(h.labelText), Some(h.version), Some(h.description), Some(h.conditions), Some(h.code))
  }

  lemma HtmlRoundTrip(h: ConcreteHTML)
    ensures DeserializeHtml(FragmentMapping(SerializeHtml(h))) == h
  {
    HtmlExt(DeserializeHtml(FragmentMapping(SerializeHtml(h))), h);
  }

  function RawFragmentEntries(raw: RawHtmlSetting): seq<FragmentEntry> {
    if raw.fragments.Some? then raw.fragments.value
    else seq(|DEFAULT_HTML_SETTING.fragments|, i requires 0 <= i < |DEFAULT_HTML_SETTING.fragments| => TypedFragment(DEFAULT_HTML_SETTING.fragments[i]))
  }

  /**
   * deserialize_html_setting: the flags default as for scripts; the fragments
   * are deserialised one by one, with no registry reconciliation.
   */
  function DeserializeHtmlSetting(modelId: int, raw: RawHtmlSetting): (s: HTMLSetting)
    ensures s.enabled == (if raw.enabled.Some? then raw.enabled.value else DEFAULT_HTML_SETTING.enabled)
    ensures s.minify == (if raw.minify.Some? then raw.minify.value else DEFAULT_HTML_SETTING.minify)
    ensures |s.fragments| == |RawFragmentEntries(raw)|
    ensures forall i | 0 <= i < |s.fragments| :: s.fragments[i] == DeserializeHtml(RawFragmentEntries(raw)[i])
  {
    var entries := RawFragmentEntries(raw);
    HTMLSetting(
      raw.enabled.GetOr(DEFAULT_HTML_SETTING.enabled),
      raw.minify.GetOr(DEFAULT_HTML_SETTING.minify),
      seq(|entries|, i requires 0 <= i < |entries| => DeserializeHtml(entries[i])))
  }

  /** The note type id plays no part in reading an HTML setting. */
  lemma DeserializeHtmlSettingIgnoresModel(m1: int, m2: int, raw: RawHtmlSetting)
    ensures DeserializeHtmlSetting(m1, raw) == DeserializeHtmlSetting(m2, raw)
  {
  }

  /** serialize_html_setting: all three keys, fragments in list order. */
  function SerializeHtmlSetting(s: HTMLSetting): (r: RawHtmlSetting)
    ensures r.enabled == Some(s.enabled) && r.minify == Some(s.minify)
    ensures r.fragments.Some? && |r.fragments.value| == |s.fragments|
    ensures forall i | 0 <= i < |s.fragments| :: r.fragments.value[i] == FragmentMapping(SerializeHtml(s.fragments[i]))
  {
    RawHtmlSetting(
      Some(s.enabled), Some(s.minify),
      Some(seq(|s.fragments|, i requires 0 <= i < |s.fragments| => FragmentMapping(SerializeHtml(s.fragments[i])))))
  }

  /** Any HTML setting survives a write and a read unchanged: nothing is added or dropped. */
  lemma HtmlSettingRoundTrip(modelId: int, s: HTMLSetting)
    ensures DeserializeHtmlSetting(modelId, SerializeHtmlSetting(s)) == s
  {
    var back := DeserializeHtmlSetting(modelId, SerializeHtmlSetting(s));
    forall i | 0 <= i < |s.fragments|
      ensures back.fragments[i] == s.fragments[i]
    {
      HtmlRoundTrip(s.fragments[i]);
    }
  }
}
