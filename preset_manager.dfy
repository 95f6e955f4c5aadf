/** The preset list of the preset manager panel
    (frontend/src/components/common/PresetManager.tsx): saving the current
    parameters under a name, deleting by id, importing a parsed JSON file,
    and the presets of the selected effect. The list is kept in memory and
    written to storage under 'kirakira-presets' after every change; storage
    is modelled as a field holding the last list written. The clock and the
    user's answer to the confirmation dialog are parameters. */
module PresetManager {
  import opened Options
  import opened JsStrings
  import opened JsValues
  import opened Records
  import opened Types

  /** `Preset` as `savePreset` creates it. */
  datatype Preset = Preset(id: string, name: string, effectId: string, params: map<string, JsValue>, createdAt: string)

  /** An element of the list: a preset saved here, or any element of an
      imported JSON array (nothing checks its shape). */
  datatype Item = Saved(preset: Preset) | Imported(value: JsValue)

  /** `p[name]` for an imported element: an own property of an object,
      `undefined` for anything else. */
  function Field(v: JsValue, name: string): JsValue
  {
    if v.Obj? && Get(v.entries, name).Some? then Get(v.entries, name).value else Undefined
  }

  /** `p.id` */
  function IdOf(item: Item): JsValue
  {
    match item
    case Saved(p) => Str(p.id)
    case Imported(v) => Field(v, "id")
  }

  /** `p.effectId` */
  function EffectIdOf(item: Item): JsValue
  {
    match item
    case Saved(p) => Str(p.effectId)
    case Imported(v) => Field(v, "effectId")
  }

  /** `Object.fromEntries(Object.entries(currentParams).map(([k, p]) => [k, p.value]))` */
  function ParamValues(currentParams: map<string, EffectParameter>): (values: map<string, JsValue>)
    ensures values.Keys == currentParams.Keys
    ensures forall k :: k in values ==> values[k] == currentParams[k].value
  {
    map k | k in currentParams :: currentParams[k].value
  }

  /** What the user is told after `savePreset`. */
  datatype SaveOutcome = EmptyName | NoEffectSelected | SavedAs(name: string)

  /** The outcome of `savePreset`: a blank name or no selected effect stops
      it, otherwise the preset is saved under the trimmed name. */
  function SaveOutcomeOf(presetName: string, selectedEffect: Option<Effect>): SaveOutcome
  {
    if Trim(presetName) == "" then EmptyName
    else if selectedEffect.None? then NoEffectSelected
    else SavedAs(Trim(presetName))
  }

  /** The preset `savePreset` builds; `now` is `Date.now()` and `createdAt`
      the ISO time stamp. */
  function NewPreset(presetName: string, effect: Effect, currentParams: map<string, EffectParameter>, now: nat, createdAt: string): Preset
  {
    Preset("preset-" + NatToString(now), Trim(presetName), effect.id, ParamValues(currentParams), createdAt)
  }

  /** The list after `savePreset`. A save with a blank name or no selected
      effect leaves the list as it is; otherwise exactly one preset is
      appended, carrying the trimmed name, the selected effect's id and the
      value of every current parameter. */
  function AfterSave(presets: seq<Item>, presetName: string, selectedEffect: Option<Effect>,
                     currentParams: map<string, EffectParameter>, now: nat, createdAt: string): (r: seq<Item>)
    ensures Trim(presetName) == "" || selectedEffect.None? ==> r == presets
    ensures !(Trim(presetName) == "" || selectedEffect.None?) ==>
      |r| == |presets| + 1 && r[..|presets|] == presets && r[|presets|].Saved?
      && r[|presets|].preset.name == Trim(presetName)
      && r[|presets|].preset.effectId == selectedEffect.value.id
      && r[|presets|].preset.params.Keys == currentParams.Keys
      && (forall k :: k in currentParams ==> r[|presets|].preset.params[k] == currentParams[k].value)
  {
    if SaveOutcomeOf(presetName, selectedEffect).SavedAs?
    then presets + [Saved(NewPreset(presetName, selectedEffect.value, currentParams, now, createdAt))]
    else presets
  }

  /** `presets.filter(p => p.id !== id)` */
  function WithoutId(presets: seq<Item>, id: string): (r: seq<Item>)
    ensures |r| <= |presets|
    ensures forall i :: 0 <= i < |r| ==> IdOf(r[i]) != Str(id) && r[i] in presets
  {
    if presets == [] then []
    else if IdOf(presets[0]) != Str(id) then [presets[0]] + WithoutId(presets[1..], id)
    else WithoutId(presets[1..], id)
  }

  /** The filter works element by element: it distributes over
      concatenation, and keeps a single element exactly when its id differs.
      Together these fix the result: the elements with another id, in their
      order. */
  lemma {:induction false} WithoutIdSplits(a: seq<Item>, b: seq<Item>, id: string)
    ensures WithoutId(a + b, id) == WithoutId(a, id) + WithoutId(b, id)
  {
    if a != [] {
      WithoutIdSplits(a[1..], b, id);
      assert (a + b)[1..] == a[1..] + b;
    } else {
      assert a + b == b;
    }
  }

  lemma WithoutIdSingle(x: Item, id: string)
    ensures WithoutId([x], id) == if IdOf(x) == Str(id) then [] else [x]
  {
  }

  /** Deleting an id twice is deleting it once. */
  lemma {:induction false} WithoutIdIdempotent(presets: seq<Item>, id: string)
    ensures WithoutId(WithoutId(presets, id), id) == WithoutId(presets, id)
  {
    if presets != [] {
      WithoutIdIdempotent(presets[1..], id);
    }
  }

  /** `currentEffectPresets`: `presets.filter(p => selectedEffect && p.effectId === selectedEffect.id)` */
  function ForEffect(presets: seq<Item>, selectedEffect: Option<Effect>): (r: seq<Item>)
    ensures |r| <= |presets|
  {
    if presets == [] || selectedEffect.None? then []
    else if EffectIdOf(presets[0]) == Str(selectedEffect.value.id) then [presets[0]] + ForEffect(presets[1..], selectedEffect)
    else ForEffect(presets[1..], selectedEffect)
  }

  /** With nothing selected there are no current presets; otherwise they are
      the elements whose `effectId` is the selected id, and every such element
      of the list is one of them. */
  lemma {:induction false} ForEffectExactly(presets: seq<Item>, selectedEffect: Option<Effect>)
    ensures selectedEffect.None? ==> ForEffect(presets, selectedEffect) == []
    ensures selectedEffect.Some? ==>
      (forall x :: x in ForEffect(presets, selectedEffect) <==> x in presets && EffectIdOf(x) == Str(selectedEffect.value.id))
  {
    if presets != [] && selectedEffect.Some? {
      ForEffectExactly(presets[1..], selectedEffect);
      assert presets == [presets[0]] + presets[1..];
    }
  }

  /** The filter works preset by preset: filtering a concatenation filters
      each part, so the kept presets keep their order and their repeats. */
  lemma {:induction false} ForEffectSplits(a: seq<Item>, b: seq<Item>, selectedEffect: Option<Effect>)
    ensures ForEffect(a + b, selectedEffect) == ForEffect(a, selectedEffect) + ForEffect(b, selectedEffect)
  {
    if selectedEffect.None? {
    } else if a != [] {
      ForEffectSplits(a[1..], b, selectedEffect);
      assert a == [a[0]] + a[1..];
      assert a + b == [a[0]] + (a[1..] + b);
      ForEffectCons(a[0], a[1..], selectedEffect);
      ForEffectCons(a[0], a[1..] + b, selectedEffect);
    } else {
      assert a + b == b;
    }
  }

  /** The filter looks at the first preset and then at the rest. */
  lemma ForEffectCons(x: Item, rest: seq<Item>, selectedEffect: Option<Effect>)
    ensures ForEffect([x] + rest, selectedEffect) ==
      (if selectedEffect.Some? && EffectIdOf(x) == Str(selectedEffect.value.id) then [x] else [])
      + ForEffect(rest, selectedEffect)
  {
    assert ([x] + rest)[0] == x && ([x] + rest)[1..] == rest;
  }

  /** A single preset is kept exactly when an effect is selected and the
      preset's `effectId` is that effect's id. */
  lemma ForEffectSingle(x: Item, selectedEffect: Option<Effect>)
    ensures ForEffect([x], selectedEffect) ==
      if selectedEffect.Some? && EffectIdOf(x) == Str(selectedEffect.value.id) then [x] else []
  {
  }

  /** A preset just saved is among the current presets of the effect it was
      saved for. */
  lemma SavedPresetIsCurrent(presets: seq<Item>, presetName: string, effect: Effect,
                             currentParams: map<string, EffectParameter>, now: nat, createdAt: string)
    requires Trim(presetName) != ""
    ensures Saved(NewPreset(presetName, effect, currentParams, now, createdAt))
      in ForEffect(AfterSave(presets, presetName, Some(effect), currentParams, now, createdAt), Some(effect))
  {
    ForEffectExactly(AfterSave(presets, presetName, Some(effect), currentParams, now, createdAt), Some(effect));
  }

  /** What the user is told after choosing a file to import. */
  datatype ImportOutcome = NoFile | ImportedCount(count: nat) | NotAnArray | BadFormat

  /** `importPresets`: the file's text as parsed by `JSON.parse`, `None`
      when parsing throws. */
  function ImportOutcomeOf(hasFile: bool, parsed: Option<JsValue>): ImportOutcome
  {
    if !hasFile then NoFile
    else if parsed.None? then BadFormat
    else if parsed.value.Arr? then ImportedCount(|parsed.value.items|)
    else NotAnArray
  }

  /** The list after an import: the parsed array's elements after the
      existing ones, in order, and no change for anything else. */
  function AfterImport(presets: seq<Item>, hasFile: bool, parsed: Option<JsValue>): (r: seq<Item>)
    ensures ImportOutcomeOf(hasFile, parsed).ImportedCount? ==>
      |r| == |presets| + |parsed.value.items| && r[..|presets|] == presets
      && forall i :: 0 <= i < |parsed.value.items| ==> r[|presets| + i] == Imported(parsed.value.items[i])
    ensures !ImportOutcomeOf(hasFile, parsed).ImportedCount? ==> r == presets
  {
    if ImportOutcomeOf(hasFile, parsed).ImportedCount?
    then presets + seq(|parsed.value.items|, i requires 0 <= i < |parsed.value.items| => Imported(parsed.value.items[i]))
    else presets
  }

  /** The state of the panel that the preset operations touch. */
  class Manager {
    /** `presets` */
    var presets: seq<Item>
    /** `presetName`, the text field */
    var presetName: string
    /** The list last written to storage, `None` before any write. */
    var stored: Option<seq<Item>>

    /** After any change the list in storage is the list in memory. */
    ghost predicate Persisted()
      reads this
    {
      stored == Some(presets)
    }

    /** Mounting the panel: `loadPresets` reads the stored list; nothing
        stored (or text that does not parse) leaves the list empty. */
    constructor(saved: Option<seq<Item>>)
      ensures presets == (if saved.Some? then saved.value else [])
      ensures presetName == "" && stored == saved
      ensures saved.Some? ==> Persisted()
    {
      presets := if saved.Some? then saved.value else [];
      presetName := "";
      stored := saved;
    }

    method SetPresetName(name: string)
      modifies this
      ensures presetName == name && presets == old(presets) && stored == old(stored)
    {
      presetName := name;
    }

    /** `savePreset()`; `now` is `Date.now()`. */
    method SavePreset(selectedEffect: Option<Effect>, currentParams: map<string, EffectParameter>, now: nat, createdAt: string)
      returns (outcome: SaveOutcome)
      modifies this
      ensures outcome == SaveOutcomeOf(old(presetName), selectedEffect)
      ensures presets == AfterSave(old(presets), old(presetName), selectedEffect, currentParams, now, createdAt)
      ensures outcome.SavedAs? ==> Persisted() && presetName == ""
      ensures !outcome.SavedAs? ==> presets == old(presets) && stored == old(stored) && presetName == old(presetName)
    {
      if Trim(presetName) == "" {
        return EmptyName;
      }
      if selectedEffect.None? {
        return NoEffectSelected;
      }
      var newPreset := NewPreset(presetName, selectedEffect.value, currentParams, now, createdAt);
      var updated := presets + [Saved(newPreset)];
      stored := Some(updated);
      presets := updated;
      presetName := "";
      outcome := SavedAs(newPreset.name);
    }

    /** `deletePreset(id)`; `confirmed` is the answer to `window.confirm`. */
    method DeletePreset(id: string, confirmed: bool)
      modifies this
      ensures confirmed ==> presets == WithoutId(old(presets), id) && Persisted()
      ensures !confirmed ==> presets == old(presets) && stored == old(stored)
      ensures presetName == old(presetName)
    {
      if !confirmed {
        return;
      }
      var updated := WithoutId(presets, id);
      stored := Some(updated);
      presets := updated;
    }

    /** `importPresets` once the file has been read and parsed. */
    method ImportPresets(hasFile: bool, parsed: Option<JsValue>) returns (outcome: ImportOutcome)
      modifies this
      ensures outcome == ImportOutcomeOf(hasFile, parsed)
      ensures presets == AfterImport(old(presets), hasFile, parsed)
      ensures outcome.ImportedCount? ==> Persisted()
      ensures !outcome.ImportedCount? ==> stored == old(stored)
      ensures presetName == old(presetName)
    {
      if !hasFile {
        return NoFile;
      }
      if parsed.None? {
        return BadFormat;
      }
      if !parsed.value.Arr? {
        return NotAnArray;
      }
      var items := parsed.value.items;
      var updated := presets + seq(|items|, i requires 0 <= i < |items| => Imported(items[i]));
      stored := Some(updated);
      presets := updated;
      outcome := ImportedCount(|items|);
    }

    /** `currentEffectPresets`: none when nothing is selected, otherwise
        the presets whose `effectId` is the selected effect's id. */
    function CurrentEffectPresets(selectedEffect: Option<Effect>): (r: seq<Item>)
      reads this
      ensures |r| <= |presets|
      ensures selectedEffect.None? ==> r == []
      ensures selectedEffect.Some? ==>
        forall x :: x in r <==> x in presets && EffectIdOf(x) == Str(selectedEffect.value.id)
    {
      ForEffectExactly(presets, selectedEffect);
      ForEffect(presets, selectedEffect)
    }
  }
}
