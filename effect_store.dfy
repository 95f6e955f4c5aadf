/** The effect selection store (frontend/src/store/effectStore.ts): the
    catalogue, the selected effect, the parameters being edited and the
    loading status. The clock is a parameter; the 800 ms mock delay of
    `fetchEffects` splits it into a start and a completion step. */
module EffectStore {
  import opened Options
  import opened JsValues
  import opened Records
  import opened Types
  import Validation

  /** `/^#[0-9A-F]{6}$/i.test(value)`: the test reads `String(value)`. A
      one-element array reads as its element; the string form of any other
      non-string value contains no '#' or, for longer arrays, a comma. */
  predicate MatchesHexColor(v: JsValue)
  {
    match v
    case Str(s) => Validation.IsHexColor(s)
    case Arr(items) => |items| == 1 && MatchesHexColor(items[0])
    case _ => false
  }

  /** `param.min || 0` */
  function LowOf(p: EffectParameter): real
  {
    if p.min.Some? then p.min.value else 0.0
  }

  /** `param.max || 100`: a maximum of 0 counts as missing. */
  function HighOf(p: EffectParameter): real
  {
    if p.max.Some? && p.max.value != 0.0 then p.max.value else 100.0
  }

  /** The value `updateParam` would store for the declaration `p`, or `None`
      when it rejects the value (a colour that does not match). */
  function Normalized(p: EffectParameter, value: JsValue): (r: Option<JsValue>)
    ensures r.None? <==> p.paramType == Color && !MatchesHexColor(value)
    ensures p.paramType == Slider ==> r.Some? && r.value.Num? && (r.value.n.NaN? <==> ToNumber(value).NaN?)
    ensures p.paramType == Slider && !ToNumber(value).NaN? && LowOf(p) <= HighOf(p) ==>
      r.value.n.Finite? && LowOf(p) <= r.value.n.r <= HighOf(p)
    ensures p.paramType == Toggle ==> r == Some(Bool(Truthy(value)))
    ensures r.Some? && p.paramType != Slider && p.paramType != Toggle ==> r.value == value
  {
    ClampSliderRange(p, ToNumber(value));
    match p.paramType
    case Slider => Some(Num(ClampSlider(p, ToNumber(value))))
    case Color => if MatchesHexColor(value) then Some(value) else None
    case Toggle => Some(Bool(Truthy(value)))
    case _ => Some(value)
  }

  /** The parameters after `updateParam(key, value)`, given whether an
      effect is selected. Without a selected effect, for a key that is not a
      parameter, or for a rejected value nothing changes; otherwise only the
      `value` of that key changes, to the normalised value. */
  function ParamsAfterUpdate(selected: bool, params: map<string, EffectParameter>, key: string, value: JsValue): (r: map<string, EffectParameter>)
    ensures r.Keys == params.Keys
    ensures forall k :: k in params && k != key ==> r[k] == params[k]
    ensures key in params ==> r[key].(value := params[key].value) == params[key]
    ensures !selected || key !in params || Normalized(params[key], value).None? ==> r == params
    ensures selected && key in params && Normalized(params[key], value).Some? ==>
      r[key].value == Normalized(params[key], value).value
  {
    if !selected || key !in params then params
    else
      var n := Normalized(params[key], value);
      if n.None? || params[key].value == n.value then params
      else params[key := params[key].(value := n.value)]
  }

  /** The parameters after `updateParams(updates)`: one `updateParam` per
      entry, in order. */
  function ParamsAfterUpdates(selected: bool, params: map<string, EffectParameter>, updates: Entries<JsValue>): map<string, EffectParameter>
  {
    if updates == [] then params
    else
      var last := updates[|updates| - 1];
      ParamsAfterUpdate(selected, ParamsAfterUpdates(selected, params, updates[..|updates| - 1]), last.0, last.1)
  }

  /** The parameters have the keys of `defaults` and differ from them at
      most in their values. */
  predicate MatchesDefaults(defaults: map<string, EffectParameter>, params: map<string, EffectParameter>)
  {
    params.Keys == defaults.Keys
    && forall k :: k in params ==> params[k].(value := defaults[k].value) == defaults[k]
  }

  /** An update keeps the parameters matching the defaults. */
  lemma UpdateKeepsDefaults(defaults: map<string, EffectParameter>, params: map<string, EffectParameter>, key: string, value: JsValue)
    requires MatchesDefaults(defaults, params)
    ensures MatchesDefaults(defaults, ParamsAfterUpdate(true, params, key, value))
  {
  }

  /** `Math.max(min || 0, Math.min(max || 100, n))` */
  function ClampSlider(p: EffectParameter, n: Number): Number
  {
    Max(Finite(LowOf(p)), Min(Finite(HighOf(p)), n))
  }

  /** The clamp keeps NaN and puts every other number within the bounds
      when they are ordered; clamping again changes nothing. */
  lemma ClampSliderRange(p: EffectParameter, n: Number)
    ensures n.NaN? ==> ClampSlider(p, n) == NaN
    ensures !n.NaN? && LowOf(p) <= HighOf(p) ==>
      ClampSlider(p, n).Finite? && LowOf(p) <= ClampSlider(p, n).r <= HighOf(p)
    ensures ClampSlider(p, ClampSlider(p, n)) == ClampSlider(p, n)
  {
    var lo, hi := Finite(LowOf(p)), Finite(HighOf(p));
    var inner := Min(hi, n);
    if !n.NaN? {
      assert inner.Finite? || inner.NegInfinity?;
      assert ClampSlider(p, n).Finite?;
      assert !Less(n, lo) ==> !Less(inner, lo) || Less(hi, lo);
    }
  }

  /** A slider value that converts to a number is stored within
      [min || 0, max || 100] when those bounds are ordered; a value that
      converts to NaN is stored as NaN. */
  lemma SliderUpdateInBounds(params: map<string, EffectParameter>, key: string, value: JsValue)
    requires key in params && params[key].paramType == Slider
    requires LowOf(params[key]) <= HighOf(params[key])
    ensures var v := ParamsAfterUpdate(true, params, key, value)[key].value;
      if ToNumber(value).NaN? then v == Num(NaN)
      else v.Num? && v.n.Finite? && LowOf(params[key]) <= v.n.r <= HighOf(params[key])
  {
    var n := ToNumber(value);
    ClampSliderRange(params[key], n);
    assert Normalized(params[key], value) == Some(Num(ClampSlider(params[key], n)));
  }

  /** A colour is stored exactly as given, without changing its case, when
      it matches `#RRGGBB`; otherwise nothing changes. */
  lemma ColorUpdate(params: map<string, EffectParameter>, key: string, value: JsValue)
    requires key in params && params[key].paramType == Color
    ensures MatchesHexColor(value) ==> ParamsAfterUpdate(true, params, key, value)[key].value == value
    ensures !MatchesHexColor(value) ==> ParamsAfterUpdate(true, params, key, value) == params
  {
  }

  /** A toggle stores the truthiness of the value. */
  lemma ToggleUpdate(params: map<string, EffectParameter>, key: string, value: JsValue)
    requires key in params && params[key].paramType == Toggle
    ensures ParamsAfterUpdate(true, params, key, value)[key].value == Bool(Truthy(value))
  {
  }

  /** A value `updateParam` stores is stored again unchanged. */
  lemma NormalizedIsFixed(p: EffectParameter, value: JsValue)
    requires Normalized(p, value).Some?
    ensures Normalized(p, Normalized(p, value).value) == Normalized(p, value)
  {
    if p.paramType == Slider {
      var n := ClampSlider(p, ToNumber(value));
      ClampSliderRange(p, ToNumber(value));
      assert ToNumber(Num(n)) == n;
    }
  }

  /** Submitting the stored value again changes nothing, whatever the kind. */
  lemma StoredValueIsStable(params: map<string, EffectParameter>, key: string, value: JsValue)
    requires key in params
    ensures var r := ParamsAfterUpdate(true, params, key, value);
      ParamsAfterUpdate(true, r, key, r[key].value) == r
  {
    var p := params[key];
    var n := Normalized(p, value);
    if n.Some? {
      NormalizedIsFixed(p, value);
      assert Normalized(p.(value := n.value), n.value) == n;
    } else {
      assert p.paramType == Color;
    }
  }

  /** `updateParams` with no entries changes nothing; one entry is one `updateParam`. */
  lemma UpdatesAreSequential(selected: bool, params: map<string, EffectParameter>, updates: Entries<JsValue>, key: string, value: JsValue)
    ensures ParamsAfterUpdates(selected, params, []) == params
    ensures ParamsAfterUpdates(selected, params, updates + [(key, value)])
      == ParamsAfterUpdate(selected, ParamsAfterUpdates(selected, params, updates), key, value)
  {
    assert (updates + [(key, value)])[..|updates|] == updates;
  }

  /** The parameter declarations after any number of updates have the key
      set and, key by key, every field but `value` of the starting ones. */
  lemma {:induction false} UpdatesKeepDeclarations(selected: bool, params: map<string, EffectParameter>, updates: Entries<JsValue>)
    ensures var r := ParamsAfterUpdates(selected, params, updates);
      r.Keys == params.Keys && forall k :: k in params ==> r[k].(value := params[k].value) == params[k]
  {
    if updates != [] {
      var init := updates[..|updates| - 1];
      var last := updates[|updates| - 1];
      UpdatesKeepDeclarations(selected, params, init);
    }
  }

  function SliderParam(value: real, min: real, max: real, step: real): EffectParameter
  {
    EffectParameter(Slider, Num(Finite(value)), Some(min), Some(max), Some(step), None)
  }

  function ColorParam(value: string): EffectParameter
  {
    EffectParameter(Color, Str(value), None, None, None, None)
  }

  /** The catalogue `fetchEffects` installs. */
  function MockEffects(): seq<Effect>
  {
    [ Effect("gnParticles", "GN 입자",
        "GN 드라이브에서 방출되는 고에너지 입자들이 만들어내는 환상적인 빛의 향연",
        Some("/images/effects/gn-particles-thumb.jpg"),
        ["가넷 건담", "엑시아", "더블오", "큐안타"], "particles",
        map["particleCount" := SliderParam(2000.0, 500.0, 5000.0, 100.0),
            "particleSize" := SliderParam(0.08, 0.02, 0.15, 0.01),
            "speed" := SliderParam(1.5, 0.5, 3.0, 0.1),
            "spread" := SliderParam(8.0, 2.0, 15.0, 0.5),
            "color" := ColorParam("#00FF88"),
            "glowIntensity" := SliderParam(1.2, 0.5, 2.5, 0.1)]),
      Effect("newtypeFlash", "뉴타입 섬광",
        "뉴타입의 정신적 각성 순간에 발생하는 강렬한 금색 섬광과 충격파",
        Some("/images/effects/newtype-flash-thumb.jpg"),
        ["뉴 건담", "유니콘 건담", "바나지", "아무로"], "energy",
        map["intensity" := SliderParam(1.5, 0.5, 3.0, 0.1),
            "flashSpeed" := SliderParam(2.0, 0.5, 5.0, 0.1),
            "waveCount" := SliderParam(3.0, 1.0, 8.0, 1.0),
            "color" := ColorParam("#FFD700"),
            "pulseRate" := SliderParam(1.2, 0.3, 3.0, 0.1)]),
      Effect("minofskyParticles", "미노프스키 입자",
        "MS의 핵융합 반응에서 생성되는 미노프스키 입자의 전자기 간섭 효과",
        Some("/images/effects/minofsky-particles-thumb.jpg"),
        ["건담", "자쿠", "겔구그", "모든 MS"], "particles",
        map["particleCount" := SliderParam(1500.0, 300.0, 4000.0, 100.0),
            "particleSize" := SliderParam(0.06, 0.01, 0.12, 0.01),
            "speed" := SliderParam(1.0, 0.3, 2.5, 0.1),
            "color" := ColorParam("#FF6B35"),
            "interference" := SliderParam(0.7, 0.0, 2.0, 0.1)]) ]
  }

  /** Every slider default lies within [min || 0, max || 100] and has a
      positive step, and every colour default matches `#RRGGBB`. */
  predicate DefaultsWellFormed(ps: map<string, EffectParameter>)
  {
    forall k :: k in ps ==>
      && (ps[k].paramType == Slider ==>
            ps[k].value.Num? && ps[k].value.n.Finite? && LowOf(ps[k]) <= ps[k].value.n.r <= HighOf(ps[k]))
      && (ps[k].paramType == Slider ==> ps[k].step.Some? && ps[k].step.value > 0.0)
      && (ps[k].paramType == Color ==> MatchesHexColor(ps[k].value))
  }

  /** The catalogue has three effects with distinct ids, and all their
      defaults are well formed. */
  lemma MockCatalogueWellFormed()
    ensures |MockEffects()| == 3
    ensures forall i, j :: 0 <= i < j < 3 ==> MockEffects()[i].id != MockEffects()[j].id
    ensures forall i :: 0 <= i < 3 ==> DefaultsWellFormed(MockEffects()[i].defaultParams)
  {
    var es := MockEffects();
    assert es[0].id == "gnParticles" && es[1].id == "newtypeFlash" && es[2].id == "minofskyParticles";
    GnParticlesWellFormed();
    NewtypeFlashWellFormed();
    MinofskyParticlesWellFormed();
  }

  lemma GnParticlesWellFormed()
    ensures DefaultsWellFormed(MockEffects()[0].defaultParams)
  {
    assert Validation.IsHexColor("#00FF88");
  }

  lemma NewtypeFlashWellFormed()
    ensures DefaultsWellFormed(MockEffects()[1].defaultParams)
  {
    assert Validation.IsHexColor("#FFD700");
  }

  lemma MinofskyParticlesWellFormed()
    ensures DefaultsWellFormed(MockEffects()[2].defaultParams)
  {
    assert Validation.IsHexColor("#FF6B35");
  }

  /** The five minutes within which a non-empty catalogue is reused. */
  const FreshnessWindow: int := 5 * 60 * 1000

  /** `get().effects.find(effect => effect.id === id)` */
  function FindEffect(effects: seq<Effect>, id: string): (r: Option<Effect>)
    ensures r.None? <==> forall i :: 0 <= i < |effects| ==> effects[i].id != id
    ensures r.Some? ==> exists i :: (0 <= i < |effects| && effects[i] == r.value && r.value.id == id
      && forall j :: 0 <= j < i ==> effects[j].id != id)
  {
    if effects == [] then None
    else if effects[0].id == id then Some(effects[0])
    else
      var r := FindEffect(effects[1..], id);
      assert forall i :: 1 <= i < |effects| ==> effects[1..][i - 1] == effects[i];
      r
  }

  /** `effects.filter(effect => effect.category === category)` */
  function FilterCategory(effects: seq<Effect>, category: string): (r: seq<Effect>)
    ensures |r| <= |effects|
    ensures forall e :: e in r <==> e in effects && e.category == category
  {
    if effects == [] then []
    else
      var rest := FilterCategory(effects[1..], category);
      assert forall e :: e in effects <==> e == effects[0] || e in effects[1..];
      if effects[0].category == category then [effects[0]] + rest else rest
  }

  /** The category filter works effect by effect: filtering a
      concatenation filters each part, so order and repeats are kept. */
  lemma {:induction false} FilterCategorySplits(a: seq<Effect>, b: seq<Effect>, category: string)
    ensures FilterCategory(a + b, category) == FilterCategory(a, category) + FilterCategory(b, category)
  {
    if a != [] {
      FilterCategorySplits(a[1..], b, category);
      assert (a + b)[1..] == a[1..] + b;
    } else {
      assert a + b == b;
    }
  }

  /** A single effect is kept exactly when it has the category. */
  lemma FilterCategorySingle(e: Effect, category: string)
    ensures FilterCategory([e], category) == if e.category == category then [e] else []
  {
  }

  class Store {
    var effects: seq<Effect>
    var selectedEffect: Option<Effect>
    var currentParams: map<string, EffectParameter>
    var status: LoadingStatus
    var error: Option<string>
    var lastFetchTime: int

    /** The catalogue is empty or the one `fetchEffects` installs; the
        selected effect comes from it, and the parameters
        being edited are its declarations with possibly other values. */
    ghost predicate Valid()
      reads this
    {
      && (effects == [] || effects == MockEffects())
      && (selectedEffect.Some? ==> selectedEffect.value in effects)
      && (selectedEffect.Some? ==> MatchesDefaults(selectedEffect.value.defaultParams, currentParams))
      && (selectedEffect.None? ==> currentParams == map[])
    }

    predicate IsInitial()
      reads this
    {
      effects == [] && selectedEffect.None? && currentParams == map[]
      && status == Idle && error.None? && lastFetchTime == 0
    }

    /** `initialState` */
    constructor()
      ensures IsInitial() && Valid()
    {
      effects := [];
      selectedEffect := None;
      currentParams := map[];
      status := Idle;
      error := None;
      lastFetchTime := 0;
    }

    /** `isLoading()` */
    predicate IsLoading()
      reads this
    {
      status == Loading
    }

    /** `hasError()` */
    predicate HasError()
      reads this
    {
      status == Failed
    }

    /** `isReady()` */
    predicate IsReady()
      reads this
    {
      status == Succeeded && |effects| > 0
    }

    /** `selectedParams()`: each parameter key with its current value, or
        nothing when no effect is selected. */
    function SelectedParams(): (r: map<string, JsValue>)
      reads this
      ensures selectedEffect.None? ==> r == map[]
      ensures selectedEffect.Some? ==>
        r.Keys == currentParams.Keys && forall k :: k in r ==> r[k] == currentParams[k].value
    {
      if selectedEffect.None? then map[] else map k | k in currentParams :: currentParams[k].value
    }

    /** `getEffectById(id)` */
    function GetEffectById(id: string): (r: Option<Effect>)
      reads this
      ensures r.Some? ==> r.value in effects && r.value.id == id
      ensures r.None? <==> forall e :: e in effects ==> e.id != id
    {
      FindEffect(effects, id)
    }

    /** `getEffectsByCategory(category)` */
    function GetEffectsByCategory(category: string): (r: seq<Effect>)
      reads this
      ensures r == FilterCategory(effects, category)
      ensures forall e :: e in r <==> e in effects && e.category == category
    {
      FilterCategory(effects, category)
    }

    /** The guard part of `fetchEffects(now)`: nothing happens while loading
        or when a non-empty catalogue is less than five minutes old;
        otherwise the status becomes loading and the error is cleared. */
    method FetchEffects(now: int) returns (started: bool)
      requires Valid()
      modifies this
      ensures Valid()
      ensures started <==> (old(status) != Loading
        && !(old(lastFetchTime) > now - FreshnessWindow && |old(effects)| > 0))
      ensures started ==> status == Loading && error.None?
      ensures !started ==> status == old(status) && error == old(error)
      ensures effects == old(effects) && selectedEffect == old(selectedEffect)
        && currentParams == old(currentParams) && lastFetchTime == old(lastFetchTime)
    {
      if status == Loading {
        return false;
      }
      var fiveMinutesAgo := now - FreshnessWindow;
      if lastFetchTime > fiveMinutesAgo && |effects| > 0 {
        return false;
      }
      status := Loading;
      error := None;
      started := true;
    }

    /** The completion of `fetchEffects` at time `now`: the catalogue is
        installed, and its first effect is selected when none is. */
    method CompleteFetch(now: int)
      requires Valid()
      modifies this
      ensures Valid()
      ensures effects == MockEffects() && status == Succeeded && lastFetchTime == now
      ensures error == old(error)
      ensures old(selectedEffect).None? ==>
        selectedEffect == Some(MockEffects()[0]) && currentParams == MockEffects()[0].defaultParams
      ensures old(selectedEffect).Some? ==>
        selectedEffect == old(selectedEffect) && currentParams == old(currentParams)
    {
      var mockEffects := MockEffects();
      effects := mockEffects;
      status := Succeeded;
      lastFetchTime := now;
      if selectedEffect.None? && |mockEffects| > 0 {
        selectedEffect := Some(mockEffects[0]);
        currentParams := mockEffects[0].defaultParams;
      }
    }

    /** `selectEffect(effectId)`: an unknown id, or the id already selected,
        changes nothing; otherwise the effect is selected and its defaults
        become the current parameters. */
    method SelectEffect(effectId: string)
      requires Valid()
      modifies this
      ensures Valid()
      ensures var found := FindEffect(old(effects), effectId);
        if found.None? || (old(selectedEffect).Some? && old(selectedEffect).value.id == effectId) then
          selectedEffect == old(selectedEffect) && currentParams == old(currentParams)
        else
          selectedEffect == found && currentParams == found.value.defaultParams
      ensures effects == old(effects) && status == old(status) && error == old(error)
        && lastFetchTime == old(lastFetchTime)
    {
      var effect := FindEffect(effects, effectId);
      if effect.None? {
        return;
      }
      if selectedEffect.Some? && selectedEffect.value.id == effectId {
        return;
      }
      selectedEffect := effect;
      currentParams := effect.value.defaultParams;
    }

    /** `updateParam(key, value)` */
    method UpdateParam(key: string, value: JsValue)
      requires Valid()
      modifies this
      ensures Valid()
      ensures currentParams == ParamsAfterUpdate(old(selectedEffect).Some?, old(currentParams), key, value)
      ensures effects == old(effects) && selectedEffect == old(selectedEffect) && status == old(status)
        && error == old(error) && lastFetchTime == old(lastFetchTime)
    {
      if selectedEffect.None? {
        return;
      }
      if key !in currentParams {
        return;
      }
      var param := currentParams[key];
      var normalizedValue := value;
      if param.paramType == Slider {
        normalizedValue := Num(ClampSlider(param, ToNumber(value)));
      } else if param.paramType == Color {
        if !MatchesHexColor(value) {
          return;
        }
      } else if param.paramType == Toggle {
        normalizedValue := Bool(Truthy(value));
      }
      assert Normalized(param, value) == Some(normalizedValue);
      UpdateKeepsDefaults(selectedEffect.value.defaultParams, currentParams, key, value);
      if param.value != normalizedValue {
        currentParams := currentParams[key := param.(value := normalizedValue)];
      }
    }

    /** `updateParams(params)`: `updateParam` for each entry in order. */
    method UpdateParams(params: Entries<JsValue>)
      requires Valid()
      modifies this
      ensures Valid()
      ensures currentParams == ParamsAfterUpdates(old(selectedEffect).Some?, old(currentParams), params)
      ensures effects == old(effects) && selectedEffect == old(selectedEffect) && status == old(status)
        && error == old(error) && lastFetchTime == old(lastFetchTime)
    {
      var i := 0;
      while i < |params|
        invariant 0 <= i <= |params|
        invariant Valid()
        invariant currentParams == ParamsAfterUpdates(old(selectedEffect).Some?, old(currentParams), params[..i])
        invariant effects == old(effects) && selectedEffect == old(selectedEffect) && status == old(status)
          && error == old(error) && lastFetchTime == old(lastFetchTime)
      {
        UpdateParam(params[i].0, params[i].1);
        assert params[..i + 1][..i] == params[..i];
        i := i + 1;
      }
      assert params[..i] == params;
    }

    /** `resetParams()`: the selected effect's defaults, or nothing. */
    method ResetParams()
      requires Valid()
      modifies this
      ensures Valid()
      ensures currentParams == if selectedEffect.Some? then selectedEffect.value.defaultParams else map[]
      ensures effects == old(effects) && selectedEffect == old(selectedEffect) && status == old(status)
        && error == old(error) && lastFetchTime == old(lastFetchTime)
    {
      if selectedEffect.None? {
        currentParams := map[];
        return;
      }
      currentParams := selectedEffect.value.defaultParams;
    }

    /** `resetStore()`: back to `initialState`. */
    method ResetStore()
      modifies this
      ensures IsInitial() && Valid()
    {
      effects := [];
      selectedEffect := None;
      currentParams := map[];
      status := Idle;
      error := None;
      lastFetchTime := 0;
    }
  }
}
