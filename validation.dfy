/** Parameter validation (frontend/src/utils/validation.ts): one value is
    checked and normalised against its declaration, per kind, and a whole
    parameter object is checked entry by entry, collecting errors. The
    messages of the source are represented by the structured reasons below. */
module Validation {
  import opened Options
  import opened JsStrings
  import opened JsValues
  import opened Records
  import opened Types

  /** Why a value was rejected. */
  datatype ParamError =
    | MissingConfig(key: string)
    | NotANumber(key: string)
    | NotAString(key: string)
    | BadColorFormat(key: string)
    | NoOptions(key: string)
    | NotAnOption(key: string, options: seq<string>)
    | UnknownType(typeName: string)
    | UnknownParameter(key: string)

  /** The notice attached to an accepted slider value that had to be moved. */
  datatype Adjustment = RaisedToMin(min: real) | LoweredToMax(max: real)

  /** `{valid: true, normalizedValue, error?}` or `{valid: false, error}`;
      for an accepted value the source's `error` field is the adjustment notice. */
  datatype ParamResult =
    | Valid(normalized: JsValue, notice: Option<Adjustment>)
    | Invalid(error: ParamError)

  /** `config.min ?? 0` */
  function MinOf(c: EffectParameter): real
  {
    if c.min.Some? then c.min.value else 0.0
  }

  /** `config.max ?? 100` */
  function MaxOf(c: EffectParameter): real
  {
    if c.max.Some? then c.max.value else 100.0
  }

  /** `config.step` is truthy: present and neither 0 nor NaN. */
  predicate HasStep(c: EffectParameter)
  {
    c.step.Some? && c.step.value != 0.0
  }

  /** `Math.round(x)`: the nearest integer, halves rounded up. */
  function Round(x: real): int
  {
    (x + 0.5).Floor
  }

  /** `/^#[0-9A-F]{6}$/i.test(s)` */
  predicate IsHexColor(s: string)
  {
    |s| == 7 && s[0] == '#' && forall i :: 1 <= i < 7 ==> IsHexDigit(s[i])
  }

  /** The slider branch of `validateParam`, on `Number(value)`. */
  function NormalizeSlider(key: string, n: Number, c: EffectParameter): (r: ParamResult)
    ensures r.Invalid? <==> n.NaN?
    ensures r.Invalid? ==> r.error == NotANumber(key)
    ensures r.Valid? ==> r.normalized.Num? && r.normalized.n.Finite?
    ensures r.Valid? && r.notice.Some? ==>
      r.normalized.n.r == (if r.notice.value.RaisedToMin? then MinOf(c) else MaxOf(c))
    ensures r.Valid? && !HasStep(c) && MinOf(c) <= MaxOf(c) ==> MinOf(c) <= r.normalized.n.r <= MaxOf(c)
  {
    if n.NaN? then Invalid(NotANumber(key))
    else if Less(n, Finite(MinOf(c))) then Valid(Num(Finite(MinOf(c))), Some(RaisedToMin(MinOf(c))))
    else if Less(Finite(MaxOf(c)), n) then Valid(Num(Finite(MaxOf(c))), Some(LoweredToMax(MaxOf(c))))
    else if HasStep(c) then Valid(Num(Finite(Round(n.r / c.step.value) as real * c.step.value)), None)
    else Valid(Num(n), None)
  }

  /** `validateParam(key, value, config)`; `config` is `None` when it is
      null or undefined. */
  function ValidateParam(key: string, value: JsValue, config: Option<EffectParameter>): (r: ParamResult)
    ensures config.None? ==> r == Invalid(MissingConfig(key))
    ensures config.Some? && config.value.paramType.OtherType? ==> r == Invalid(UnknownType(config.value.paramType.name))
    ensures r.Valid? && r.notice.Some? ==> config.value.paramType == Slider
    ensures config.Some? && config.value.paramType == Color ==> (r.Valid? <==> value.Str? && IsHexColor(value.s))
    ensures config.Some? && config.value.paramType == Toggle ==> r.Valid? && r.normalized == Bool(Truthy(value))
    ensures config.Some? && config.value.paramType == Select ==>
      (r.Valid? <==> config.value.options.Some? && value.Str? && value.s in config.value.options.value)
  {
    match config
    case None => Invalid(MissingConfig(key))
    case Some(c) =>
      match c.paramType
      case Slider => NormalizeSlider(key, ToNumber(value), c)
      case Color =>
        if !value.Str? then Invalid(NotAString(key))
        else if !IsHexColor(value.s) then Invalid(BadColorFormat(key))
        else Valid(Str(ToUpper(value.s)), None)
      case Toggle =>
        Valid(Bool(Truthy(value)), None)
      case Select =>
        if c.options.None? then Invalid(NoOptions(key))
        else if !(value.Str? && value.s in c.options.value) then Invalid(NotAnOption(key, c.options.value))
        else Valid(value, None)
      case OtherType(name) =>
        Invalid(UnknownType(name))
  }

  /** A missing configuration and an unknown kind are both rejected, with
      the key or the kind's name. */
  lemma RejectsMissingAndUnknown(key: string, value: JsValue, config: Option<EffectParameter>)
    ensures config.None? ==> ValidateParam(key, value, config) == Invalid(MissingConfig(key))
    ensures config.Some? && config.value.paramType.OtherType? ==>
      ValidateParam(key, value, config) == Invalid(UnknownType(config.value.paramType.name))
  {
  }

  /** For a slider, `validateParam` is the slider branch on `Number(value)`;
      the slider lemmas below are stated on that branch. */
  lemma SliderBranch(key: string, value: JsValue, c: EffectParameter)
    requires c.paramType == Slider
    ensures ValidateParam(key, value, Some(c)) == NormalizeSlider(key, ToNumber(value), c)
  {
  }

  /** A slider value that converts to NaN is rejected; every other value is
      accepted as a finite number. */
  lemma SliderAcceptsExactlyNumbers(key: string, n: Number, c: EffectParameter)
    ensures NormalizeSlider(key, n, c).Invalid? <==> n.NaN?
    ensures NormalizeSlider(key, n, c).Invalid? ==> NormalizeSlider(key, n, c).error == NotANumber(key)
    ensures NormalizeSlider(key, n, c).Valid? ==>
      NormalizeSlider(key, n, c).normalized.Num? && NormalizeSlider(key, n, c).normalized.n.Finite?
  {
  }

  /** Below the minimum the value becomes the minimum, above the maximum the
      maximum; both are accepted with a notice. */
  lemma SliderClampsOutOfRange(key: string, n: Number, c: EffectParameter)
    requires !n.NaN?
    ensures Less(n, Finite(MinOf(c))) ==>
      NormalizeSlider(key, n, c) == Valid(Num(Finite(MinOf(c))), Some(RaisedToMin(MinOf(c))))
    ensures !Less(n, Finite(MinOf(c))) && Less(Finite(MaxOf(c)), n) ==>
      NormalizeSlider(key, n, c) == Valid(Num(Finite(MaxOf(c))), Some(LoweredToMax(MaxOf(c))))
  {
  }

  /** Without a step, an accepted slider value is a finite number within
      [min, max] whenever min <= max, and an in-range number is returned
      unchanged. */
  lemma SliderUnsteppedInRange(key: string, n: Number, c: EffectParameter)
    requires !HasStep(c) && MinOf(c) <= MaxOf(c)
    ensures NormalizeSlider(key, n, c).Valid? ==>
      var x := NormalizeSlider(key, n, c).normalized;
      x.Num? && x.n.Finite? && MinOf(c) <= x.n.r <= MaxOf(c)
    ensures n.Finite? && MinOf(c) <= n.r <= MaxOf(c) ==> NormalizeSlider(key, n, c) == Valid(Num(n), None)
  {
    if n.Finite? && MinOf(c) <= n.r <= MaxOf(c) {
      assert !Less(n, Finite(MinOf(c))) && !Less(Finite(MaxOf(c)), n);
    }
  }

  /** A numeric string such as "75" is read as its number: within the
      bounds and without a step, the number itself is the result. */
  lemma SliderReadsNumericString(key: string, n: nat, c: EffectParameter)
    requires c.paramType == Slider && !HasStep(c)
    requires MinOf(c) <= n as real <= MaxOf(c)
    ensures ValidateParam(key, Str(NatToString(n)), Some(c)) == Valid(Num(Finite(n as real)), None)
  {
    SliderBranch(key, Str(NatToString(n)), c);
    NatStringToNumber(n);
    SliderUnsteppedInRange(key, Finite(n as real), c);
  }

  /** `k` is what rounding `q` to the nearest integer may give. */
  predicate NearestInteger(k: int, q: real)
  {
    q - 0.5 < k as real <= q + 0.5
  }

  /** `Math.round` gives the nearest integer. */
  lemma RoundIsNearest(q: real)
    ensures NearestInteger(Round(q), q)
  {
    var f := q + 0.5;
    assert f.Floor as real <= f < f.Floor as real + 1.0;
  }

  /** With a step, an in-range number is replaced by a multiple of the step
      whose factor is the quotient rounded to the nearest integer; it is not
      clamped again. (`SliderBranch` carries this over to every value.) */
  lemma SliderSteppedIsNearestMultiple(key: string, n: Number, c: EffectParameter)
    requires HasStep(c) && n.Finite? && MinOf(c) <= n.r <= MaxOf(c)
    ensures NormalizeSlider(key, n, c) == Valid(Num(Finite(Round(n.r / c.step.value) as real * c.step.value)), None)
    ensures NearestInteger(Round(n.r / c.step.value), n.r / c.step.value)
  {
    assert !Less(n, Finite(MinOf(c))) && !Less(Finite(MaxOf(c)), n);
    assert NormalizeSlider(key, n, c).Valid?;
    assert NormalizeSlider(key, n, c).notice == None;
    var m := NormalizeSlider(key, n, c).normalized;
    assert m.Num?;
    assert m.n == Finite(Round(n.r / c.step.value) as real * c.step.value);
    RoundIsNearest(n.r / c.step.value);
  }

  /** The stepped value can leave the range: with min 0, max 100 and step
      40, the value 100 becomes 120. */
  lemma SliderStepCanExceedMax()
    ensures ValidateParam("p", Num(Finite(100.0)),
      Some(EffectParameter(Slider, Num(Finite(0.0)), Some(0.0), Some(100.0), Some(40.0), None)))
      == Valid(Num(Finite(120.0)), None)
  {
    assert Round(100.0 / 40.0) == 3;
  }

  /** A colour is accepted exactly when it is a string of '#' and six hex
      digits in either case, and is returned in upper case. */
  lemma ColorAcceptsExactlyHex(key: string, value: JsValue, c: EffectParameter)
    requires c.paramType == Color
    ensures ValidateParam(key, value, Some(c)).Valid? <==> value.Str? && IsHexColor(value.s)
    ensures ValidateParam(key, value, Some(c)).Valid? ==>
      var r := ValidateParam(key, value, Some(c)).normalized;
      r.Str? && IsHexColor(r.s) && (forall i :: 0 <= i < 7 ==> !IsLower(r.s[i]))
      && ToLower(r.s) == ToLower(value.s)
  {
    if value.Str? && IsHexColor(value.s) {
      var r := ToUpper(value.s);
      assert forall i :: 0 <= i < 7 ==> LowerChar(UpperChar(value.s[i])) == LowerChar(value.s[i]);
    }
  }

  /** A toggle accepts everything and stores its truthiness. */
  lemma ToggleAcceptsAll(key: string, value: JsValue, c: EffectParameter)
    requires c.paramType == Toggle
    ensures ValidateParam(key, value, Some(c)) == Valid(Bool(Truthy(value)), None)
  {
  }

  /** A select accepts exactly the listed option strings, unchanged. */
  lemma SelectAcceptsOptions(key: string, value: JsValue, c: EffectParameter)
    requires c.paramType == Select
    ensures ValidateParam(key, value, Some(c)).Valid? <==>
      c.options.Some? && value.Str? && value.s in c.options.value
    ensures ValidateParam(key, value, Some(c)).Valid? ==> ValidateParam(key, value, Some(c)).normalized == value
    ensures c.options.None? ==> ValidateParam(key, value, Some(c)) == Invalid(NoOptions(key))
  {
  }

  /** Without a step, the slider branch keeps its own result. */
  lemma UnsteppedNumberRevalidates(key: string, n: Number, c: EffectParameter)
    requires !HasStep(c) && MinOf(c) <= MaxOf(c)
    requires NormalizeSlider(key, n, c).Valid?
    ensures NormalizeSlider(key, n, c).normalized.Num?
    ensures NormalizeSlider(key, NormalizeSlider(key, n, c).normalized.n, c) == Valid(NormalizeSlider(key, n, c).normalized, None)
  {
    SliderUnsteppedInRange(key, n, c);
    SliderUnsteppedInRange(key, NormalizeSlider(key, n, c).normalized.n, c);
  }

  /** An unstepped slider result is a number within [min, max], which the
      slider branch returns unchanged. */
  lemma UnsteppedSliderRevalidates(key: string, value: JsValue, c: EffectParameter)
    requires c.paramType.Slider? && !HasStep(c) && MinOf(c) <= MaxOf(c)
    requires ValidateParam(key, value, Some(c)).Valid?
    ensures var n := ValidateParam(key, value, Some(c)).normalized;
      ValidateParam(key, n, Some(c)) == Valid(n, None)
  {
    var x := ToNumber(value);
    SliderBranch(key, value, c);
    UnsteppedNumberRevalidates(key, x, c);
    var n := NormalizeSlider(key, x, c).normalized;
    SliderBranch(key, n, c);
    assert ToNumber(n) == n.n;
  }

  /** An upper-cased colour is still a colour and stays as it is. */
  lemma ColorRevalidates(key: string, value: JsValue, c: EffectParameter)
    requires c.paramType.Color?
    requires ValidateParam(key, value, Some(c)).Valid?
    ensures var n := ValidateParam(key, value, Some(c)).normalized;
      ValidateParam(key, n, Some(c)) == Valid(n, None)
  {
    var u := ToUpper(value.s);
    assert ToUpper(u) == u;
  }

  /** Validating a normalised value again accepts it as it is, for every
      kind whose normalisation has no step. */
  lemma NormalizedValueRevalidates(key: string, value: JsValue, c: EffectParameter)
    requires c.paramType.Color? || c.paramType.Toggle? || c.paramType.Select?
      || (c.paramType.Slider? && !HasStep(c) && MinOf(c) <= MaxOf(c))
    requires ValidateParam(key, value, Some(c)).Valid?
    ensures var n := ValidateParam(key, value, Some(c)).normalized;
      ValidateParam(key, n, Some(c)) == Valid(n, None)
  {
    if c.paramType.Color? {
      ColorRevalidates(key, value, c);
    } else if c.paramType.Slider? {
      UnsteppedSliderRevalidates(key, value, c);
    }
  }

  /** What `validateParams` does with one entry: an unknown key is an error,
      any other is validated against its configuration. */
  function EntryOutcome(key: string, value: JsValue, configs: map<string, EffectParameter>): ParamResult
  {
    if key !in configs then Invalid(UnknownParameter(key))
    else ValidateParam(key, value, Some(configs[key]))
  }

  /** The errors collected over `params`, in entry order. */
  function ErrorsOf(params: Entries<JsValue>, configs: map<string, EffectParameter>): seq<ParamError>
  {
    if params == [] then []
    else
      var last := params[|params| - 1];
      ErrorsOf(params[..|params| - 1], configs)
        + match EntryOutcome(last.0, last.1, configs)
          case Invalid(e) => [e]
          case Valid(_, _) => []
  }

  /** The accepted entries with their normalised values. */
  function ValidatedOf(params: Entries<JsValue>, configs: map<string, EffectParameter>): Entries<JsValue>
  {
    if params == [] then []
    else
      var last := params[|params| - 1];
      var prev := ValidatedOf(params[..|params| - 1], configs);
      match EntryOutcome(last.0, last.1, configs)
      case Invalid(_) => prev
      case Valid(n, _) => Put(prev, last.0, n)
  }

  /** `validateParams(params, configs)`: walks the entries of `params` in
      order; `valid` holds exactly when no error was collected. */
  method ValidateParams(params: Entries<JsValue>, configs: map<string, EffectParameter>)
    returns (valid: bool, validatedParams: Entries<JsValue>, errors: seq<ParamError>)
    ensures errors == ErrorsOf(params, configs)
    ensures validatedParams == ValidatedOf(params, configs)
    ensures valid <==> errors == []
    ensures params == [] ==> valid && validatedParams == []
  {
    validatedParams := [];
    errors := [];
    var i := 0;
    while i < |params|
      invariant 0 <= i <= |params|
      invariant errors == ErrorsOf(params[..i], configs)
      invariant validatedParams == ValidatedOf(params[..i], configs)
    {
      var (key, value) := params[i];
      assert params[..i + 1][..i] == params[..i];
      if key !in configs {
        errors := errors + [UnknownParameter(key)];
      } else {
        var result := ValidateParam(key, value, Some(configs[key]));
        match result
        case Invalid(e) =>
          errors := errors + [e];
        case Valid(n, _) =>
          validatedParams := Put(validatedParams, key, n);
      }
      i := i + 1;
    }
    assert params[..i] == params;
    valid := |errors| == 0;
  }

  /** The batch is valid exactly when every entry has a configuration and
      passes it; in particular an empty batch is valid. */
  lemma {:induction false} BatchValidIffEveryEntryValid(params: Entries<JsValue>, configs: map<string, EffectParameter>)
    ensures ErrorsOf(params, configs) == [] <==>
      forall i :: 0 <= i < |params| ==> EntryOutcome(params[i].0, params[i].1, configs).Valid?
  {
    if params != [] {
      var init := params[..|params| - 1];
      var last := params[|params| - 1];
      BatchValidIffEveryEntryValid(init, configs);
      assert forall i :: 0 <= i < |init| ==> init[i] == params[i];
      ErrorsOfLast(params, configs);
    }
  }

  /** The last entry adds an error exactly when it is rejected. */
  lemma ErrorsOfLast(params: Entries<JsValue>, configs: map<string, EffectParameter>)
    requires params != []
    ensures var last := params[|params| - 1];
      ErrorsOf(params, configs) == [] <==>
        ErrorsOf(params[..|params| - 1], configs) == [] && EntryOutcome(last.0, last.1, configs).Valid?
  {
  }

  /** Every key without a configuration is reported as an unknown parameter. */
  lemma {:induction false} UnknownKeyReported(params: Entries<JsValue>, configs: map<string, EffectParameter>, i: nat)
    requires i < |params| && params[i].0 !in configs
    ensures UnknownParameter(params[i].0) in ErrorsOf(params, configs)
  {
    var init := params[..|params| - 1];
    if i < |params| - 1 {
      assert init[i] == params[i];
      UnknownKeyReported(init, configs, i);
    }
  }

  /** The accepted object holds exactly the keys whose entries were accepted
      (clamped ones included). */
  lemma {:induction false} ValidatedKeys(params: Entries<JsValue>, configs: map<string, EffectParameter>, k: string)
    ensures HasKey(ValidatedOf(params, configs), k) <==>
      exists i :: 0 <= i < |params| && params[i].0 == k && EntryOutcome(params[i].0, params[i].1, configs).Valid?
  {
    if params != [] {
      var init := params[..|params| - 1];
      var last := params[|params| - 1];
      ValidatedKeys(init, configs, k);
      ValidatedOfLast(params, configs, k);
      if HasKey(ValidatedOf(init, configs), k) {
        var i :| 0 <= i < |init| && init[i].0 == k && EntryOutcome(init[i].0, init[i].1, configs).Valid?;
        assert params[i] == init[i];
      } else if HasKey(ValidatedOf(params, configs), k) {
        assert params[|params| - 1] == last;
      } else {
        forall i | 0 <= i < |params| && params[i].0 == k
          ensures !EntryOutcome(params[i].0, params[i].1, configs).Valid?
        {
          if i < |init| {
            assert params[i] == init[i];
          }
        }
      }
    }
  }

  /** The last entry adds its key exactly when it is accepted. */
  lemma ValidatedOfLast(params: Entries<JsValue>, configs: map<string, EffectParameter>, k: string)
    requires params != []
    ensures var last := params[|params| - 1];
      HasKey(ValidatedOf(params, configs), k) <==>
        HasKey(ValidatedOf(params[..|params| - 1], configs), k)
        || (last.0 == k && EntryOutcome(last.0, last.1, configs).Valid?)
  {
    var last := params[|params| - 1];
    var prev := ValidatedOf(params[..|params| - 1], configs);
    HasKeyViaKeys(prev, k);
    match EntryOutcome(last.0, last.1, configs)
    case Invalid(_) =>
    case Valid(n, _) =>
      HasKeyViaKeys(Put(prev, last.0, n), k);
  }

  /** With distinct keys (as in every object), each accepted key maps to its
      normalised value. */
  lemma {:induction false} ValidatedValue(params: Entries<JsValue>, configs: map<string, EffectParameter>, i: nat)
    requires DistinctKeys(params) && i < |params|
    requires EntryOutcome(params[i].0, params[i].1, configs).Valid?
    ensures Get(ValidatedOf(params, configs), params[i].0)
      == Some(EntryOutcome(params[i].0, params[i].1, configs).normalized)
  {
    var init := params[..|params| - 1];
    var last := params[|params| - 1];
    if i < |params| - 1 {
      assert init[i] == params[i];
      assert DistinctKeys(init);
      ValidatedValue(init, configs, i);
      assert last.0 != params[i].0;
    }
  }
}
