/** The application's shared data shapes: a tunable parameter of an effect,
    a catalogue entry, and the loading status of the catalogue. */
module Types {
  import opened Options
  import opened JsValues

  /** `EffectParameter.type`. At run time a configuration may carry any
      other type name, which the validator rejects. */
  datatype ParamType = Slider | Color | Toggle | Select | OtherType(name: string)

  /** One tunable: its kind, its current value and the kind's constraints.
      A missing `min`, `max`, `step` or `options` is `None`. */
  datatype EffectParameter = EffectParameter(
    paramType: ParamType,
    value: JsValue,
    min: Option<real>,
    max: Option<real>,
    step: Option<real>,
    options: Option<seq<string>>)

  /** A catalogue entry; `defaultParams` maps each parameter key to its
      declaration and default value. */
  datatype Effect = Effect(
    id: string,
    name: string,
    description: string,
    thumbnail: Option<string>,
    relatedGundam: seq<string>,
    category: string,
    defaultParams: map<string, EffectParameter>)

  datatype LoadingStatus = Idle | Loading | Succeeded | Failed
}
