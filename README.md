# GquuuuuxKIRAKIRA viewer core, modelled in Dafny

The viewer is a React/Three.js application that shows visual effects. Under its
rendering sits a layer of plain state logic, and this project models that layer:

- the effect module loader (`EffectLoader`): it builds candidate module paths, tries
  them in order, checks the module's shape and caches the result;
- the parameter validator (`validateParam`, `validateParams`);
- the error helpers (`AppError`, `getUserFriendlyMessage`, `withRetry`);
- the effect selection store (`useEffectStore`);
- the UI store (`useUIStore`) and the UI context reducer (`uiReducer`);
- the pure utilities of `utils/index.ts`;
- the preset list of the preset manager.

One Dafny module per source file:

| Dafny file | module | models |
|---|---|---|
| options.dfy | `Options` | `Option` and `Result` |
| strings.dfy | `JsStrings` | the string built-ins the core uses: ASCII `toLowerCase`/`toUpperCase`, `trim`, `padStart`, decimal and hexadecimal digits |
| values.dfy | `JsValues` | JavaScript values: numbers with `NaN` and the infinities, truthiness, `Number()` coercion including decimal strings |
| records.dfy | `Records` | plain objects as ordered lists of `(key, value)` entries, with `Get`, `Put` and `Remove` |
| types.dfy | `Types` | `EffectParameter`, `Effect`, loading status |
| validation.dfy | `Validation` | `utils/validation.ts` |
| error_handler.dfy | `ErrorHandler` | `utils/errorHandler.ts` |
| loader.dfy | `Loader` | `effects/loader.ts` |
| effect_store.dfy | `EffectStore` | `store/effectStore.ts` |
| ui_store.dfy | `UiStore` | `store/uiStore.ts` |
| ui_context.dfy | `UiContext` | `contexts/UIContext.tsx` |
| utils_numbers.dfy | `UtilsNumbers` | `clamp`, `hexToRgb`, `rgbToHex`, `formatDuration` |
| utils_text.dfy | `UtilsText` | `capitalize`, `kebabToCamel`, `slugify` |
| utils_collections.dfy | `UtilsCollections` | `isEmpty`, `chunk`, `unique`, `groupBy`, `pick`, `omit`, `deepMerge` |
| preset_manager.dfy | `PresetManager` | the preset-list logic of `PresetManager.tsx` |

Modelling choices:

- **Numbers.** Numbers are mathematical reals plus `NaN` and the two infinities, so IEEE
  rounding is not modelled.
- **Mutable stores are classes.** The zustand stores and the loader's static cache become
  classes whose methods update fields. Each method states its whole new state.
- **Pure code is pure.** The reducer, the validator's per-kind rules, the classifier and the
  path builder are functions.
- **Loops stay loops.** Loops in the source become `while` loops proved against a
  specification function: `withRetry`, the loader's path loop, `validateParams`, `chunk`,
  `groupBy`, `pick`, `omit` and `deepMerge`.
- **Outside inputs are parameters.** Outside effects are passed in:
  - dynamic `import()` and `fetch` are oracles from a path to an outcome;
  - `withRetry`'s `fn` is a function from the attempt number to a resolved or rejected attempt;
  - instead of sleeping, `withRetry` returns the sequence of waits it would make and the
    `onRetry` calls it would issue;
  - the current time, `confirm`'s answer, the parsed import file, the fullscreen request's
    result and generated ids are method parameters.
- **Persistence is a field.** The preset list's `localStorage` copy is a field (`stored`) of
  the preset manager.

Two behaviours of the code worth knowing:

- `validateParam` does not clamp a stepped slider value back into `[min, max]`.
  `Validation.SliderStepCanExceedMax` exhibits a value of 100 with `max = 100` and
  `step = 40` normalised to 120.
- The store's `closeAllPanels` leaves the controls panel open, while the reducer's
  `CLOSE_ALL_PANELS` closes it. Both are modelled as written.

## Model

| member | source | states |
|---|---|---|
| EffectStore.ParamsAfterUpdate | frontend/src/store/effectStore.ts:187-224 | `updateParam` keeps the key set and every other key; with no selected effect, a key absent from `currentParams` or a rejected colour nothing changes; otherwise the key's `value`, and only that field, becomes the normalised value |
| EffectStore.Normalized | frontend/src/store/effectStore.ts:204-216 | only a colour that does not match `#RRGGBB` is rejected; a slider stores a number that is NaN exactly when `Number(value)` is, and otherwise lies within [min \|\| 0, max \|\| 100] when those are ordered; a toggle stores the truthiness; the other kinds store the value as given |
| EffectStore.UpdateKeepsDefaults | frontend/src/store/effectStore.ts:200-222 | updates preserve the invariant that the parameters agree with the selected effect's declarations except for their values |
| EffectStore.ClampSliderRange | frontend/src/store/effectStore.ts:206-207 | the store's slider clamp maps `NaN` to `NaN`, maps any other number into `[min\|\|0, max\|\|100]` and is idempotent |
| EffectStore.SliderUpdateInBounds | frontend/src/store/effectStore.ts:206-207 | after a slider update the stored value is `NaN` exactly when `Number(value)` is, and otherwise lies within the slider's bounds |
| EffectStore.ColorUpdate | frontend/src/store/effectStore.ts:208-213 | a colour matching `#RRGGBB` is stored as given (not upper-cased); any other value leaves the parameters unchanged |
| EffectStore.ToggleUpdate | frontend/src/store/effectStore.ts:214-216 | a toggle stores `Boolean(value)` |
| EffectStore.NormalizedIsFixed | frontend/src/store/effectStore.ts:204-216 | re-submitting the value the store normalised gives the same stored value |
| EffectStore.StoredValueIsStable | frontend/src/store/effectStore.ts:218-222 | writing back the value currently stored under a key changes nothing |
| EffectStore.UpdatesAreSequential | frontend/src/store/effectStore.ts:226-231 | `updateParams` with no entries changes nothing, and with one entry more it is the earlier updates followed by one `updateParam` |
| EffectStore.UpdatesKeepDeclarations | frontend/src/store/effectStore.ts:226-231 | any batch of updates keeps the key set and changes only `value` fields |
| EffectStore.MockCatalogueWellFormed | frontend/src/store/effectStore.ts:93-140 | the mock catalogue holds three effects with distinct ids, each with well-formed default parameters |
| EffectStore.GnParticlesWellFormed | frontend/src/store/effectStore.ts:94-109 | the first mock effect's sliders have min ≤ value ≤ max and a positive step, and its colours are `#RRGGBB` |
| EffectStore.NewtypeFlashWellFormed | frontend/src/store/effectStore.ts:110-124 | the same for the second mock effect |
| EffectStore.MinofskyParticlesWellFormed | frontend/src/store/effectStore.ts:125-139 | the same for the third mock effect |
| EffectStore.FindEffect | frontend/src/store/effectStore.ts:63-65 | `find` by id: none exactly when no effect has the id, otherwise the first effect with that id |
| EffectStore.FilterCategory | frontend/src/store/effectStore.ts:67-69 | `filter` by category keeps exactly the effects of that category |
| EffectStore.FilterCategorySplits | frontend/src/store/effectStore.ts:67-69 | the category filter distributes over concatenation, so order and repeats are kept |
| EffectStore.FilterCategorySingle | frontend/src/store/effectStore.ts:67-69 | a single effect is kept exactly when it has the category |
| EffectStore.Store.constructor | frontend/src/store/effectStore.ts:32-39 | the store starts in the initial state: no effects, nothing selected, status idle, no error, no fetch time |
| EffectStore.Store.SelectedParams | frontend/src/store/effectStore.ts:52-61 | `getSelectedParams` is `{}` without a selection and otherwise maps each current key to its `value` |
| EffectStore.Store.GetEffectById | frontend/src/store/effectStore.ts:63-65 | returns an effect of the catalogue with that id, or none exactly when no effect has it |
| EffectStore.Store.GetEffectsByCategory | frontend/src/store/effectStore.ts:67-69 | returns the category filter of the catalogue: exactly its effects of that category, in order |
| EffectStore.Store.FetchEffects | frontend/src/store/effectStore.ts:72-87 | the fetch starts exactly when the status is not loading and the catalogue is not both non-empty and younger than five minutes; a started fetch sets status loading and clears the error; nothing else changes; the store invariant is kept |
| EffectStore.Store.CompleteFetch | frontend/src/store/effectStore.ts:142-152 | a completed fetch stores the mock catalogue, status succeeded and the fetch time, selects the first effect with its defaults only when nothing was selected, and keeps the store invariant |
| EffectStore.Store.SelectEffect | frontend/src/store/effectStore.ts:165-182 | an unknown id or the already selected id changes nothing; otherwise the effect is selected and the parameters become its defaults |
| EffectStore.Store.UpdateParam | frontend/src/store/effectStore.ts:187-224 | the parameters become the single-update function's result and nothing else in the store changes |
| EffectStore.Store.UpdateParams | frontend/src/store/effectStore.ts:226-231 | the parameters become the result of the entries applied in order; nothing else changes |
| EffectStore.Store.ResetParams | frontend/src/store/effectStore.ts:233-248 | the parameters become the selected effect's defaults, or `{}` when nothing is selected |
| EffectStore.Store.ResetStore | frontend/src/store/effectStore.ts:250-254 | the store returns to its initial state |
| ErrorHandler.NewAppError | frontend/src/utils/errorHandler.ts:4-14 | an `AppError` keeps message, code and user message, is recoverable unless `false` is passed, and is named `AppError` |
| ErrorHandler.Classify | frontend/src/utils/errorHandler.ts:24-46 | "network" or "fetch" gives the network message, and only they do; each other category needs one of its own keywords; the generic message comes exactly when no keyword of any rule occurs |
| ErrorHandler.UserFriendlyMessage | frontend/src/utils/errorHandler.ts:19-46 | an `AppError`'s non-empty `userMessage` is shown exactly when there is one; otherwise the message is classified after lower-casing |
| ErrorHandler.FirstMatch | frontend/src/utils/errorHandler.ts:24-46 | the classifier answers the generic category or the category of one of its rules |
| ErrorHandler.ClassifyIsFirstMatch | frontend/src/utils/errorHandler.ts:24-46 | the chain of `includes` tests is the first matching rule of the ordered rule table (network, not found, permission, timeout, validation) |
| ErrorHandler.FirstMatchIsEarliest | frontend/src/utils/errorHandler.ts:24-46 | a rule's category is chosen if and only if that rule matches and no earlier rule does |
| ErrorHandler.FirstMatchDefault | frontend/src/utils/errorHandler.ts:24-46 | the generic message is chosen if and only if no rule matches |
| ErrorHandler.ToLowerIdempotent | frontend/src/utils/errorHandler.ts:24 | lower-casing twice is lower-casing once |
| ErrorHandler.ToLowerOfUpper | frontend/src/utils/errorHandler.ts:24 | lower-casing an upper-cased message equals lower-casing the message |
| ErrorHandler.ClassificationIgnoresCase | frontend/src/utils/errorHandler.ts:24-46 | a plain error's friendly message does not depend on the case of its message |
| ErrorHandler.AppErrorMessage | frontend/src/utils/errorHandler.ts:19-22 | an `AppError` with a non-empty user message yields that message; otherwise its message is classified |
| ErrorHandler.FirstSuccess | frontend/src/utils/errorHandler.ts:97-100 | the index of the first resolved attempt among the allowed calls: all earlier attempts were rejected |
| ErrorHandler.FirstSuccessUnique | frontend/src/utils/errorHandler.ts:97-100 | any index with that property is the first success |
| ErrorHandler.BackoffIsExponential | frontend/src/utils/errorHandler.ts:103-111 | the k waits after failed attempts are delay·2^i for i = 0..k-1 |
| ErrorHandler.NoticesNumbered | frontend/src/utils/errorHandler.ts:103-107 | the `onRetry` calls carry attempt numbers 1..k with the matching errors |
| ErrorHandler.DefaultSchedule | frontend/src/utils/errorHandler.ts:93-111 | with the defaults, four calls are allowed and an always-failing function waits 1000, 2000 and 4000 |
| ErrorHandler.WithRetry | frontend/src/utils/errorHandler.ts:85-116 | the number of calls, the result (the first success or the last error), the waits and the `onRetry` calls are those of the first success among maxRetries+1 attempts |
| ErrorHandler.SucceedsAfterFailures | frontend/src/utils/errorHandler.ts:97-107 | after k ≤ maxRetries failures and a success, the success is attempt k and exactly k retries are notified, numbered 1..k |
| ErrorHandler.AlwaysFails | frontend/src/utils/errorHandler.ts:97-115 | when every attempt fails, maxRetries+1 calls are made and maxRetries waits happen |
| Loader.ModulePaths | frontend/src/effects/loader.ts:104-137 | the candidate list is never empty and always ends with `/effects/<id>/index.js` |
| Loader.AbsoluteBaseComesFirst | frontend/src/effects/loader.ts:109-112 | with a base starting with `/`, the first two candidates are `<base>/<id>/index.js` and `<base>/<id>/index.ts` |
| Loader.ProductionPathsAreAbsolute | frontend/src/effects/loader.ts:104-137 | outside development every candidate is absolute or remote |
| Loader.DevelopmentPathsIncludeExamples | frontend/src/effects/loader.ts:115-120 | in development the `../effects/examples` and `@effects/examples` candidates appear in order |
| Loader.RelativeBaseOnlyInDevelopment | frontend/src/effects/loader.ts:121-126 | a relative base adds its candidates only in development; in production only the fallback remains |
| Loader.RemoteBaseAddsUrl | frontend/src/effects/loader.ts:128-131 | an `http` base adds `<base>/<id>/index.js` just before the fallback |
| Loader.AttemptPath | frontend/src/effects/loader.ts:43-52 | a remote candidate is always rejected, because remote evaluation always throws |
| Loader.FirstLoaded | frontend/src/effects/loader.ts:39-61 | the index of the first candidate that loads; every earlier candidate was rejected |
| Loader.FirstLoadedUnique | frontend/src/effects/loader.ts:39-61 | any index with that property is the first loaded candidate |
| Loader.EntryOf | frontend/src/effects/loader.ts:72-86 | a module without a default export whose `init` is a function is rejected as invalid, naming the id |
| Loader.EntryUsesAnimateForMissingUpdate | frontend/src/effects/loader.ts:80-84 | the cached entry keeps `init` and `dispose`, keeps a truthy `update`, and uses `animate` when `update` is falsy |
| Loader.LoadOutcome | frontend/src/effects/loader.ts:33-91 | a load error names the effect; it is the all-paths error exactly when every candidate failed, and then it lists every candidate and has a non-empty last message; a loaded module came from a non-remote candidate that imported |
| Loader.AllFailErrorListsPaths | frontend/src/effects/loader.ts:63-70 | when every candidate fails, all are tried and the error names the id and lists every attempted path |
| Loader.StopsAtFirstSuccess | frontend/src/effects/loader.ts:39-61 | candidates after the first success are never tried, and the result is built from that module |
| Loader.RemoteCandidateNeverLoads | frontend/src/effects/loader.ts:143-148 | the candidate that loads is never a remote one |
| Loader.TryPaths | frontend/src/effects/loader.ts:33-61 | the loop tries exactly the candidates up to the first success and returns that module, or none with the last error |
| Loader.EffectLoader.constructor | frontend/src/effects/loader.ts:14 | the cache starts empty |
| Loader.EffectLoader.LoadEffect | frontend/src/effects/loader.ts:22-98 | a cache hit returns the entry without trying any path; a miss tries the candidates and caches the entry only on success, leaving the cache unchanged on failure |
| Loader.EffectLoader.ClearCache | frontend/src/effects/loader.ts:176-178 | the cache becomes empty |
| Loader.EffectLoader.RemoveFromCache | frontend/src/effects/loader.ts:183-185 | only that id is removed; every other entry is kept |
| Loader.ListEffects | frontend/src/effects/loader.ts:155-171 | `listEffects` never fails: the result is always truthy, it is `[]` or the `effects` field of a manifest fetched with an ok response, and a rejected fetch or a non-ok response gives `[]` |
| Loader.ListEffectsOutcomes | frontend/src/effects/loader.ts:155-171 | `listEffects` gives `[]` on a network error, a non-ok response or an empty list, and otherwise the manifest's `effects` |
| Loader.ListEffectsMissingField | frontend/src/effects/loader.ts:165-166 | a manifest without `effects` gives `[]` |
| PresetManager.ParamValues | frontend/src/components/common/PresetManager.tsx:49-51 | the saved params map every current key to its `value` |
| PresetManager.AfterSave | frontend/src/components/common/PresetManager.tsx:38-63 | with an empty trimmed name or no selection the list is unchanged; otherwise exactly one preset is appended with the trimmed name, the effect id and the parameter values |
| PresetManager.WithoutId | frontend/src/components/common/PresetManager.tsx:71 | the filtered list holds only presets of the list whose id differs |
| PresetManager.WithoutIdSplits | frontend/src/components/common/PresetManager.tsx:71 | filtering distributes over concatenation, so the order of the kept presets is preserved |
| PresetManager.WithoutIdSingle | frontend/src/components/common/PresetManager.tsx:71 | a single preset is kept exactly when its id differs |
| PresetManager.WithoutIdIdempotent | frontend/src/components/common/PresetManager.tsx:68-75 | deleting the same id twice is deleting it once |
| PresetManager.ForEffect | frontend/src/components/common/PresetManager.tsx:121-123 | the current effect's presets are no more than the presets |
| PresetManager.ForEffectExactly | frontend/src/components/common/PresetManager.tsx:121-123 | they are exactly the presets whose `effectId` is the selected effect's id, and none when nothing is selected |
| PresetManager.ForEffectSplits | frontend/src/components/common/PresetManager.tsx:121-123 | the filter distributes over concatenation, so the kept presets keep their order and repeats |
| PresetManager.ForEffectSingle | frontend/src/components/common/PresetManager.tsx:121-123 | a single preset is kept exactly when an effect is selected and its `effectId` is that id |
| PresetManager.SavedPresetIsCurrent | frontend/src/components/common/PresetManager.tsx:53-63 | a saved preset is well formed, so it belongs to its effect's presets |
| PresetManager.AfterImport | frontend/src/components/common/PresetManager.tsx:100-117 | an imported array is appended after the existing presets in order; anything else leaves the list unchanged |
| PresetManager.Manager.constructor | frontend/src/components/common/PresetManager.tsx:27-36 | the list starts as the stored list and the name field is empty |
| PresetManager.Manager.SetPresetName | frontend/src/components/common/PresetManager.tsx:21 | only the name field changes |
| PresetManager.Manager.SavePreset | frontend/src/components/common/PresetManager.tsx:38-66 | the list becomes the save function's result; a save persists the list and clears the name; a refused save changes nothing |
| PresetManager.Manager.DeletePreset | frontend/src/components/common/PresetManager.tsx:68-75 | a confirmed delete removes every preset with that id and persists the list; a declined one changes nothing |
| PresetManager.Manager.ImportPresets | frontend/src/components/common/PresetManager.tsx:100-119 | the list becomes the import function's result, and is persisted exactly when items were imported |
| PresetManager.Manager.CurrentEffectPresets | frontend/src/components/common/PresetManager.tsx:121-123 | no presets when nothing is selected; otherwise exactly the stored presets whose `effectId` is the selected effect's id |
| Validation.ValidateParam | frontend/src/utils/validation.ts:6-118 | a missing configuration and an unknown kind are rejected; only a slider attaches an adjustment notice; a colour is accepted exactly when it is `#` and six hex digits, a select exactly when it is one of the options, and a toggle always, as its truthiness |
| Validation.NormalizeSlider | frontend/src/utils/validation.ts:19-60 | a slider value is rejected exactly when `Number(value)` is NaN, with that key; an accepted value is a finite number, equal to the bound named by its notice, and within [min, max] when there is no step and the bounds are ordered |
| Validation.RejectsMissingAndUnknown | frontend/src/utils/validation.ts:11-16 | a missing config is invalid and names the key; an unknown parameter type is invalid and names the type |
| Validation.SliderBranch | frontend/src/utils/validation.ts:19-20 | a slider value is validated through `Number(value)` |
| Validation.SliderAcceptsExactlyNumbers | frontend/src/utils/validation.ts:20-27 | a slider value is invalid exactly when its coercion is `NaN`, with the not-a-number error |
| Validation.SliderClampsOutOfRange | frontend/src/utils/validation.ts:29-46 | below min it is valid with value min and a warning; above max it is valid with value max and a warning |
| Validation.SliderUnsteppedInRange | frontend/src/utils/validation.ts:57-60 | without a step an accepted slider value lies in `[min, max]`, and an in-range value is kept as is |
| Validation.SliderReadsNumericString | frontend/src/utils/validation.ts:19-60 | a numeric string such as `"75"` is accepted as the number 75 |
| Validation.RoundIsNearest | frontend/src/utils/validation.ts:50 | `Math.round` gives the nearest integer, with halves rounded up |
| Validation.SliderSteppedIsNearestMultiple | frontend/src/utils/validation.ts:48-55 | with a step an in-range value becomes the nearest multiple of the step |
| Validation.SliderStepCanExceedMax | frontend/src/utils/validation.ts:48-55 | the stepped value is not clamped again: 100 with max 100 and step 40 becomes 120 |
| Validation.ColorAcceptsExactlyHex | frontend/src/utils/validation.ts:63-83 | a colour is valid exactly when it is a string of `#` and six hex digits, and it is normalised to upper case |
| Validation.ToggleAcceptsAll | frontend/src/utils/validation.ts:85-90 | a toggle accepts anything and stores `Boolean(value)` |
| Validation.SelectAcceptsOptions | frontend/src/utils/validation.ts:92-111 | a select is valid exactly when the value is one of its options and is kept as is; without options it is invalid |
| Validation.UnsteppedNumberRevalidates | frontend/src/utils/validation.ts:29-60 | validating an accepted unstepped slider number again accepts it unchanged and without a warning |
| Validation.UnsteppedSliderRevalidates | frontend/src/utils/validation.ts:19-60 | the same for any slider input |
| Validation.ColorRevalidates | frontend/src/utils/validation.ts:63-83 | a normalised colour validates to itself |
| Validation.NormalizedValueRevalidates | frontend/src/utils/validation.ts:18-118 | for colour, toggle and select, a normalised value validates to itself |
| Validation.ValidateParams | frontend/src/utils/validation.ts:124-162 | the loop collects the errors and validated entries of the batch; the batch is valid exactly when there are no errors, and an empty batch is valid with nothing validated |
| Validation.BatchValidIffEveryEntryValid | frontend/src/utils/validation.ts:135-161 | the batch has no errors if and only if every entry has a config and validates |
| Validation.UnknownKeyReported | frontend/src/utils/validation.ts:138-141 | a key without a config is reported as an unknown parameter |
| Validation.ValidatedKeys | frontend/src/utils/validation.ts:143-148 | a key is in the validated result exactly when one of its entries validates |
| Validation.ValidatedValue | frontend/src/utils/validation.ts:143-148 | a valid entry's key holds its normalised value |
| UiStore.ToastIndex | frontend/src/store/uiStore.ts:227 | `findIndex`: the first toast with that id, or past the end when there is none |
| UiStore.SpliceRemovesFirst | frontend/src/store/uiStore.ts:225-232 | hiding removes exactly the first toast with the id and keeps the others in order; an unknown id changes nothing |
| UiStore.CountTrueBounds | frontend/src/store/uiStore.ts:83-90 | the count is 0 exactly when no flag is set and full exactly when all are |
| UiStore.ToggledInfo | frontend/src/store/uiStore.ts:93-101 | info flips; the library stays open only if it was and not (mobile and info now open); no other field changes; the mobile exclusion is kept |
| UiStore.ToggledLibrary | frontend/src/store/uiStore.ts:106-114 | the library flips; info stays open only if it was and not (mobile and the library now open); no other field changes; the mobile exclusion is kept |
| UiStore.ToggledControls | frontend/src/store/uiStore.ts:119-122 | only the controls flag flips |
| UiStore.PanelsClosed | frontend/src/store/uiStore.ts:127-131 | info and library are closed, every other field is kept, and the mobile exclusion holds |
| UiStore.WithToast | frontend/src/store/uiStore.ts:207-215 | the list grows by one at the end, the earlier toasts are kept in order, and no other field changes |
| UiStore.FullscreenToggled | frontend/src/store/uiStore.ts:136-151 | a granted request flips only fullscreen; a refused one only appends the warning toast |
| UiStore.DetectedMobile | frontend/src/store/uiStore.ts:176-190 | the mobile flag follows the screen; on the switch to mobile the panels close; otherwise only the flag changes; the mobile exclusion is kept |
| UiStore.ToggleTwiceOnDesktop | frontend/src/store/uiStore.ts:93-125 | off mobile, each panel toggle applied twice gives back the state |
| UiStore.ToggleTwiceOnMobileLosesLibrary | frontend/src/store/uiStore.ts:93-101 | on mobile, opening then closing info leaves an open library closed |
| UiStore.PanelsClosedIdempotent | frontend/src/store/uiStore.ts:127-131 | closing the panels twice is closing them once |
| UiStore.RunPanelsKeepsExclusive | frontend/src/store/uiStore.ts:93-192 | any run of panel toggles, close-alls and mobile detections keeps info and library from both being open on mobile, and leaves toasts, modal, theme, fullscreen and display flags untouched |
| UiStore.Ui.constructor | frontend/src/store/uiStore.ts:41-63 | the whole initial state: library and controls open, info closed, not fullscreen, not mobile, dark theme, no reduced motion, glow and particles on, no toasts, closed modal |
| UiStore.Ui.ThemeClass | frontend/src/store/uiStore.ts:81 | the theme class is `theme-` followed by the theme |
| UiStore.Ui.ActivePanelCount | frontend/src/store/uiStore.ts:83-90 | the three increments give the number of open panels, at most 3, zero exactly when all are closed, and at most 1 in canvas main view |
| UiStore.Ui.ToggleInfoPanel | frontend/src/store/uiStore.ts:93-104 | the whole new state is `ToggledInfo` of the old one: info flips; on mobile, opening info closes the library; every other field is kept |
| UiStore.Ui.ToggleLibrary | frontend/src/store/uiStore.ts:106-117 | the whole new state is `ToggledLibrary` of the old one: the library flips; on mobile, opening it closes info; every other field is kept |
| UiStore.Ui.ToggleControls | frontend/src/store/uiStore.ts:119-125 | the whole new state is `ToggledControls` of the old one: only the controls flag flips |
| UiStore.Ui.CloseAllPanels | frontend/src/store/uiStore.ts:127-134 | the whole new state is `PanelsClosed` of the old one: info and library close, every other field, the controls included, is kept |
| UiStore.Ui.ShowToast | frontend/src/store/uiStore.ts:204-223 | exactly one visible toast is appended, with the default kind and duration when none are given; every other field is kept |
| UiStore.Ui.HideToast | frontend/src/store/uiStore.ts:225-232 | the first toast with the id is removed; every other field is kept |
| UiStore.Ui.OpenModal | frontend/src/store/uiStore.ts:234-244 | the modal becomes visible with the component and the props, or `{}`; every other field is kept |
| UiStore.Ui.CloseModal | frontend/src/store/uiStore.ts:246-256 | the modal is closed and cleared; every other field is kept |
| UiStore.Ui.ToggleFullscreen | frontend/src/store/uiStore.ts:136-151 | the whole new state is `FullscreenToggled`: a granted request flips fullscreen; a refused one keeps it and appends the warning toast; nothing else changes |
| UiStore.Ui.SetTheme | frontend/src/store/uiStore.ts:153-174 | dark, light and high-contrast replace the theme and nothing else; anything else leaves the whole state unchanged |
| UiStore.Ui.DetectMobile | frontend/src/store/uiStore.ts:176-192 | the whole new state is `DetectedMobile`: the mobile flag follows the screen, and panels close only on the non-mobile to mobile transition |
| UiStore.Ui.HandleResize | frontend/src/store/uiStore.ts:294-303 | a resize gives the same whole new state as `detectMobile`; its second close-all changes nothing |
| UiStore.Ui.DetectReducedMotion | frontend/src/store/uiStore.ts:194-202 | the reduced-motion flag follows the media query and every other field is kept |
| UiStore.Ui.SetGlowEffects | frontend/src/store/uiStore.ts:351-359 | only the glow flag changes; every other field is kept |
| UiStore.Ui.SetBackgroundParticles | frontend/src/store/uiStore.ts:361-367 | only the particles flag changes; every other field is kept |
| UiStore.Ui.HandleKeyboardShortcut | frontend/src/store/uiStore.ts:258-292 | Escape closes only the modal when it is open and otherwise closes the panels if an overlay is open; Ctrl/Cmd with i, l, Enter or k is prevented and gives exactly the state of `toggleInfoPanel`, `toggleLibrary`, `toggleFullscreen` or `toggleControls`; other keys change nothing |
| UiContext.Reduce | frontend/src/contexts/UIContext.tsx:24-53 | a toggle flips its own flag and nothing else; only `SET_MOBILE` changes `isMobile`, and entering mobile closes the library; a close-all closes the three panels; an unknown action changes nothing |
| UiContext.ToggleFlipsOwnFlag | frontend/src/contexts/UIContext.tsx:26-33 | each toggle action flips exactly its own flag and nothing else |
| UiContext.ToggleTwiceIsIdentity | frontend/src/contexts/UIContext.tsx:26-33 | the same toggle twice gives back the state |
| UiContext.SetMobileRule | frontend/src/contexts/UIContext.tsx:35-40 | `SET_MOBILE(true)` sets mobile and closes the library; `SET_MOBILE(false)` keeps it; the other panels are kept |
| UiContext.CloseAllClosesEverything | frontend/src/contexts/UIContext.tsx:42-48 | all three panels close, controls included, the mobile flag is kept, and closing again changes nothing |
| UiContext.UnrecognisedIsIdentity | frontend/src/contexts/UIContext.tsx:50-51 | an unrecognised action returns the state unchanged |
| UiContext.InitialStateShape | frontend/src/contexts/UIContext.tsx:17-22 | initially the library and controls are open and info is closed, not on mobile |
| UiContext.NoMobileExclusion | frontend/src/contexts/UIContext.tsx:24-53 | unlike the store, the reducer can have info and library open together on mobile |
| UiContext.TogglesKeepMobile | frontend/src/contexts/UIContext.tsx:24-40 | any run of toggle actions keeps the mobile flag |
| UiContext.CloseAllForgetsHistory | frontend/src/contexts/UIContext.tsx:42-48 | after close-all, the state depends only on the mobile flag |
| UtilsNumbers.Clamp | frontend/src/utils/index.ts:73-75 | the result is NaN exactly when an argument is; it is never above `max`, never below `min` when `min <= max`, and a value already within the bounds is returned unchanged |
| UtilsNumbers.ClampInRange | frontend/src/utils/index.ts:73-75 | with min ≤ max the result lies in `[min, max]`, is the value when in range, and is the nearer bound otherwise |
| UtilsNumbers.ClampInvertedBounds | frontend/src/utils/index.ts:73-75 | with max < min the result is always max |
| UtilsNumbers.ClampPropagatesNaN | frontend/src/utils/index.ts:73-75 | the result is `NaN` exactly when an argument is |
| UtilsNumbers.ClampIdempotent | frontend/src/utils/index.ts:73-75 | clamping twice is clamping once |
| UtilsNumbers.PairValue | frontend/src/utils/index.ts:107-109 | two hex digits give a byte value below 256 |
| UtilsNumbers.HexToRgb | frontend/src/utils/index.ts:104-111 | accepts exactly six hex digits with an optional `#`, in either case, and yields components below 256 |
| UtilsNumbers.ToInt32 | frontend/src/utils/index.ts:114 | the 32-bit conversion of `<<` lands in the signed 32-bit range and agrees with its input modulo 2^32 |
| UtilsNumbers.IntToHex | frontend/src/utils/index.ts:114 | `toString(16)` gives at least one digit |
| UtilsNumbers.PackedValue | frontend/src/utils/index.ts:114 | for byte components the shifts add up to 2^24 + r·2^16 + g·2^8 + b without overflow |
| UtilsNumbers.RgbToHex | frontend/src/utils/index.ts:113-115 | the result starts with `#`; for components in 0..255 the 32-bit shifts do not wrap and the result is `#` and two hex digits per component |
| UtilsNumbers.RgbToHexDigits | frontend/src/utils/index.ts:113-115 | `rgbToHex` of byte components is `#` and six lower-case hex digits |
| UtilsNumbers.RgbRoundTrip | frontend/src/utils/index.ts:104-115 | `hexToRgb(rgbToHex(r, g, b))` gives back r, g and b |
| UtilsNumbers.HexRoundTrip | frontend/src/utils/index.ts:104-115 | `rgbToHex(hexToRgb(h))` gives `#` and the lower-cased digits of h |
| UtilsNumbers.PairRoundTrip | frontend/src/utils/index.ts:107-109 | a byte written back in hex gives the lower-cased pair of digits |
| UtilsNumbers.TruncRem | frontend/src/utils/index.ts:413 | the truncating `%` is in `[0, b)` for a non-negative dividend and in `(-b, 0]` for a negative one |
| UtilsNumbers.PaddedField | frontend/src/utils/index.ts:413-415 | a number below 60 padded to two digits is a two-digit field of that value |
| UtilsNumbers.SplitSeconds | frontend/src/utils/index.ts:408-410 | hours, minutes mod 60 and seconds mod 60 recompose the total and the last two are below 60 |
| UtilsNumbers.FormatDuration | frontend/src/utils/index.ts:407-417 | for a non-negative duration of `t` whole seconds the text is `h:mm:ss` with `h = t div 3600` when `t >= 3600`, and `m:ss` with `m = t div 60` otherwise |
| UtilsNumbers.FormatDurationFields | frontend/src/utils/index.ts:407-417 | the text is `h:mm:ss` when there are hours and `m:ss` otherwise, with two-digit fields below 60 |
| UtilsText.Capitalize | frontend/src/utils/index.ts:136-138 | the length is kept |
| UtilsText.CapitalizeShape | frontend/src/utils/index.ts:136-138 | the result starts with a capital and has no other upper-case letter, matches the input up to case, and keeps an already capitalised input |
| UtilsText.CapitalizeIdempotent | frontend/src/utils/index.ts:136-138 | capitalising twice is capitalising once |
| UtilsText.KebabToCamel | frontend/src/utils/index.ts:144-146 | the result is no longer than the input and starts with its first character, or with the capital after a leading `-` |
| UtilsText.KebabToCamelIsCamel | frontend/src/utils/index.ts:144-146 | no `-` followed by a lower-case letter remains |
| UtilsText.KebabToCamelKeepsCamel | frontend/src/utils/index.ts:144-146 | such a string is left unchanged |
| UtilsText.KebabToCamelIdempotent | frontend/src/utils/index.ts:144-146 | converting twice is converting once |
| UtilsText.SpacesToHyphen | frontend/src/utils/index.ts:157 | no white space remains, every other character comes from the input, and text without white space is unchanged |
| UtilsText.KeepSlugChars | frontend/src/utils/index.ts:158 | only word characters and `-` remain, all from the input, and text of only those is unchanged |
| UtilsText.CollapseHyphens | frontend/src/utils/index.ts:159 | no two `-` are adjacent, the characters come from the input, and the first character is kept |
| UtilsText.CollapseKeepsSingles | frontend/src/utils/index.ts:159 | text without a `--` is unchanged |
| UtilsText.DropHyphens | frontend/src/utils/index.ts:160 | the result is a suffix of the input that does not start with `-`, and the input itself when it does not start with `-` |
| UtilsText.DropTrailingHyphens | frontend/src/utils/index.ts:161 | the result is a prefix of the input that does not end with `-`, and the input itself when it does not end with `-` |
| UtilsText.CleanedChars | frontend/src/utils/index.ts:153-158 | after lower-casing, trimming, hyphenating and filtering, only lower-case slug characters remain |
| UtilsText.StripEnds | frontend/src/utils/index.ts:160-161 | stripping the ends of collapsed slug characters gives a slug |
| UtilsText.Slugify | frontend/src/utils/index.ts:152-162 | `slugify` always returns a slug: lower-case word characters with single `-` between them and none at the ends |
| UtilsText.SlugStagesKeep | frontend/src/utils/index.ts:152-162 | every stage of `slugify` leaves a slug unchanged |
| UtilsText.SlugifyIdempotent | frontend/src/utils/index.ts:152-162 | slugifying twice is slugifying once |
| UtilsCollections.IsEmpty | frontend/src/utils/index.ts:33-38 | `isEmpty` holds exactly for null, undefined, `""`, `[]` and `{}`, and never for a number or a boolean |
| UtilsCollections.Chunk | frontend/src/utils/index.ts:174-180 | the loop yields the slices of the specification function, and `[]` for an empty input |
| UtilsCollections.ChunksFlatten | frontend/src/utils/index.ts:174-180 | concatenating the chunks gives back the input |
| UtilsCollections.ChunksSizes | frontend/src/utils/index.ts:174-180 | every chunk but the last has `size` elements; the last has 1 to `size`; there are none exactly for an empty input |
| UtilsCollections.Unique | frontend/src/utils/index.ts:182-184 | no duplicates, the same elements, and no longer than the input |
| UtilsCollections.UniqueKeepsFirstOrder | frontend/src/utils/index.ts:182-184 | the elements come in the order of their first occurrence |
| UtilsCollections.CreateThenPush | frontend/src/utils/index.ts:192-196 | creating a missing group and pushing the item is one step of adding the item to its group |
| UtilsCollections.GroupBy | frontend/src/utils/index.ts:186-198 | the reduce builds the groups of the specification function |
| UtilsCollections.GroupsAreFilters | frontend/src/utils/index.ts:186-198 | each key's group is exactly the items with that key in input order, and a key no item has has no group |
| UtilsCollections.GroupKeysInFirstOrder | frontend/src/utils/index.ts:186-198 | the groups appear in the order in which their keys first occur |
| UtilsCollections.Pick | frontend/src/utils/index.ts:201-212 | the loop builds the picked object of the specification function |
| UtilsCollections.PickedGet | frontend/src/utils/index.ts:201-212 | a listed key holds its value in the object (absent if the object lacks it); any other key is absent |
| UtilsCollections.PickedKeyOrder | frontend/src/utils/index.ts:201-212 | the picked object's keys are the listed keys the object has, in the order they are first listed |
| UtilsCollections.Omit | frontend/src/utils/index.ts:214-223 | the loop builds the object with the listed keys deleted in turn |
| UtilsCollections.OmittedIsFilter | frontend/src/utils/index.ts:214-223 | the result is the object's entries whose key is not listed, in their order |
| UtilsCollections.OmittedGet | frontend/src/utils/index.ts:214-223 | an omitted key is absent and every other key keeps its value |
| UtilsCollections.DeepMerge | frontend/src/utils/index.ts:239-254 | the recursive loop builds the merge of the specification function |
| UtilsCollections.DeepMergeGet | frontend/src/utils/index.ts:239-254 | each key holds the target's value when the source lacks it, the recursive merge when both values are objects, and the source's value otherwise |
| UtilsCollections.MergeNothing | frontend/src/utils/index.ts:239-254 | merging an empty source gives the target unchanged |
| Records.Put | frontend/src/utils/index.ts:208 | assigning a key overwrites it in place or appends it, and every other key keeps its value |
| Records.Remove | frontend/src/utils/index.ts:220 | `delete` makes the key absent and keeps every other key's value |
| Records.RemoveSplits | frontend/src/utils/index.ts:220 | deleting distributes over concatenation, so the other entries keep their order |
| Records.RemoveSingle | frontend/src/utils/index.ts:220 | a single entry is kept exactly when its key is not the deleted one |
| JsStrings.ToLower | frontend/src/utils/errorHandler.ts:24 | lower-casing keeps the length and leaves no upper-case letter |
| JsStrings.ToUpper | frontend/src/utils/validation.ts:81 | upper-casing keeps the length and leaves no lower-case letter |
| JsStrings.TrimIsCore | frontend/src/components/common/PresetManager.tsx:39 | `trim` removes exactly the leading and trailing white space |
| JsStrings.PadStart2 | frontend/src/utils/index.ts:413 | padding gives at least two characters and pads a one-digit number with `0` |
| JsStrings.NatToHex | frontend/src/utils/index.ts:114 | `toString(16)` of a natural number gives lower-case hex digits |
| JsStrings.HexValue | frontend/src/utils/index.ts:107-109 | a hex digit has a value below 16, in either case |
| JsValues.ToNumber | frontend/src/utils/validation.ts:20 | `Number(v)` keeps numbers; for numbers, booleans and null the result is non-zero and not NaN exactly when `v` is truthy; null, `""` and `[]` give 0; undefined, objects and longer arrays give NaN; a one-element array converts as its element |
| JsStrings.NatToStringRoundTrip | frontend/src/utils/validation.ts:20 | reading back the decimal text of a natural number gives the number |
| JsValues.Min | frontend/src/store/effectStore.ts:207 | `Math.min` is `NaN` if an argument is, and otherwise the smaller argument |
| JsValues.Max | frontend/src/store/effectStore.ts:207 | `Math.max` is `NaN` if an argument is, and otherwise the larger argument |
| JsValues.NatStringToNumber | frontend/src/utils/validation.ts:20 | `Number()` of a string of decimal digits is their value |

## Left out

- Dynamic `import()`, `fetch` and the evaluation of remote code are foreign; they are oracles passed to the loader.
- `listEffects` is a function of a response oracle, because the `try`/`catch` around `fetch` has no state to keep.
- Timers are left out: `setTimeout` in `withRetry` is replaced by the list of waits, and the toast auto-hide timer is not modelled.
- `logError`, `initializeUI` and `cleanupUI` are left out: they read and register browser objects (`navigator`, `window`, listeners).
- `localStorage` is left out for the theme and for reading the presets at start-up. The preset list's stored copy is a field, and a stored value that is not an array is not modelled.
- The preset manager's `applyPreset` and `exportPresets` are left out: they use timers, a `Blob` and a download link.
- The toast shown by each preset action is left out; the model returns an outcome value instead.
- An imported item that is `null` is left out: the source would throw when it reads `id` on it.
- `fetchEffects` is split in two methods at its `await`, because the mock delay and the interleaving of other actions during it are concurrency. Its `catch` branch is left out because the mock data cannot throw.
- The `console` logging is left out.
- The `isLoading`, `hasError` and `isReady` getters are predicates without contracts of their own.
- `HandleKeyboardShortcut`: for Ctrl/Cmd+Enter the source does not await `toggleFullscreen`; the model completes the request before the handler returns.
- Numbers are reals: IEEE rounding, `-0` and integers beyond 2^53 are not modelled.
- `Number()` of strings in `0x`, `0o` or `0b` form gives `NaN` in the model, while JavaScript reads them as integers.
- The `String(...)` wrapping of a thrown non-`Error` value is left out; a failure is a message.
- Case mapping covers ASCII only; JavaScript's Unicode case mapping and its other white-space characters beyond those listed in strings.dfy are left out.
- `UtilsCollections.Chunk`: a size of 0 or less on a non-empty array loops forever in the source and is excluded by the precondition; non-integer sizes are not modelled.
- `UtilsNumbers.RgbRoundTrip`: components outside 0..255 or not integers are not covered.
- `ErrorHandler.WithRetry`: a non-integer `maxRetries` is not modelled.
- `UtilsNumbers.FormatDurationFields`: covers non-negative durations only; `NaN`, the infinities and negative durations (only `UtilsNumbers.TruncRem` states their remainders) are not covered.
- `UtilsCollections.Unique`: JavaScript's `SameValueZero` is modelled as structural equality, which differs for `NaN`, for `-0` and for object identity.
- `UtilsCollections.GroupKeysInFirstOrder`: JavaScript lists integer-like keys such as `"1"` first, in ascending order, before other keys; the model keeps insertion order for every key, and the same holds for `pick`, `omit` and `deepMerge`.
- Keys inherited from `Object.prototype` (`toString`, `__proto__`, …) are treated as absent in `groupBy`, `pick`, `in`, `deepMerge` and `validateParams`. In `validateParams` such a key is reported as an unknown parameter; in JavaScript `configs["toString"]` is a function, so the key would instead fail as a parameter of unknown type (validation.ts:113-117).
- `UtilsCollections.DeepMergeGet`: stated for sources with distinct keys, which every JavaScript object has.
