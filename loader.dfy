/** The effect module loader (frontend/src/effects/loader.ts): candidate
    module paths for an effect id, trying them in order, checking the shape
    of the loaded module, a process-wide cache keyed by effect id, and the
    manifest listing. Dynamic `import()` and `fetch` are oracles: functions
    from a path or URL to what the runtime would produce. */
module Loader {
  import opened Options
  import opened JsStrings
  import opened JsValues
  import opened Records

  /** A member of a loaded module: a function (named by an identifier of
      the model) or any other value, `Data(Undefined)` being a missing one. */
  datatype Slot = Func(id: string) | Data(value: JsValue)

  /** Whether the member is truthy; functions always are. */
  predicate SlotTruthy(s: Slot)
  {
    s.Func? || Truthy(s.value)
  }

  /** The members of a module's default export that the loader reads. */
  datatype DefaultExport = DefaultExport(init: Slot, update: Slot, animate: Slot, dispose: Slot, metadata: Slot)

  /** A module namespace object. `default` is `None` when the default export
      is missing or falsy, or is a value without properties (both are
      rejected the same way). */
  datatype Namespace = Namespace(default: Option<DefaultExport>, metadata: Slot)

  /** What `import(path)` gives. */
  datatype ImportOutcome = Imported(ns: Namespace) | ImportRejected(message: string)

  /** What `fetch(url)` gives: a rejection, or a response whose `ok` flag is
      `ok` and whose `json()` gives `body` (`None` when it rejects). */
  datatype HttpResponse = NetworkError(message: string) | Response(ok: bool, body: Option<JsValue>)

  /** `EffectModule` */
  datatype EffectModule = EffectModule(init: Slot, update: Slot, dispose: Slot)

  /** A cache entry `{ module, metadata }`. */
  datatype CacheEntry = CacheEntry(effectModule: EffectModule, metadata: Slot)

  /** Why a load failed. */
  datatype LoadError =
    | AllPathsFailed(effectId: string, attempted: seq<string>, lastError: string)
    | InvalidModule(effectId: string)

  /** The message `evaluateModule` always throws. */
  const RemoteUnsupported: string := "Remote module loading is not supported yet. Please use local modules."

  /** The default `basePath`. */
  function BaseOr(basePath: Option<string>): string
  {
    if basePath.Some? then basePath.value else "/effects"
  }

  predicate IsRemote(path: string)
  {
    StartsWith(path, "http://") || StartsWith(path, "https://")
  }

  function JsPath(dir: string, id: string): string { dir + "/" + id + "/index.js" }

  function TsPath(dir: string, id: string): string { dir + "/" + id + "/index.ts" }

  /** `getModulePaths(effectId, basePath)` with `isDev` standing for
      `import.meta.env.DEV`. */
  function ModulePaths(id: string, base: string, isDev: bool): (paths: seq<string>)
    ensures |paths| >= 1 && paths[|paths| - 1] == JsPath("/effects", id)
  {
    (if StartsWith(base, "/") then [JsPath(base, id), TsPath(base, id)] else [])
    + (if isDev then
         [TsPath("../effects/examples", id), JsPath("../effects/examples", id), TsPath("@effects/examples", id)]
         + (if !StartsWith(base, "/") && !StartsWith(base, "http") then [TsPath(base, id), JsPath(base, id)] else [])
       else [])
    + (if IsRemote(base) then [JsPath(base, id)] else [])
    + [JsPath("/effects", id)]
  }

  /** An absolute base path contributes its `.js` then its `.ts` candidate first. */
  lemma AbsoluteBaseComesFirst(id: string, base: string, isDev: bool)
    requires StartsWith(base, "/")
    ensures |ModulePaths(id, base, isDev)| >= 3
    ensures ModulePaths(id, base, isDev)[0] == base + "/" + id + "/index.js"
    ensures ModulePaths(id, base, isDev)[1] == base + "/" + id + "/index.ts"
  {
  }

  lemma StartsWithAppend(a: string, b: string, p: string)
    requires StartsWith(a, p)
    ensures StartsWith(a + b, p)
  {
    assert (a + b)[..|p|] == a[..|p|];
  }

  /** Outside development every candidate is absolute: it starts with '/'
      or is an http(s) URL; so the example-directory, `@effects` and
      relative-base candidates exist only in development. */
  lemma ProductionPathsAreAbsolute(id: string, base: string)
    ensures forall p :: p in ModulePaths(id, base, false) ==> StartsWith(p, "/") || IsRemote(p)
  {
    var j, t, e := JsPath(base, id), TsPath(base, id), JsPath("/effects", id);
    var front := if StartsWith(base, "/") then [j, t] else [];
    var remote := if IsRemote(base) then [j] else [];
    assert ModulePaths(id, base, false) == front + [] + remote + [e];
    forall p | p in ModulePaths(id, base, false) ensures StartsWith(p, "/") || IsRemote(p) {
      if p in front {
        PathKeepsPrefix(base, id, "/index.js", "/");
        PathKeepsPrefix(base, id, "/index.ts", "/");
      } else if p in remote {
        if StartsWith(base, "http://") { PathKeepsPrefix(base, id, "/index.js", "http://"); }
        else { PathKeepsPrefix(base, id, "/index.js", "https://"); }
      } else {
        assert p == e;
        assert StartsWith("/effects", "/");
        PathKeepsPrefix("/effects", id, "/index.js", "/");
      }
    }
  }

  /** A candidate path starts with whatever its directory starts with. */
  lemma PathKeepsPrefix(dir: string, id: string, file: string, p: string)
    requires StartsWith(dir, p)
    ensures StartsWith(dir + "/" + id + file, p)
  {
    StartsWithAppend(dir, "/", p);
    StartsWithAppend(dir + "/", id, p);
    StartsWithAppend(dir + "/" + id, file, p);
  }

  /** In development the three example-directory candidates follow the
      absolute-base ones, in this order. */
  lemma DevelopmentPathsIncludeExamples(id: string, base: string)
    ensures var paths := ModulePaths(id, base, true);
      var k := if StartsWith(base, "/") then 2 else 0;
      k + 3 <= |paths|
      && paths[k] == "../effects/examples/" + id + "/index.ts"
      && paths[k + 1] == "../effects/examples/" + id + "/index.js"
      && paths[k + 2] == "@effects/examples/" + id + "/index.ts"
  {
  }

  /** A relative base directory (neither '/' nor 'http') is searched, `.ts`
      first, only in development. */
  lemma RelativeBaseOnlyInDevelopment(id: string, base: string)
    requires !StartsWith(base, "/") && !StartsWith(base, "http")
    ensures ModulePaths(id, base, false) == [JsPath("/effects", id)]
    ensures ModulePaths(id, base, true) ==
      [TsPath("../effects/examples", id), JsPath("../effects/examples", id), TsPath("@effects/examples", id),
       TsPath(base, id), JsPath(base, id), JsPath("/effects", id)]
  {
  }

  /** An http(s) base adds its `.js` candidate right before the fallback. */
  lemma RemoteBaseAddsUrl(id: string, base: string, isDev: bool)
    requires IsRemote(base)
    ensures var paths := ModulePaths(id, base, isDev);
      |paths| >= 2 && paths[|paths| - 2] == JsPath(base, id)
  {
  }

  /** One attempt at a candidate: an http(s) URL is fetched and then
      evaluated, which always throws; anything else is imported. */
  function AttemptPath(path: string, importer: string -> ImportOutcome, fetcher: string -> HttpResponse): (o: ImportOutcome)
    ensures IsRemote(path) ==> o.ImportRejected?
  {
    if IsRemote(path) then
      match fetcher(path)
      case NetworkError(message) => ImportRejected(message)
      case Response(_, _) => ImportRejected(RemoteUnsupported)
    else importer(path)
  }

  /** The index of the first candidate that loads, or `|paths|`. */
  function FirstLoaded(paths: seq<string>, importer: string -> ImportOutcome, fetcher: string -> HttpResponse): (k: nat)
    ensures k <= |paths|
    ensures forall j :: 0 <= j < k ==> AttemptPath(paths[j], importer, fetcher).ImportRejected?
    ensures k < |paths| ==> AttemptPath(paths[k], importer, fetcher).Imported?
  {
    if paths == [] then 0
    else if AttemptPath(paths[0], importer, fetcher).Imported? then 0
    else 1 + FirstLoaded(paths[1..], importer, fetcher)
  }

  /** The first loading candidate is determined by the outcomes. */
  lemma {:induction false} FirstLoadedUnique(paths: seq<string>, importer: string -> ImportOutcome, fetcher: string -> HttpResponse, k: nat)
    requires k <= |paths|
    requires forall j :: 0 <= j < k ==> AttemptPath(paths[j], importer, fetcher).ImportRejected?
    requires k < |paths| ==> AttemptPath(paths[k], importer, fetcher).Imported?
    ensures FirstLoaded(paths, importer, fetcher) == k
  {
    if k > 0 {
      FirstLoadedUnique(paths[1..], importer, fetcher, k - 1);
    }
  }

  /** The candidates tried: up to and including the first that loads. */
  function TriedPaths(paths: seq<string>, importer: string -> ImportOutcome, fetcher: string -> HttpResponse): seq<string>
  {
    var k := FirstLoaded(paths, importer, fetcher);
    if k < |paths| then paths[..k + 1] else paths
  }

  /** `lastError?.message || 'Unknown error'` */
  function ErrorText(lastError: Option<string>): string
  {
    if lastError.Some? && lastError.value != "" then lastError.value else "Unknown error"
  }

  /** The shape check and the construction of the cache entry. */
  function EntryOf(id: string, ns: Namespace): (r: Result<CacheEntry, LoadError>)
    ensures r.Err? <==> ns.default.None? || !ns.default.value.init.Func?
    ensures r.Err? ==> r.error == InvalidModule(id)
  {
    if ns.default.None? || !ns.default.value.init.Func? then Err(InvalidModule(id))
    else
      var d := ns.default.value;
      Ok(CacheEntry(
        EffectModule(d.init, if SlotTruthy(d.update) then d.update else d.animate, d.dispose),
        if SlotTruthy(ns.metadata) then ns.metadata else d.metadata))
  }

  /** An accepted module keeps `init` and `dispose`; its `update` is the
      default export's `update`, or `animate` when `update` is falsy. */
  lemma EntryUsesAnimateForMissingUpdate(id: string, ns: Namespace)
    requires ns.default.Some? && ns.default.value.init.Func?
    ensures var d := ns.default.value;
      var m := EntryOf(id, ns).value.effectModule;
      && m.init == d.init && m.dispose == d.dispose
      && (SlotTruthy(d.update) ==> m.update == d.update)
      && (!SlotTruthy(d.update) ==> m.update == d.animate)
  {
  }

  /** The result of a load that misses the cache. */
  function LoadOutcome(id: string, paths: seq<string>, importer: string -> ImportOutcome, fetcher: string -> HttpResponse): (r: Result<CacheEntry, LoadError>)
    requires |paths| >= 1
    ensures r.Err? ==> r.error.effectId == id
    ensures r.Err? && r.error.AllPathsFailed? <==>
      forall j :: 0 <= j < |paths| ==> AttemptPath(paths[j], importer, fetcher).ImportRejected?
    ensures r.Err? && r.error.AllPathsFailed? ==> r.error.attempted == paths && r.error.lastError != ""
    ensures r.Ok? ==> exists j :: 0 <= j < |paths| && !IsRemote(paths[j]) && AttemptPath(paths[j], importer, fetcher).Imported?
  {
    var k := FirstLoaded(paths, importer, fetcher);
    if k == |paths| then
      Err(AllPathsFailed(id, paths, ErrorText(Some(AttemptPath(paths[k - 1], importer, fetcher).message))))
    else EntryOf(id, AttemptPath(paths[k], importer, fetcher).ns)
  }

  /** When every candidate fails, the error names the effect and lists every
      candidate, and every candidate was tried. */
  lemma AllFailErrorListsPaths(id: string, paths: seq<string>, importer: string -> ImportOutcome, fetcher: string -> HttpResponse)
    requires |paths| >= 1
    requires forall j :: 0 <= j < |paths| ==> AttemptPath(paths[j], importer, fetcher).ImportRejected?
    ensures LoadOutcome(id, paths, importer, fetcher).Err?
    ensures var e := LoadOutcome(id, paths, importer, fetcher).error;
      e.AllPathsFailed? && e.effectId == id && e.attempted == paths
    ensures TriedPaths(paths, importer, fetcher) == paths
  {
    FirstLoadedUnique(paths, importer, fetcher, |paths|);
  }

  /** Candidates after the first one that loads are never tried, and the
      loaded module is that candidate's. */
  lemma StopsAtFirstSuccess(id: string, paths: seq<string>, importer: string -> ImportOutcome, fetcher: string -> HttpResponse, k: nat)
    requires k < |paths|
    requires forall j :: 0 <= j < k ==> AttemptPath(paths[j], importer, fetcher).ImportRejected?
    requires AttemptPath(paths[k], importer, fetcher).Imported?
    ensures TriedPaths(paths, importer, fetcher) == paths[..k + 1]
    ensures LoadOutcome(id, paths, importer, fetcher) == EntryOf(id, AttemptPath(paths[k], importer, fetcher).ns)
  {
    FirstLoadedUnique(paths, importer, fetcher, k);
  }

  /** A module never comes from an http(s) candidate. */
  lemma RemoteCandidateNeverLoads(paths: seq<string>, importer: string -> ImportOutcome, fetcher: string -> HttpResponse)
    ensures var k := FirstLoaded(paths, importer, fetcher);
      k < |paths| ==> !IsRemote(paths[k])
  {
  }

  /** The loop of `loadEffect`: tries the candidates in order and stops at
      the first that loads, keeping the last error otherwise. */
  method TryPaths(paths: seq<string>, importer: string -> ImportOutcome, fetcher: string -> HttpResponse)
    returns (loaded: Option<Namespace>, lastError: Option<string>, tried: seq<string>)
    requires |paths| >= 1
    ensures var k := FirstLoaded(paths, importer, fetcher);
      && tried == TriedPaths(paths, importer, fetcher)
      && (k < |paths| ==> loaded == Some(AttemptPath(paths[k], importer, fetcher).ns))
      && (k == |paths| ==> loaded.None? && lastError == Some(AttemptPath(paths[k - 1], importer, fetcher).message))
  {
    loaded := None;
    lastError := None;
    tried := [];
    var i := 0;
    while i < |paths|
      invariant 0 <= i <= |paths|
      invariant tried == paths[..i]
      invariant forall j :: 0 <= j < i ==> AttemptPath(paths[j], importer, fetcher).ImportRejected?
      invariant lastError == if i == 0 then None else Some(AttemptPath(paths[i - 1], importer, fetcher).message)
      invariant loaded.None?
    {
      var path := paths[i];
      tried := tried + [path];
      if IsRemote(path) {
        var response := fetcher(path);
        lastError := Some(if response.NetworkError? then response.message else RemoteUnsupported);
      } else {
        var outcome := importer(path);
        if outcome.Imported? {
          loaded := Some(outcome.ns);
          break;
        }
        lastError := Some(outcome.message);
      }
      i := i + 1;
    }
    FirstLoadedUnique(paths, importer, fetcher, i);
    if i == |paths| {
      assert paths[..i] == paths;
    }
  }

  /** `EffectLoader` with its static `cache`. */
  class EffectLoader {
    var cache: map<string, CacheEntry>

    constructor()
      ensures cache == map[]
    {
      cache := map[];
    }

    /** `loadEffect(effectId, basePath?)`, with `isDev` for
        `import.meta.env.DEV`. Also returns the candidates it tried, in order. */
    method LoadEffect(effectId: string, basePath: Option<string>, isDev: bool,
                      importer: string -> ImportOutcome, fetcher: string -> HttpResponse)
      returns (r: Result<CacheEntry, LoadError>, tried: seq<string>)
      modifies this
      ensures effectId in old(cache) ==> r == Ok(old(cache)[effectId]) && tried == [] && cache == old(cache)
      ensures effectId !in old(cache) ==>
        var paths := ModulePaths(effectId, BaseOr(basePath), isDev);
        && r == LoadOutcome(effectId, paths, importer, fetcher)
        && tried == TriedPaths(paths, importer, fetcher)
        && cache == (if r.Ok? then old(cache)[effectId := r.value] else old(cache))
    {
      if effectId in cache {
        return Ok(cache[effectId]), [];
      }
      var paths := ModulePaths(effectId, BaseOr(basePath), isDev);
      var loaded, lastError;
      loaded, lastError, tried := TryPaths(paths, importer, fetcher);
      if loaded.None? {
        r := Err(AllPathsFailed(effectId, paths, ErrorText(lastError)));
        return;
      }
      var ns := loaded.value;
      if ns.default.None? || !ns.default.value.init.Func? {
        r := Err(InvalidModule(effectId));
        return;
      }
      var d := ns.default.value;
      var effectModule := EffectModule(d.init, if SlotTruthy(d.update) then d.update else d.animate, d.dispose);
      var metadata := if SlotTruthy(ns.metadata) then ns.metadata else d.metadata;
      var entry := CacheEntry(effectModule, metadata);
      cache := cache[effectId := entry];
      r := Ok(entry);
    }

    /** `clearCache()` */
    method ClearCache()
      modifies this
      ensures cache == map[]
    {
      cache := map[];
    }

    /** `removeFromCache(effectId)`: only that id goes. */
    method RemoveFromCache(effectId: string)
      modifies this
      ensures cache == old(cache) - {effectId}
      ensures effectId !in cache && forall id :: id != effectId && id in old(cache) ==> id in cache && cache[id] == old(cache)[id]
    {
      cache := cache - {effectId};
    }
  }

  /** `listEffects(basePath?)`: fetches `<basePath>/manifest.json` and returns
      its `effects` when truthy, or `[]`. It never throws: a rejected
      fetch, a non-ok response, a body that is not JSON and a `null`
      manifest all give `[]`. */
  function ListEffects(basePath: Option<string>, fetcher: string -> HttpResponse): (r: JsValue)
    ensures Truthy(r)
    ensures var response := fetcher(BaseOr(basePath) + "/manifest.json");
      r == Arr([])
      || (response.Response? && response.ok && response.body.Some? && r == PropertyOf(response.body.value, "effects"))
    ensures var response := fetcher(BaseOr(basePath) + "/manifest.json");
      !(response.Response? && response.ok) ==> r == Arr([])
  {
    match fetcher(BaseOr(basePath) + "/manifest.json")
    case NetworkError(_) => Arr([])
    case Response(ok, body) =>
      if !ok || body.None? then Arr([])
      else
        var effects := PropertyOf(body.value, "effects");
        if Truthy(effects) then effects else Arr([])
  }

  /** `v[key]` for a parsed JSON value; `None` when reading it throws (on
      `null`). Only plain objects have own properties. */
  function Property(v: JsValue, key: string): Option<JsValue>
  {
    match v
    case Null => None
    case Undefined => None
    case Obj(entries) => Some(if Get(entries, key).Some? then Get(entries, key).value else Undefined)
    case _ => Some(Undefined)
  }

  /** `manifest.effects`, with a throwing read giving `undefined`: the catch
      then yields the same `[]` as a missing field does. */
  function PropertyOf(v: JsValue, key: string): JsValue
  {
    var p := Property(v, key);
    if p.Some? then p.value else Undefined
  }

  /** The manifest listing: a successful fetch of a manifest whose `effects`
      is an array gives that array; a failed fetch or a non-ok response
      gives the empty list; the URL is the manifest under the base path. */
  lemma ListEffectsOutcomes(basePath: Option<string>, fetcher: string -> HttpResponse)
    ensures var url := BaseOr(basePath) + "/manifest.json";
      && (fetcher(url).NetworkError? ==> ListEffects(basePath, fetcher) == Arr([]))
      && (fetcher(url).Response? && !fetcher(url).ok ==> ListEffects(basePath, fetcher) == Arr([]))
      && (fetcher(url) == Response(true, Some(Obj([("effects", Arr([]))]))) ==> ListEffects(basePath, fetcher) == Arr([]))
    ensures var url := BaseOr(basePath) + "/manifest.json";
      forall entries, items ::
        fetcher(url) == Response(true, Some(Obj(entries))) && Get(entries, "effects") == Some(Arr(items))
        ==> ListEffects(basePath, fetcher) == Arr(items)
  {
  }

  /** A manifest without an `effects` field lists nothing. */
  lemma ListEffectsMissingField(basePath: Option<string>, fetcher: string -> HttpResponse, entries: seq<(string, JsValue)>)
    requires fetcher(BaseOr(basePath) + "/manifest.json") == Response(true, Some(Obj(entries)))
    requires !HasKey(entries, "effects")
    ensures ListEffects(basePath, fetcher) == Arr([])
  {
  }
}
