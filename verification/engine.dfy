/**
 * The `Engine` interface every STT, translation and TTS engine implements
 * (Engine.kt): the `initialize` config map, the memory-usage promise, and the
 * ready-flag lifecycle that the placeholder engines implement as is.
 */
module Engine {
  import opened Wrappers

  /** A value of the `Map<String, Any>` handed to `initialize`. The engines only
      ask whether a value is a string (`as? String`). */
  datatype ConfigValue = StrValue(s: string) | OtherValue

  type Config = map<string, ConfigValue>

  /** The default `config` argument of `initialize`. */
  const EmptyConfig: Config := map[]

  /** `config[key] as? String ?: default`. */
  function ConfigString(config: Config, key: string, default: string): string {
    if key in config && config[key].StrValue? then config[key].s else default
  }

  /** Under the default config every engine falls back to its own defaults. */
  lemma EmptyConfigGivesDefaults(key: string, default: string)
    ensures ConfigString(EmptyConfig, key, default) == default
  {
  }

  /** The interface's memory promise: 0 when not initialized, otherwise the
      estimate for the current model. */
  predicate HonoursMemoryContract(ready: bool, usage: int, estimate: int) {
    (!ready ==> usage == 0) && (ready ==> usage == estimate)
  }

  /** The lifecycle of the placeholder engines: a ready flag and the id of the
      model it was given. */
  datatype Lifecycle = Lifecycle(initialized: bool, modelId: Option<string>)

  const Fresh: Lifecycle := Lifecycle(false, None)

  /** Placeholder `initialize`: records the id and becomes ready; it cannot fail
      and releases nothing first. */
  function Initialize(l: Lifecycle, modelId: string): (r: Lifecycle)
    ensures r.initialized && r.modelId == Some(modelId)
  {
    Lifecycle(true, Some(modelId))
  }

  /** Placeholder `release`: not ready, no model. */
  function Release(l: Lifecycle): (r: Lifecycle)
    ensures !r.initialized && r.modelId.None?
  {
    Fresh
  }

  /** A fixed per-engine estimate turned into `getMemoryUsageBytes`. */
  function Usage(l: Lifecycle, estimate: int): (u: int)
    ensures HonoursMemoryContract(l.initialized, u, estimate)
  {
    if l.initialized then estimate else 0
  }

  /** A call on the lifecycle: `initialize(id)` or `release()`. */
  datatype LifecycleCall = Init(id: string) | Rel

  function Replay(l: Lifecycle, calls: seq<LifecycleCall>): Lifecycle
    decreases |calls|
  {
    if |calls| == 0 then l
    else
      var next := match calls[0] case Init(id) => Initialize(l, id) case Rel => Release(l);
      Replay(next, calls[1..])
  }

  /** initialize → use → release, one model per engine: after any calls the
      engine is ready exactly when the last call was an `initialize`, and then
      it holds that call's model. */
  lemma {:induction false} LastCallDecides(l: Lifecycle, calls: seq<LifecycleCall>)
    requires |calls| > 0
    ensures var r := Replay(l, calls);
      && (r.initialized <==> calls[|calls| - 1].Init?)
      && (calls[|calls| - 1].Init? ==> r.modelId == Some(calls[|calls| - 1].id))
      && (calls[|calls| - 1].Rel? ==> r == Fresh)
    decreases |calls|
  {
    var next := match calls[0] case Init(id) => Initialize(l, id) case Rel => Release(l);
    if |calls| > 1 {
      LastCallDecides(next, calls[1..]);
      assert calls[1..][|calls[1..]| - 1] == calls[|calls| - 1];
    }
  }

  /** `release` is safe to repeat, and a released engine reports no usage. */
  lemma ReleaseIdempotent(l: Lifecycle)
    ensures Release(Release(l)) == Release(l)
    ensures Usage(Release(l), 1) == 0
  {
  }
}
