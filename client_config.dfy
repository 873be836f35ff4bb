/**
 * The client's configuration cache (src/client/src/config.js): a JavaScript
 * object that starts as the defaults, is replaced by `initConfig` from the
 * server's answer, is merged into by `saveConfig`, and is read by the
 * getters. The object is a map from key to JSON value; an object spread
 * `{ ...a, ...b }` is the map union `a + b`, whose right operand wins.
 */
module ClientConfig {
  import opened Js
  import ConfigSchema
  import ConfigStore

  type Object = map<string, Value>

  /** `DEFAULT`. */
  const Defaults: Object := map["theme" := Str("technical"), "mode" := Str("auto"), "appTitle" := Str("Project-Tracker")]

  /** How the `fetch("/api/config")` of `initConfig` ends. */
  datatype Fetched = Threw | NotOk | Ok(body: Object)

  /** `o.key`: an absent key reads as `undefined`. */
  function Get(o: Object, key: string): (v: Value)
    ensures key !in o ==> v == Undefined
  {
    if key in o then o[key] else Undefined
  }

  /** `a ?? b`. */
  function Nullish(a: Value, b: Value): (v: Value)
    ensures a.Undefined? || a.Null? ==> v == b
    ensures !(a.Undefined? || a.Null?) ==> v == a
  {
    if a.Undefined? || a.Null? then b else a
  }

  /** The value the cache holds after `initConfig`. */
  function Initialised(f: Fetched): Object {
    if f.Ok? then Defaults + f.body else Defaults
  }

  /** `effectiveMode` on a cache: `auto` resolved by the system preference. */
  function ResolveMode(cache: Object, fallback: Value, prefersDark: bool): Value {
    var m := Nullish(Get(cache, "mode"), fallback);
    if m == Str("auto") then (if prefersDark then Str("dark") else Str("light")) else m
  }

  class Cache {
    var cache: Object

    /** `let CACHE = { ...DEFAULT }`. */
    constructor ()
      ensures cache == Defaults
    {
      cache := Defaults;
    }

    /** `initConfig`: the defaults overridden by the server's row, or the defaults alone. */
    method InitConfig(f: Fetched)
      modifies this
      ensures cache == Initialised(f)
    {
      match f
      case Ok(body) => cache := Defaults + body;
      case _ => cache := Defaults;
    }

    /** `loadConfig`. */
    function LoadConfig(): Object
      reads this
    {
      cache
    }

    /** `effectiveTheme(fallback)`: the cached theme unless it is null or undefined. */
    function EffectiveTheme(fallback: Value): (v: Value)
      reads this
      ensures "theme" in cache && !cache["theme"].Undefined? && !cache["theme"].Null? ==> v == cache["theme"]
      ensures "theme" !in cache || cache["theme"].Undefined? || cache["theme"].Null? ==> v == fallback
    {
      Nullish(Get(cache, "theme"), fallback)
    }

    /** `effectiveMode(fallback)`, with `matchMedia("(prefers-color-scheme: dark)").matches` as `prefersDark`. */
    function EffectiveMode(fallback: Value, prefersDark: bool): (v: Value)
      reads this
      ensures v != Str("auto")
      ensures Get(cache, "mode") == Str("auto") ==> v == (if prefersDark then Str("dark") else Str("light"))
    {
      ResolveMode(cache, fallback, prefersDark)
    }

    /** `storedMode()`: the cached mode, `auto` when there is none. */
    function StoredMode(): (v: Value)
      reads this
      ensures "mode" in cache && !cache["mode"].Undefined? && !cache["mode"].Null? ==> v == cache["mode"]
      ensures "mode" !in cache || cache["mode"].Undefined? || cache["mode"].Null? ==> v == Str("auto")
    {
      Nullish(Get(cache, "mode"), Str("auto"))
    }

    /** `saveConfig(partial)`: the merged cache, which is also the body of the PUT it sends. */
    method SaveConfig(partial: Object) returns (sent: Object)
      modifies this
      ensures cache == old(cache) + partial
      ensures sent == cache
    {
      cache := cache + partial;
      sent := cache;
    }
  }

  // ------------------------------------------------------------------ lemmas

  /** After a failed or refused fetch the cache is exactly the defaults. */
  lemma InitFailureGivesDefaults(f: Fetched)
    requires !f.Ok?
    ensures Initialised(f) == Defaults
    ensures Get(Initialised(f), "mode") == Str("auto") && Get(Initialised(f), "theme") == Str("technical")
  {
  }

  /** After a successful fetch every key of the answer wins, and every other key keeps its default. */
  lemma InitOverrides(body: Object, key: string)
    ensures key in body ==> Get(Initialised(Ok(body)), key) == body[key]
    ensures key !in body ==> Get(Initialised(Ok(body)), key) == Get(Defaults, key)
  {
  }

  /**
   * What the getters read after `initConfig`: the theme or mode the server
   * sent, or the default (`technical`, `auto`) when it sent none or the
   * fetch failed; `effectiveTheme`'s fallback shows only when the server
   * sent a null theme.
   */
  lemma ReadsAfterInit(c: Cache, f: Fetched, fallback: Value)
    requires c.cache == Initialised(f)
    ensures !f.Ok? ==> c.EffectiveTheme(fallback) == Str("technical") && c.StoredMode() == Str("auto")
    ensures f.Ok? && "theme" !in f.body ==> c.EffectiveTheme(fallback) == Str("technical")
    ensures f.Ok? && "theme" in f.body && f.body["theme"].Str? ==> c.EffectiveTheme(fallback) == f.body["theme"]
    ensures f.Ok? && "mode" !in f.body ==> c.StoredMode() == Str("auto")
    ensures f.Ok? && "mode" in f.body && f.body["mode"].Str? ==> c.StoredMode() == f.body["mode"]
    ensures c.EffectiveTheme(fallback) == fallback && fallback != Str("technical") ==>
      f.Ok? && "theme" in f.body && (f.body["theme"].Null? || f.body["theme"].Undefined? || f.body["theme"] == fallback)
  {
  }

  /** `saveConfig` sets every key of the partial and leaves every other key as it was. */
  lemma SaveMerges(cache: Object, partial: Object, key: string)
    ensures key in partial ==> Get(cache + partial, key) == partial[key]
    ensures key !in partial ==> Get(cache + partial, key) == Get(cache, key)
  {
  }

  /** The resolved mode is never `auto`, whatever the cache and the fallback. */
  lemma ModeNeverAuto(cache: Object, fallback: Value, prefersDark: bool)
    ensures ResolveMode(cache, fallback, prefersDark) != Str("auto")
  {
    assert Str("dark") != Str("auto") && Str("light") != Str("auto");
  }

  /** A stored `auto` follows the system preference; any other stored mode is returned as it is. */
  lemma ModeResolution(cache: Object, fallback: Value, prefersDark: bool)
    ensures Get(cache, "mode") == Str("auto") ==> ResolveMode(cache, fallback, prefersDark) == (if prefersDark then Str("dark") else Str("light"))
    ensures Get(cache, "mode").Str? && Get(cache, "mode") != Str("auto") ==> ResolveMode(cache, fallback, prefersDark) == Get(cache, "mode")
    ensures (Get(cache, "mode").Undefined? || Get(cache, "mode").Null?) && fallback != Str("auto") ==> ResolveMode(cache, fallback, prefersDark) == fallback
  {
  }

  /** On the defaults the stored mode is `auto` and the effective theme is `technical`. */
  lemma DefaultsRead(fallback: Value, prefersDark: bool)
    ensures Nullish(Get(Defaults, "mode"), Str("auto")) == Str("auto")
    ensures Nullish(Get(Defaults, "theme"), fallback) == Str("technical")
    ensures ResolveMode(Defaults, fallback, prefersDark) == (if prefersDark then Str("dark") else Str("light"))
  {
  }

  /** The fields `PUT /api/config` reads from the body `saveConfig` sends. */
  function PutBody(sent: Object): ConfigStore.ConfigBody {
    ConfigStore.ConfigBody(Get(sent, "theme"), Get(sent, "mode"), Get(sent, "appTitle"))
  }

  /**
   * A theme and a mode saved on the client are the ones the server stores,
   * whatever the cache held before and whatever the row was.
   */
  lemma SavedChoiceReachesServer(cache: Object, row: ConfigSchema.Config, t: ConfigSchema.Theme, m: ConfigSchema.Mode)
    ensures var sent := cache + map["theme" := Str(ConfigSchema.ThemeName(t)), "mode" := Str(ConfigSchema.ModeName(m))];
      && ConfigStore.ApplyPut(row, PutBody(sent)).theme == t
      && ConfigStore.ApplyPut(row, PutBody(sent)).mode == m
  {
    ConfigSchema.ThemeNamesRoundTrip(t);
    ConfigSchema.ModeNamesRoundTrip(m);
  }
}
