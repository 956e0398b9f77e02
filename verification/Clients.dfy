/**
 The two holders the cache's builder reads and the background upgrade that writes
 one of them (cmd/ken-mcp/main.go), on the cache object itself. What they are worth
 under concurrency is proved in CacheFreshness, DbExtras and DbExtrasExact.
 */
module Clients {
  import opened CacheSpec
  import opened Collections
  import opened RepoCache

  datatype Config = Config(mode: string, modeStr: string, modelDir: string)

  /** buildState: read once per build. */
  class BuildState {
    var mode: string
    var modeStr: string
    var modelDir: string

    ghost function View(): Config
      reads this
    {
      Config(mode, modeStr, modelDir)
    }

    constructor (initial: Config)
      ensures View() == initial
    {
      mode, modeStr, modelDir := initial.mode, initial.modeStr, initial.modelDir;
    }

    method Snapshot() returns (c: Config)
      ensures c == View()
    {
      c := Config(mode, modeStr, modelDir);
    }

    method Set(c: Config)
      modifies this
      ensures View() == c
    {
      mode, modeStr, modelDir := c.mode, c.modeStr, c.modelDir;
    }
  }

  /**
   autoFetchModel. A failed fetch changes nothing. The new mode is stored before the
   purge, and with a database attached there is no purge: the cache keeps serving
   what was built in the old mode. The Get that re-warms the default repo after the
   purge never hits: it rebuilds, in the new mode, unless the cache is closed.
   */
  method AutoFetchModel(bs: BuildState, want: Config, cache: Cache, defaultRepo: Key, fetched: bool, hasDB: bool)
    returns (rewarm: Option<LookupResult>)
    requires cache.Ready()
    modifies bs, cache`ll, cache`items, cache`gen, cache`mu, cache`reaped, cache.sf
    ensures cache.Ready()
    ensures bs.View() == if fetched then want else old(bs.View())
    ensures cache.View() == if fetched && !hasDB then AfterPurge(old(cache.View())) else old(cache.View())
    ensures cache.reaped == old(cache.reaped) + if fetched && !hasDB && !old(cache.closed) then old(cache.ll) else []
    ensures rewarm.Some? <==> fetched && !hasDB && defaultRepo != ""
    ensures rewarm.Some? ==> rewarm.value == if old(cache.closed) then CacheClosed else Miss
  {
    rewarm := None;
    if !fetched {
      return;
    }
    bs.Set(want);
    if hasDB {
      return;
    }
    cache.Purge();
    if defaultRepo != "" {
      var r := cache.Lookup(defaultRepo);
      rewarm := Some(r);
    }
  }

  /** dbExtras: the latest DB chunk set. */
  class ExtrasHolder {
    var chunks: seq<string>

    constructor ()
      ensures chunks == []
    {
      chunks := [];
    }

    method Store(cs: seq<string>)
      modifies this
      ensures chunks == cs
    {
      chunks := cs;
    }

    method Load() returns (cs: seq<string>)
      ensures cs == chunks
    {
      cs := chunks;
    }
  }

  /** repoBuilder, as far as Build reads shared state. */
  class RepoBuilder {
    const bs: BuildState
    const extras: ExtrasHolder
    const dbDefaultKey: Key

    constructor (bs: BuildState, extras: ExtrasHolder, dbDefaultKey: Key)
      ensures this.bs == bs && this.extras == extras && this.dbDefaultKey == dbDefaultKey
    {
      this.bs, this.extras, this.dbDefaultKey := bs, extras, dbDefaultKey;
    }

    /**
     What a build of `source` is configured with, and the DB chunks it puts on the
     index: the stored set, on the default repo only, and not an empty one.
     */
    method Build(source: Key) returns (config: Config, chunks: seq<string>)
      ensures config == bs.View()
      ensures chunks == if dbDefaultKey != "" && source == dbDefaultKey then extras.chunks else []
    {
      config := bs.Snapshot();
      chunks := [];
      if dbDefaultKey != "" && source == dbDefaultKey {
        var stored := extras.Load();
        if |stored| > 0 {
          chunks := stored;
        }
      }
    }
  }

  /**
   onExtras up to its Get's first section: the chunks are stored before the default
   repo is looked up, so whoever builds from here on reads them.
   */
  method OnExtras(extras: ExtrasHolder, cache: Cache, chunks: seq<string>, defaultRepo: Key)
    returns (r: LookupResult)
    requires cache.Ready()
    modifies extras, cache`ll, cache`mu
    ensures cache.Ready() && extras.chunks == chunks
    ensures r == Looked(old(cache.View()), defaultRepo)
    ensures cache.View() == AfterLookup(old(cache.View()), defaultRepo)
  {
    extras.Store(chunks);
    r := cache.Lookup(defaultRepo);
  }
}
