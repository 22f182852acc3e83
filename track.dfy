/**
 * git-track's command handlers over an already loaded configuration.
 * A configuration maps remote names to remote objects; `add` and `rm`
 * overwrite each remote's fetch list in place and then persist the whole
 * configuration once; `ls` only reads.
 *
 * Go iterates over the remotes map in a random order; the loops here pick
 * any remote not yet visited, so no order among remotes is assumed.
 */
module GitTrack {
  import opened RefSpecCodec
  import opened FetchLists

  /** A configured remote: its name and its ordered fetch refspecs. */
  class Remote {
    const name: string
    var fetch: seq<string>

    constructor (name: string, fetch: seq<string>)
      ensures this.name == name && this.fetch == fetch
    {
      this.name := name;
      this.fetch := fetch;
    }
  }

  /** The in-memory configuration: remote name to remote. */
  class Config {
    var remotes: map<string, Remote>

    /** Each remote is filed under its own name, so no two names share one. */
    ghost predicate Valid()
      reads this, remotes.Values
    {
      forall k :: k in remotes ==> remotes[k].name == k
    }

    constructor (remotes: map<string, Remote>)
      requires forall k :: k in remotes ==> remotes[k].name == k
      ensures this.remotes == remotes && Valid()
    {
      this.remotes := remotes;
    }

    /** The fetch lists of all remotes, by remote name. */
    function Fetches(): (f: map<string, seq<string>>)
      reads this, remotes.Values
      ensures f.Keys == remotes.Keys
      ensures forall k :: k in remotes ==> f[k] == remotes[k].fetch
    {
      map k | k in remotes :: remotes[k].fetch
    }
  }

  /** The repository, reduced to the fetch lists its configuration file holds. */
  class Repository {
    var stored: map<string, seq<string>>

    constructor (stored: map<string, seq<string>>)
      ensures this.stored == stored
    {
      this.stored := stored;
    }

    /**
     * SetConfig: overwrite the stored configuration with `cfg` as a whole,
     * keeping every fetch list exactly as it is in memory.
     */
    method SetConfig(cfg: Config)
      modifies this
      ensures stored == cfg.Fetches()
    {
      stored := cfg.Fetches();
    }
  }

  /**
   * add: append the refspec for `branch` to every remote's fetch list, with
   * no duplicate check, then persist.
   */
  method Add(repo: Repository, cfg: Config, branch: string)
    requires cfg.Valid()
    modifies repo, cfg.remotes.Values
    ensures cfg.Valid() && cfg.remotes == old(cfg.remotes)
    ensures forall k :: k in cfg.remotes ==>
              cfg.remotes[k].fetch == old(cfg.remotes[k].fetch) + [Inflate(branch)]
    ensures repo.stored == cfg.Fetches()
  {
    var todo := cfg.remotes.Keys;
    while todo != {}
      invariant todo <= cfg.remotes.Keys
      invariant forall k :: k in cfg.remotes ==>
                  cfg.remotes[k].fetch ==
                  if k in todo then old(cfg.remotes[k].fetch)
                  else old(cfg.remotes[k].fetch) + [Inflate(branch)]
      decreases todo
    {
      var k :| k in todo;
      var r := cfg.remotes[k];
      r.fetch := r.fetch + [Inflate(branch)];
      todo := todo - {k};
    }
    repo.SetConfig(cfg);
  }

  /**
   * The inner loop of remove: build a new list from the entries that do
   * not decode to `branch`, panicking at the first one that cannot be
   * decoded.
   */
  method FilterFetch(fetch: seq<string>, branch: string) returns (r: Result<seq<string>>)
    ensures r == FilterOut(fetch, branch)
  {
    var kept: seq<string> := [];
    var i := 0;
    while i < |fetch|
      invariant 0 <= i <= |fetch|
      invariant FilterOut(fetch[..i], branch) == Ok(kept)
    {
      var s := fetch[i];
      assert fetch[..i + 1] == fetch[..i] + [s];
      var d := Deflate(s);
      if d.Err? {
        assert FilterOut(fetch, branch) == Err(d.panic) by {
          FilterOutSingle(s, branch);
          FilterOutAppend(fetch[..i], [s], branch);
          FilterOutAppend(fetch[..i + 1], fetch[i + 1..], branch);
          assert fetch[..i + 1] + fetch[i + 1..] == fetch;
        }
        return Err(d.panic);
      }
      assert FilterOut(fetch[..i + 1], branch) ==
             Ok(if d.value == branch then kept else kept + [s]) by {
        FilterOutSingle(s, branch);
        FilterOutAppend(fetch[..i], [s], branch);
        assert kept + [] == kept;
      }
      if d.value != branch {
        kept := kept + [s];
      }
      i := i + 1;
    }
    assert fetch[..i] == fetch;
    return Ok(kept);
  }

  /**
   * remove: rewrite every remote's fetch list to drop the entries that
   * decode to `branch`, then persist. A refspec that cannot be decoded
   * makes it panic: remotes already visited are rewritten in memory, the
   * rest are not, and nothing is persisted.
   */
  method Remove(repo: Repository, cfg: Config, branch: string) returns (panic: Option<Panic>)
    requires cfg.Valid()
    modifies repo, cfg.remotes.Values
    ensures cfg.Valid() && cfg.remotes == old(cfg.remotes)
    ensures panic.None? <==>
              forall k :: k in cfg.remotes ==> AllDecodable(old(cfg.remotes[k].fetch))
    ensures panic.None? ==>
              && (forall k :: k in cfg.remotes ==>
                    FilterOut(old(cfg.remotes[k].fetch), branch) == Ok(cfg.remotes[k].fetch))
              && repo.stored == cfg.Fetches()
    ensures panic.Some? ==>
              && (exists k :: k in cfg.remotes &&
                    FilterOut(old(cfg.remotes[k].fetch), branch) == Err(panic.value))
              && (forall k :: k in cfg.remotes ==>
                    || cfg.remotes[k].fetch == old(cfg.remotes[k].fetch)
                    || FilterOut(old(cfg.remotes[k].fetch), branch) == Ok(cfg.remotes[k].fetch))
              && repo.stored == old(repo.stored)
  {
    var todo := cfg.remotes.Keys;
    while todo != {}
      invariant todo <= cfg.remotes.Keys
      invariant forall k :: k in cfg.remotes ==>
                  if k in todo then cfg.remotes[k].fetch == old(cfg.remotes[k].fetch)
                  else FilterOut(old(cfg.remotes[k].fetch), branch) == Ok(cfg.remotes[k].fetch)
      invariant repo.stored == old(repo.stored)
      decreases todo
    {
      var k :| k in todo;
      var r := cfg.remotes[k];
      var filtered := FilterFetch(r.fetch, branch);
      if filtered.Err? {
        return Some(filtered.panic);
      }
      r.fetch := filtered.value;
      todo := todo - {k};
    }
    repo.SetConfig(cfg);
    return None;
  }

  /** ls: what it prints for each remote; the configuration is only read. */
  function Ls(cfg: Config): (out: map<string, Listing>)
    reads cfg, cfg.remotes.Values
    ensures out.Keys == cfg.remotes.Keys
    ensures forall k :: k in cfg.remotes ==> out[k] == ListFetch(cfg.remotes[k].fetch)
    ensures forall k :: k in out ==>
              forall line :: line in out[k].lines ==> line != "" && !Contains(line, Marker)
  {
    map k | k in cfg.remotes :: ListFetch(cfg.remotes[k].fetch)
  }

  /** An end-to-end scenario on a configuration with one remote, origin. */
  method ReleaseRoundTrip()
  {
    var origin := new Remote("origin", []);
    var cfg := new Config(map["origin" := origin]);
    var repo := new Repository(map[]);
    var refSpec := Inflate("release");
    Add(repo, cfg, "release");
    assert cfg.remotes["origin"] == origin;
    assert origin.fetch == [refSpec] by {
      assert [] + [refSpec] == [refSpec];
    }
    ReleaseScenario();
    assert Ls(cfg)["origin"] == Listing(["release"], None);
    var panic := Remove(repo, cfg, "release");
    assert panic.None? && origin.fetch == [];
    assert "origin" in repo.stored && repo.stored["origin"] == [];
  }
}
