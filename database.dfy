/**
 * `Database::Get`, the process-wide registry of proxies (Database.php).
 * The PHP statics `$proxy`, `$pids` and `$default_dsn` are the fields of one
 * `Registry` object; the current process id is an input, and the proxy
 * constructor is an opaque allocation that may throw.
 */
module Database {
  import opened Php

  /**
   * The object `new Proxy($dsn)` yields. Which driver it dispatches to is
   * decided outside the registry and is not part of this model.
   */
  class ProxyHandle {
    const dsn: Option<string>

    constructor(dsn: Option<string>)
      ensures this.dsn == dsn
    {
      this.dsn := dsn;
    }
  }

  /** The array key PHP uses for `$dsn`: a null key is stored as "". */
  function Slot(dsn: Option<string>): string {
    dsn.GetOr("")
  }

  /** The DSN `Get` goes on with: the one given, else the recorded default (which may be null too). */
  function Chosen(dsn: Option<string>, default: Option<string>): Option<string> {
    if dsn.Some? then dsn else default
  }

  /** Dropping a key and then setting it is the same as setting it. */
  lemma RemoveThenSet<K, V>(m: map<K, V>, k: K, v: V)
    ensures (m - {k})[k := v] == m[k := v]
  {
    assert (m - {k})[k := v].Keys == m[k := v].Keys;
  }

  class Registry {
    var proxies: map<string, ProxyHandle>
    var pids: map<string, int>
    var defaultDsn: Option<string>

    /** A proxy is cached exactly where its owning pid is recorded. */
    ghost predicate Valid()
      reads this
    {
      proxies.Keys == pids.Keys
    }

    constructor()
      ensures Valid()
      ensures proxies == map[] && pids == map[] && defaultDsn == None
    {
      proxies := map[];
      pids := map[];
      defaultDsn := None;
    }

    /**
     * `Get($dsn, $use_as_default)` in process `pid`. `failure` is what the
     * proxy constructor throws, if it throws: the stale entry is then gone
     * and nothing new is recorded.
     */
    method Get(dsn: Option<string>, useAsDefault: bool, pid: int, failure: Option<Error>)
      returns (r: Result<ProxyHandle>)
      requires Valid()
      modifies this
      ensures Valid()
      ensures defaultDsn == if dsn.Some? && useAsDefault then dsn else old(defaultDsn)
      ensures var used := Chosen(dsn, old(defaultDsn));
              var k := Slot(used);
              if k in old(pids) && old(pids)[k] == pid then
                r == Ok(old(proxies)[k]) && proxies == old(proxies) && pids == old(pids)
              else if failure.Some? then
                r == Err(failure.value) && proxies == old(proxies) - {k} && pids == old(pids) - {k}
              else
                r.Ok? && fresh(r.value) && r.value.dsn == used
                && proxies == old(proxies)[k := r.value] && pids == old(pids)[k := pid]
    {
      var d := dsn;
      if dsn.Some? && useAsDefault {
        defaultDsn := dsn;
      } else if dsn.None? && defaultDsn.Some? {
        d := defaultDsn;
      }
      assert d == Chosen(dsn, old(defaultDsn));
      var k := Slot(d);
      ghost var cached := k in pids && pids[k] == pid;
      // a proxy built by another process must not be used here
      if k in pids && pids[k] != pid {
        proxies := proxies - {k};
        pids := pids - {k};
      }
      assert k in proxies <==> cached;
      if k !in proxies {
        if failure.Some? {
          return Err(failure.value);
        }
        var p := new ProxyHandle(d);
        RemoveThenSet(old(proxies), k, p);
        RemoveThenSet(old(pids), k, pid);
        proxies := proxies[k := p];
        pids := pids[k := pid];
      }
      return Ok(proxies[k]);
    }
  }

  /** Two calls for one DSN in one process share the proxy the first call made. */
  method SameProcessShares(reg: Registry, dsn: string, pid: int)
    returns (a: Result<ProxyHandle>, b: Result<ProxyHandle>)
    requires reg.Valid()
    modifies reg
    ensures reg.Valid()
    ensures a.Ok? && a == b
    ensures dsn in reg.pids && reg.pids[dsn] == pid && reg.proxies[dsn] == a.value
  {
    a := reg.Get(Some(dsn), false, pid, None);
    b := reg.Get(Some(dsn), false, pid, None);
  }

  /** After a fork the child gets a proxy of its own, never the parent's. */
  method ForkRebuilds(reg: Registry, dsn: string, parent: int, child: int)
    returns (a: Result<ProxyHandle>, b: Result<ProxyHandle>)
    requires reg.Valid() && parent != child
    modifies reg
    ensures reg.Valid()
    ensures a.Ok? && b.Ok? && a.value != b.value && fresh(b.value)
    ensures dsn in reg.pids && reg.pids[dsn] == child && reg.proxies[dsn] == b.value
  {
    a := reg.Get(Some(dsn), false, parent, None);
    b := reg.Get(Some(dsn), false, child, None);
  }

  /** A DSN made the default is what a later call without a DSN reaches. */
  method DefaultIsFollowed(reg: Registry, dsn: string, pid: int)
    returns (a: Result<ProxyHandle>, b: Result<ProxyHandle>)
    requires reg.Valid()
    modifies reg
    ensures reg.Valid() && reg.defaultDsn == Some(dsn)
    ensures a.Ok? && a == b
  {
    a := reg.Get(Some(dsn), true, pid, None);
    b := reg.Get(None, false, pid, None);
  }

  /** Without a recorded default, `Get(null)` raises nothing and caches under the key "". */
  method NoDefaultUsesEmptyKey(reg: Registry, pid: int) returns (r: Result<ProxyHandle>)
    requires reg.Valid() && reg.defaultDsn.None? && "" !in reg.pids
    modifies reg
    ensures reg.Valid()
    ensures r.Ok? && r.value.dsn.None?
    ensures "" in reg.proxies && reg.proxies[""] == r.value
  {
    r := reg.Get(None, false, pid, None);
  }
}
