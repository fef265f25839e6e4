/**
 * The proxy pool of lib/cycler.js: a list of HttpProxy objects updated in
 * place, with no two sharing a (host, port) key. Every method is proved
 * against the value-level functions of PoolSpec.
 */
module ProxyPool {
  import opened Results
  import opened ProxyEntry
  import opened PoolSpec

  /** The value an HttpProxy object holds right now. */
  ghost function EntryOf(p: HttpProxy): Entry
    reads p
  {
    Entry(p.host, p.port, p.protocol, p.used)
  }

  class Cycler {
    /** The host, IP and URI checks the library imports. */
    const checks: Validators
    var proxies: seq<HttpProxy>

    /** The pool as a value: one entry per proxy, in list order. */
    ghost function Entries(): (es: seq<Entry>)
      reads this, proxies
      ensures |es| == |proxies|
      ensures forall i :: 0 <= i < |proxies| ==> es[i] == EntryOf(proxies[i])
    {
      seq(|proxies|, i reads this, proxies requires 0 <= i < |proxies| => EntryOf(proxies[i]))
    }

    /** No two proxies share a (host, port) key. */
    ghost predicate Valid()
      reads this, proxies
    {
      Unique(Entries())
    }

    /** `new Cycler()`: an empty pool. A list given to the constructor is loaded by AddEach. */
    constructor (checks: Validators)
      ensures this.checks == checks && proxies == [] && Valid()
    {
      this.checks := checks;
      proxies := [];
    }

    /** `_exists(host, port)`: the index of the first proxy with that host and that very port value. */
    method Exists(host: string, port: JsPort) returns (r: Option<nat>)
      ensures r == FindKey(Entries(), host, port)
    {
      var i := 0;
      while i < |proxies|
        invariant 0 <= i <= |proxies|
        invariant forall j :: 0 <= j < i ==> !Matches(Entries()[j], host, port)
      {
        var proxy := proxies[i];
        if proxy.host == host && port == Num(proxy.port) {
          return Some(i);
        }
        i := i + 1;
      }
      return None;
    }

    /**
     * `get(target)`: normalise the target, then return the first proxy never
     * used against it or, when all have been, the one used against it longest
     * ago (the lowest index on a tie); nothing for an empty pool.
     */
    method Get(target: Option<string>) returns (r: Result<Option<HttpProxy>>)
      ensures ValidateTarget(checks, target).Err? ==> r == Err(InvalidTarget)
      ensures ValidateTarget(checks, target).Ok? ==>
        var sel := Select(Entries(), ValidateTarget(checks, target).value);
        r == Ok(if sel.None? then None else Some(proxies[sel.value]))
    {
      var key := ValidateTarget(checks, target);
      if key.Err? {
        return Err(key.error);
      }
      var targetCopy := key.value;
      ghost var es := Entries();
      var date := 0;
      var index: Option<nat> := None;
      var i := 0;
      while i < |proxies|
        invariant 0 <= i <= |proxies|
        invariant forall j :: 0 <= j < i ==> targetCopy in es[j].used
        invariant index.None? <==> i == 0
        invariant index.Some? ==>
          index.value == Oldest(es, targetCopy, i) && date == es[index.value].used[targetCopy]
      {
        var proxy := proxies[i];
        if targetCopy !in proxy.used {
          ColdStartFirst(es, targetCopy, i);
          return Ok(Some(proxy));
        }
        if index.None? || date > proxy.used[targetCopy] {
          date := proxy.used[targetCopy];
          index := Some(i);
        }
        i := i + 1;
      }
      if i > 0 {
        SelectAllUsed(es, targetCopy);
      }
      return Ok(if index.None? then None else Some(proxies[index.value]));
    }

    /**
     * `add(host, port, protocol)`: build and validate the proxy, then return
     * the existing proxy with that key (shared, not copied) or append the new one.
     */
    method Add(host: string, port: JsPort, protocol: Option<string>) returns (r: Result<HttpProxy>)
      requires Valid()
      modifies this
      ensures Valid()
      ensures var a := AddTo(checks, old(Entries()), host, port, protocol);
        && (a.Err? ==> r == Err(a.error) && proxies == old(proxies))
        && (a.Ok? ==> r.Ok? && Entries() == a.value.0 && r.value == proxies[a.value.1])
      ensures r.Ok? ==> proxies == old(proxies) || (proxies == old(proxies) + [r.value] && fresh(r.value))
    {
      ghost var es := Entries();
      var parsed := ParseInt(port);
      var proxy := HttpProxy.Create(checks, host, parsed, protocol);
      if proxy.Err? {
        return Err(proxy.error);
      }
      var found := Exists(proxy.value.host, Num(proxy.value.port));
      assert found == FindKey(es, host, ParseInt(port));
      if found.Some? {
        return Ok(proxies[found.value]);
      }
      ghost var e := EntryOf(proxy.value);
      AddAppendsEntry(checks, es, host, port, protocol, e);
      proxies := proxies + [proxy.value];
      assert Entries() == es + [e];
      return proxy;
    }

    /** `add(host, port)` as written: no protocol reaches the constructor, so it always fails. */
    method AddAsWritten(host: string, port: JsPort) returns (r: Result<HttpProxy>)
      requires Valid()
      modifies this
      ensures Valid()
      ensures r == Err(InvalidProxy) && proxies == old(proxies)
    {
      AddWithoutProtocolFails(checks, Entries(), host, port);
      r := Add(host, port, None);
    }

    /**
     * `remove(host, port)`: delete the proxy with the parsed key, if any, keeping
     * the others in order; tells whether one was deleted.
     */
    method Remove(host: string, port: JsPort) returns (removed: bool)
      requires Valid()
      modifies this
      ensures Valid()
      ensures (Entries(), removed) == RemoveFrom(old(Entries()), host, port)
      ensures !removed ==> proxies == old(proxies)
      ensures removed ==>
        var i := FindKey(old(Entries()), host, ParseInt(port)).value;
        proxies == old(proxies[..i] + proxies[i + 1..])
    {
      ghost var es := Entries();
      var found := Exists(host, ParseInt(port));
      if found.Some? {
        var i := found.value;
        proxies := proxies[..i] + proxies[i + 1..];
        assert Entries() == es[..i] + es[i + 1..];
      }
      RemoveDeletesOnlyThatEntry(es, host, port);
      return found.Some?;
    }

    /**
     * `use(host, port, protocol, target, date)`: find the proxy with the port
     * as given, `add` it when it is not found, then record the usage on it.
     * Only that proxy's usage map changes; an added proxy stays even when the
     * usage is rejected.
     */
    method Use(host: string, port: JsPort, protocol: Option<string>,
               target: Option<string>, date: DateArg, now: int) returns (r: Result<()>)
      requires Valid()
      modifies this, proxies
      ensures Valid()
      ensures (r, Entries()) == UseIn(checks, old(Entries()), host, port, protocol, target, date, now)
      ensures proxies == old(proxies) || (proxies[..|old(proxies)|] == old(proxies) && |proxies| == |old(proxies)| + 1
                                          && fresh(proxies[|old(proxies)|]))
    {
      ghost var es0 := Entries();
      var found := Exists(host, port);
      if found.Some? {
        UseInFound(checks, es0, host, port, protocol, target, date, now);
        r := RecordOn(proxies[found.value], found.value, target, date, now);
      } else {
        var added := Add(host, port, protocol);
        if added.Err? {
          assert Entries() == es0;
          return Err(added.error);
        }
        assert proxies == old(proxies) || (proxies[..|old(proxies)|] == old(proxies)
                                           && |proxies| == |old(proxies)| + 1 && fresh(proxies[|old(proxies)|]));
        ghost var i := AddTo(checks, es0, host, port, protocol).value.1;
        UseInAfterAdd(checks, es0, host, port, protocol, target, date, now);
        r := RecordOn(added.value, i, target, date, now);
      }
    }

    /** `proxy.use(target, date)` on the pool's proxy at index `i`: only its usage map changes. */
    method RecordOn(proxy: HttpProxy, ghost i: nat, target: Option<string>, date: DateArg, now: int)
      returns (r: Result<()>)
      requires Valid() && i < |proxies| && proxies[i] == proxy
      modifies proxy
      ensures Valid()
      ensures (r, Entries()) == UseAt(checks, old(Entries()), i, target, date, now)
    {
      ghost var es := Entries();
      forall j | 0 <= j < |proxies| && j != i
        ensures proxies[j] != proxy
      {
        assert es[j].host != es[i].host || es[j].port != es[i].port;
      }
      var used := proxy.Use(checks, target, date, now);
      assert Entries() == UseAt(checks, es, i, target, date, now).1;
      r := if used.Err? then Err(used.error) else Ok(());
    }

    /**
     * The constructor's loop over its list: `add` each proxy in turn, stopping
     * at the first one that fails (the constructor then throws).
     */
    method AddEach(list: seq<ProxyArgs>) returns (r: Result<()>)
      requires Valid()
      modifies this
      ensures Valid()
      ensures var a := AddAll(checks, old(Entries()), list);
        && (r.Ok? <==> a.Ok?)
        && (a.Ok? ==> Entries() == a.value)
        && (a.Err? ==> r == Err(a.error))
    {
      var i := 0;
      while i < |list|
        invariant 0 <= i <= |list|
        invariant Valid()
        invariant AddAll(checks, old(Entries()), list) == AddAll(checks, Entries(), list[i..])
      {
        assert list[i..][0] == list[i] && list[i..][1..] == list[i + 1..];
        var added := Add(list[i].host, list[i].port, list[i].protocol);
        if added.Err? {
          return Err(added.error);
        }
        i := i + 1;
      }
      return Ok(());
    }
  }
}
