/**
 * The `salt_proxy` beacon: every interval, make sure each configured proxy
 * minion is running, starting the ones that are not, and report what was
 * done for each.
 *
 * Whether a proxy is running is a parameter (the `result` of
 * `salt_proxy.is_running`); starting one (`salt_proxy.configure_proxy` with
 * `start=True`) is recorded in a returned trace of calls.
 */
module SaltProxy {
  import opened Wrappers
  import opened Dicts
  import opened PyValue

  /** A call the beacon makes into the `salt_proxy` execution module. */
  datatype ProxyCall = IsRunning(proxy: string) | Start(proxy: string)

  function WasStarted(proxy: string): string { "Proxy " + proxy + " was started" }
  function AlreadyRunning(proxy: string): string { "Proxy " + proxy + " is already running" }

  /** What one pass of the loop reports about `proxy`. */
  function Report(proxy: string, running: string -> bool): Dict<string, string> {
    [(proxy, if running(proxy) then AlreadyRunning(proxy) else WasStarted(proxy))]
  }

  /** The calls one pass of the loop makes: ask whether it runs, and start it if it does not. */
  function ProxyCalls(proxy: string, running: string -> bool): seq<ProxyCall> {
    [IsRunning(proxy)] + (if running(proxy) then [] else [Start(proxy)])
  }

  /** The reports for `proxies`, in order: each has the proxy as its only key, with the message for what was done. */
  function Reports(proxies: seq<string>, running: string -> bool): (r: seq<Dict<string, string>>)
    ensures |r| == |proxies|
    ensures forall i :: 0 <= i < |proxies| ==> Keys(r[i]) == [proxies[i]]
    ensures forall i :: 0 <= i < |proxies| ==>
      Get(r[i], proxies[i]) == Some(if running(proxies[i]) then AlreadyRunning(proxies[i]) else WasStarted(proxies[i]))
  {
    if proxies == [] then []
    else Reports(proxies[..|proxies| - 1], running) + [Report(proxies[|proxies| - 1], running)]
  }

  /** The calls for `proxies`, in order. */
  function Trace(proxies: seq<string>, running: string -> bool): seq<ProxyCall> {
    if proxies == [] then []
    else Trace(proxies[..|proxies| - 1], running) + ProxyCalls(proxies[|proxies| - 1], running)
  }

  /** `_run_proxy_processes(proxies)`: one single-key report per proxy, and the calls made. */
  method RunProxyProcesses(proxies: seq<string>, running: string -> bool)
    returns (ret: seq<Dict<string, string>>, calls: seq<ProxyCall>)
    ensures ret == Reports(proxies, running)
    ensures calls == Trace(proxies, running)
  {
    ret := [];
    calls := [];
    var i := 0;
    while i < |proxies|
      invariant 0 <= i <= |proxies|
      invariant ret == Reports(proxies[..i], running)
      invariant calls == Trace(proxies[..i], running)
    {
      var proxy := proxies[i];
      assert proxies[..i + 1][..i] == proxies[..i];
      calls := calls + [IsRunning(proxy)];
      var result: Dict<string, string>;
      if !running(proxy) {
        calls := calls + [Start(proxy)];
        result := [(proxy, WasStarted(proxy))];
      } else {
        result := [(proxy, AlreadyRunning(proxy))];
      }
      ret := ret + [result];
      i := i + 1;
    }
    assert proxies[..i] == proxies;
  }

  /** Asked about exactly the configured proxies; started exactly those not running. */
  lemma {:induction false} TraceMeaning(proxies: seq<string>, running: string -> bool, p: string)
    ensures IsRunning(p) in Trace(proxies, running) <==> p in proxies
    ensures Start(p) in Trace(proxies, running) <==> p in proxies && !running(p)
  {
    if proxies != [] {
      var n := |proxies| - 1;
      TraceMeaning(proxies[..n], running, p);
      assert proxies == proxies[..n] + [proxies[n]];
    }
  }

  /** A proxy is started before the next one is looked at: the calls for each proxy come in configuration order. */
  lemma {:induction false} TraceOrder(proxies: seq<string>, ps: seq<string>, running: string -> bool)
    ensures Trace(proxies + ps, running) == Trace(proxies, running) + Trace(ps, running)
    decreases |ps|
  {
    if ps == [] {
      assert proxies + ps == proxies;
    } else {
      var n := |ps| - 1;
      assert (proxies + ps)[..|proxies + ps| - 1] == proxies + ps[..n];
      TraceOrder(proxies, ps[..n], running);
    }
  }

  // ---- validate ----

  const NotAList := "Configuration for salt_proxy beacon must be a list."
  const NoProxies := "Configuration for salt_proxy beacon requires proxies."
  const NotADict := "Proxies for salt_proxy beacon must be a dictionary."
  const Valid := "Valid beacon configuration"

  /** `validate(config)`; `listToDict` stands for `salt.utils.beacons.list_to_dict`. */
  function Validate(config: Value, listToDict: seq<Value> -> Dict<string, Value>): (r: (bool, string))
    ensures r.0 <==> (config.VList? && Get(listToDict(config.elems), "proxies").Some? &&
      Get(listToDict(config.elems), "proxies").value.VDict?)
    ensures r.0 ==> r.1 == Valid
    ensures !config.VList? ==> r.1 == NotAList
    ensures config.VList? && Get(listToDict(config.elems), "proxies").None? ==> r.1 == NoProxies
    ensures (config.VList? && Get(listToDict(config.elems), "proxies").Some? &&
             !Get(listToDict(config.elems), "proxies").value.VDict?) ==> r.1 == NotADict
  {
    if !config.VList? then (false, NotAList)
    else
      match Get(listToDict(config.elems), "proxies")
      case None => (false, NoProxies)
      case Some(p) => if p.VDict? then (true, Valid) else (false, NotADict)
  }

  // ---- beacon ----

  /**
   * `beacon(config)` on the configuration as one map, which `validate` has
   * accepted: the proxies are the keys of the `proxies` map, in order.
   */
  method Beacon(config: Dict<string, Value>, running: string -> bool)
    returns (ret: seq<Dict<string, string>>, calls: seq<ProxyCall>)
    requires Get(config, "proxies").Some? && Get(config, "proxies").value.VDict?
    ensures ret == Reports(Keys(Get(config, "proxies").value.items), running)
    ensures calls == Trace(Keys(Get(config, "proxies").value.items), running)
  {
    var proxies := Get(config, "proxies").value;
    ret, calls := RunProxyProcesses(Keys(proxies.items), running);
  }
}
