/**
 * The `network_info` beacon: per-interface thresholds on the network
 * counters, and an event for each interface where one of them is met.
 *
 * The counters psutil reports (`net_io_counters(pernic=True)`) are the
 * parameter `stats`, from interface name to the attributes the counter
 * object has. Salt's `list_to_dict`, which merges the beacon's list of
 * one-key maps, is the parameter `listToDict`.
 */
module NetworkInfo {
  import opened Wrappers
  import opened Dicts
  import opened PyValue
  import opened Gathering

  /** The counters, in the order the beacon reads them. */
  const Attrs: seq<string> := ["bytes_sent", "bytes_recv", "packets_sent", "packets_recv", "errin", "errout", "dropin", "dropout"]

  /** The keys an interface's configuration may hold. */
  const ValidItems: seq<string> := ["type"] + Attrs

  /** A counter object: the attributes it has, with their values. */
  type Counters = Dict<string, int>

  /** `_to_list(obj)`: the named counters the object has, in `Attrs` order. */
  method ToList(obj: Counters) returns (ret: Counters)
    ensures ret == Collect(Attrs, Picker(obj))
  {
    ret := CollectPairs(Attrs, Picker(obj));
  }

  /** `_to_list` keeps exactly the named counters the object has, with their values. */
  lemma ToListMeaning(obj: Counters, attr: string)
    ensures attr in Keys(Collect(Attrs, Picker(obj))) <==> attr in Attrs && attr in Keys(obj)
    ensures Get(Collect(Attrs, Picker(obj)), attr) == if attr in Attrs then Get(obj, attr) else None
  {
    CollectPicked(Attrs, obj, attr);
  }

  // ---- validate ----

  /** `config.get("interfaces", {})`. */
  function InterfacesValue(config: Dict<string, Value>): Value {
    match Get(config, "interfaces")
    case None => VDict([])
    case Some(v) => v
  }

  const NotAList := "Configuration for network_info beacon must be a list."
  const NotDicts := "Configuration for network_info beacon must be a list of dictionaries."
  const NoValidItem := "Invalid configuration item in Beacon configuration."
  const Valid := "Valid beacon configuration"

  /** Whether one interface's configuration is a map naming at least one valid item. */
  predicate InterfaceValid(v: Value) {
    v.VDict? && exists k :: k in Keys(v.items) && k in ValidItems
  }

  /** What `validate` says about an interface configuration that is not acceptable. */
  function Complaint(v: Value): string {
    if v.VDict? then NoValidItem else NotDicts
  }

  /** The check of `config["interfaces"][item]`: what the lookup raises, a complaint, or acceptance. */
  function Verdict(lookup: Result<Value, Exc>): Result<(bool, string), Exc> {
    match lookup
    case Err(e) => Err(e)
    case Ok(v) => if InterfaceValid(v) then Ok((true, Valid)) else Ok((false, Complaint(v)))
  }

  /** Whether looking `item` up in `ifaces` succeeds and gives an acceptable interface configuration. */
  predicate Passes(ifaces: Value, item: Value) {
    Verdict(Subscript(ifaces, item)) == Ok((true, Valid))
  }

  /**
   * The loop of `validate` over the items of `ifaces`, looking each one up
   * in `ifaces` again: the first item whose lookup raises or whose
   * configuration is not acceptable decides the outcome.
   */
  function CheckInterfaces(ifaces: Value, items: seq<Value>): (r: Result<(bool, string), Exc>)
    ensures r == Ok((true, Valid)) <==> forall i :: 0 <= i < |items| ==> Passes(ifaces, items[i])
    ensures r != Ok((true, Valid)) ==> exists i :: (0 <= i < |items| &&
      (forall j :: 0 <= j < i ==> Passes(ifaces, items[j])) && r == Verdict(Subscript(ifaces, items[i])))
  {
    if items == [] then Ok((true, Valid))
    else if !Passes(ifaces, items[0]) then Verdict(Subscript(ifaces, items[0]))
    else
      var rest := CheckInterfaces(ifaces, items[1..]);
      FirstFailureShift(ifaces, items, rest);
      rest
  }

  /** A first failing item of the tail, after a passing head, is a first failing item of the whole. */
  lemma FirstFailureShift(ifaces: Value, items: seq<Value>, r: Result<(bool, string), Exc>)
    requires items != [] && Passes(ifaces, items[0])
    requires r != Ok((true, Valid)) ==> exists k :: (0 <= k < |items[1..]| &&
      (forall j :: 0 <= j < k ==> Passes(ifaces, items[1..][j])) && r == Verdict(Subscript(ifaces, items[1..][k])))
    ensures r != Ok((true, Valid)) ==> exists i :: (0 <= i < |items| &&
      (forall j :: 0 <= j < i ==> Passes(ifaces, items[j])) && r == Verdict(Subscript(ifaces, items[i])))
  {
    if r == Ok((true, Valid)) { return; }
    var k :| 0 <= k < |items[1..]| && (forall j :: 0 <= j < k ==> Passes(ifaces, items[1..][j])) &&
      r == Verdict(Subscript(ifaces, items[1..][k]));
    assert forall j :: 0 < j < |items| ==> items[j] == items[1..][j - 1];
    assert r == Verdict(Subscript(ifaces, items[k + 1]));
  }

  /** `validate(config)`. */
  function Validate(config: Value, listToDict: seq<Value> -> Dict<string, Value>): (r: Result<(bool, string), Exc>)
    ensures !config.VList? ==> r == Ok((false, NotAList))
    ensures config.VList? ==>
      (var ifaces := InterfacesValue(listToDict(config.elems));
       Iterate(ifaces).Err? ==> r == Err(Iterate(ifaces).error))
  {
    if !config.VList? then Ok((false, NotAList))
    else
      var ifaces := InterfacesValue(listToDict(config.elems));
      match Iterate(ifaces)
      case Err(e) => Err(e)
      case Ok(items) => CheckInterfaces(ifaces, items)
  }

  /** Interfaces given as a map are looked up by their own names, so checking them never raises. */
  lemma DictInterfacesNeverRaise(config: Value, listToDict: seq<Value> -> Dict<string, Value>)
    requires config.VList? && InterfacesValue(listToDict(config.elems)).VDict?
    ensures Validate(config, listToDict).Ok?
  {
  }

  /**
   * A configuration the beacon accepts is a list whose interfaces are a map
   * in which every interface is a map naming a valid item, or iterate to
   * nothing at all (absent, an empty list, empty text).
   */
  lemma ValidateAccepts(config: Value, listToDict: seq<Value> -> Dict<string, Value>)
    requires Validate(config, listToDict) == Ok((true, Valid))
    ensures config.VList?
    ensures var ifaces := InterfacesValue(listToDict(config.elems));
      Iterate(ifaces) == Ok([]) ||
      (ifaces.VDict? && forall name :: name in Keys(ifaces.items) ==> InterfaceValid(Get(ifaces.items, name).value))
  {
    var ifaces := InterfacesValue(listToDict(config.elems));
    var items := Iterate(ifaces).value;
    assert forall i :: 0 <= i < |items| ==> Passes(ifaces, items[i]);
    if items != [] {
      if ifaces.VList? {
        ListNeverPasses(ifaces.elems);
      } else if ifaces.VDict? {
        forall name | name in Keys(ifaces.items)
          ensures InterfaceValid(Get(ifaces.items, name).value)
        {
          var i :| 0 <= i < |ifaces.items| && Keys(ifaces.items)[i] == name;
          assert items[i] == VStr(name);
          assert Passes(ifaces, items[i]);
        }
      }
    }
  }

  /**
   * A list of interfaces is looked up by its own items: every item that
   * can index it is a number, and so is what it finds, so not every item
   * of a non-empty list passes.
   */
  lemma ListNeverPasses(elems: seq<Value>)
    requires elems != []
    ensures exists i :: 0 <= i < |elems| && !Passes(VList(elems), elems[i])
  {
    var l := VList(elems);
    if !Passes(l, elems[0]) {
      assert 0 < |elems| && !Passes(l, elems[0]);
    } else {
      var x := Subscript(l, elems[0]).value;
      assert x in elems;
      var i :| 0 <= i < |elems| && elems[i] == x;
      assert x.VDict?;
      assert Subscript(l, elems[i]) == Err(TypeError);
    }
  }

  /** `interfaces: [0]` looks up its own item 0, a number, and is refused as not a list of maps. */
  lemma ZeroListRefused(config: Value, listToDict: seq<Value> -> Dict<string, Value>)
    requires config.VList? && InterfacesValue(listToDict(config.elems)) == VList([VInt(0)])
    ensures Validate(config, listToDict) == Ok((false, NotDicts))
  {
    var ifaces := VList([VInt(0)]);
    assert Subscript(ifaces, VInt(0)) == Ok(VInt(0));
  }

  /** `interfaces: [True]` looks up position 1 of a one-item list, which raises `IndexError`. */
  lemma TrueListRaises(config: Value, listToDict: seq<Value> -> Dict<string, Value>)
    requires config.VList? && InterfacesValue(listToDict(config.elems)) == VList([VBool(true)])
    ensures Validate(config, listToDict) == Err(IndexError)
  {
    var ifaces := VList([VBool(true)]);
    assert Subscript(ifaces, VBool(true)) == Err(IndexError);
  }

  // ---- beacon ----

  /** Whether an interface compares its counters with `>`: only the type `greater` does. */
  predicate ComparesGreater(cfg: Dict<string, Value>) {
    Get(cfg, "type") == Some(VStr("greater"))
  }

  /**
   * Whether the counter `attr` meets its threshold. The threshold is read
   * with `int()` first; `greater` compares with `>`, where a missing counter
   * cannot be compared, and every other type, or none, compares with `==`,
   * where a missing counter never equals it.
   */
  function Fires(cfg: Dict<string, Value>, counters: Counters, want: Value, attr: string): Result<bool, Exc> {
    match ToInt(want)
    case Err(e) => Err(e)
    case Ok(n) =>
      var have := Get(counters, attr);
      if ComparesGreater(cfg) then
        if have.None? then Err(TypeError) else Ok(have.value > n)
      else Ok(have == Some(n))
  }

  /** One pass over the counters: the counter named if it is configured and fires. */
  function AttrStep(cfg: Dict<string, Value>, counters: Counters): string -> Result<Option<string>, Exc> {
    attr =>
      match Get(cfg, attr)
      case None => Ok(None)
      case Some(want) =>
        match Fires(cfg, counters, want, attr)
        case Err(e) => Err(e)
        case Ok(b) => Ok(if b then Some(attr) else None)
  }

  /** The counters of one interface that fire, in `Attrs` order. */
  function Firing(cfg: Dict<string, Value>, counters: Counters): Result<seq<string>, Exc> {
    Gather(Attrs, AttrStep(cfg, counters))
  }

  /** `_diff` at the end of the loop: whether any counter fired. */
  function Triggered(cfg: Dict<string, Value>, counters: Counters): Result<bool, Exc> {
    match Firing(cfg, counters)
    case Err(e) => Err(e)
    case Ok(fired) => Ok(fired != [])
  }

  /** One counter more: what the loop of `Diff` learns from `Attrs[i]`. */
  lemma DiffStep(cfg: Dict<string, Value>, counters: Counters, i: nat)
    requires i < |Attrs| && Gather(Attrs[..i], AttrStep(cfg, counters)).Ok?
    ensures var before := Gather(Attrs[..i], AttrStep(cfg, counters)).value;
      var after := Gather(Attrs[..i + 1], AttrStep(cfg, counters));
      match Get(cfg, Attrs[i])
      case None => after == Ok(before)
      case Some(want) =>
        match Fires(cfg, counters, want, Attrs[i])
        case Err(e) => after == Err(e)
        case Ok(b) => after.Ok? && (after.value != [] <==> before != [] || b)
  {
    GatherNext(Attrs, AttrStep(cfg, counters), i);
  }

  /** The loop that sets `_diff` for one interface; it reads every configured counter even after one fired. */
  method Diff(cfg: Dict<string, Value>, counters: Counters) returns (r: Result<bool, Exc>)
    ensures r == Triggered(cfg, counters)
  {
    var diff := false;
    var i := 0;
    while i < |Attrs|
      invariant 0 <= i <= |Attrs|
      invariant Gather(Attrs[..i], AttrStep(cfg, counters)).Ok?
      invariant diff <==> Gather(Attrs[..i], AttrStep(cfg, counters)).value != []
    {
      var attr := Attrs[i];
      DiffStep(cfg, counters, i);
      match Get(cfg, attr) {
        case None =>
        case Some(want) =>
          var fires := Fires(cfg, counters, want, attr);
          if fires.Err? {
            GatherErrorStays(Attrs, AttrStep(cfg, counters), i + 1);
            return Err(fires.error);
          }
          if fires.value {
            diff := true;
          }
      }
      i := i + 1;
    }
    assert Attrs[..i] == Attrs;
    return Ok(diff);
  }

  /** Whether the counter `attr` is configured for the interface and meets its threshold. */
  predicate Fired(cfg: Dict<string, Value>, counters: Counters, attr: string) {
    Get(cfg, attr).Some? && Fires(cfg, counters, Get(cfg, attr).value, attr) == Ok(true)
  }

  /** An interface fires exactly when one of its configured counters meets its threshold; counters not configured play no part. */
  lemma FiringMeaning(cfg: Dict<string, Value>, counters: Counters)
    requires Firing(cfg, counters).Ok?
    ensures Firing(cfg, counters).value != [] <==> exists attr :: attr in Attrs && Fired(cfg, counters, attr)
  {
    var f := AttrStep(cfg, counters);
    GatherNonEmpty(Attrs, f);
    forall attr
      ensures f(attr).Ok? ==> (f(attr).value.Some? <==> Fired(cfg, counters, attr))
    {
      AttrStepFired(cfg, counters, attr);
    }
  }

  lemma AttrStepFired(cfg: Dict<string, Value>, counters: Counters, attr: string)
    ensures AttrStep(cfg, counters)(attr).Ok? ==> (AttrStep(cfg, counters)(attr).value.Some? <==> Fired(cfg, counters, attr))
  {
  }

  /** `greater` is strict: a counter equal to its threshold does not fire, one above it does. */
  lemma GreaterIsStrict(cfg: Dict<string, Value>, counters: Counters, attr: string, n: int)
    requires Get(cfg, "type") == Some(VStr("greater")) && Get(counters, attr) == Some(n)
    ensures Fires(cfg, counters, VInt(n), attr) == Ok(false)
    ensures Fires(cfg, counters, VInt(n - 1), attr) == Ok(true)
  {
  }

  /**
   * Under any type but `greater` (`equal`, none at all, or any other text)
   * a counter fires exactly when it equals its threshold read with `int()`,
   * and a threshold `int()` refuses raises.
   */
  lemma EqualUnlessGreater(cfg: Dict<string, Value>, counters: Counters, attr: string, want: Value)
    requires Get(cfg, "type") != Some(VStr("greater"))
    ensures ToInt(want).Err? ==> Fires(cfg, counters, want, attr) == Err(ToInt(want).error)
    ensures ToInt(want).Ok? ==> Fires(cfg, counters, want, attr) == Ok(Get(counters, attr) == Some(ToInt(want).value))
  {
  }

  /** The event for an interface whose counters fired: its name and its counter snapshot. */
  datatype Event = Event(interface: string, networkInfo: Counters)

  /** `config["interfaces"][name]`, a map once `validate` has accepted the configuration. */
  function InterfaceConfig(ifaces: Dict<string, Value>, name: string): Dict<string, Value> {
    match Get(ifaces, name)
    case Some(v) => if v.VDict? then v.items else []
    case None => []
  }

  /** One pass over the configured interfaces. */
  function InterfaceStep(stats: Dict<string, Counters>, ifaces: Dict<string, Value>): string -> Result<Option<Event>, Exc> {
    name =>
      match Get(stats, name)
      case None => Ok(None)
      case Some(counters) =>
        var cfg := InterfaceConfig(ifaces, name);
        match Triggered(cfg, counters)
        case Err(e) => Err(e)
        case Ok(diff) => Ok(if diff then Some(Event(name, Collect(Attrs, Picker(counters)))) else None)
  }

  /** The events of one beacon run, in configuration order. */
  function BeaconEvents(ifaces: Dict<string, Value>, stats: Dict<string, Counters>): Result<seq<Event>, Exc> {
    Gather(Keys(ifaces), InterfaceStep(stats, ifaces))
  }

  /** The interfaces the beacon walks: those of the map; an accepted configuration that is not a map walks none. */
  function ConfiguredInterfaces(config: Dict<string, Value>): Dict<string, Value> {
    var ifaces := InterfacesValue(config);
    if ifaces.VDict? then ifaces.items else []
  }

  /** `beacon(config)` on a configuration `validate` accepted. */
  method Beacon(config: Value, listToDict: seq<Value> -> Dict<string, Value>, stats: Dict<string, Counters>)
    returns (r: Result<seq<Event>, Exc>)
    requires Validate(config, listToDict) == Ok((true, Valid))
    ensures r == BeaconEvents(ConfiguredInterfaces(listToDict(config.elems)), stats)
  {
    ValidateAccepts(config, listToDict);
    var ifaces := InterfacesValue(listToDict(config.elems));
    if ifaces.VDict? {
      r := Events(ifaces.items, stats);
    } else {
      r := Ok([]);
    }
  }

  /** The loop over the configured interfaces, appending an event for each that fired. */
  method Events(ifaces: Dict<string, Value>, stats: Dict<string, Counters>) returns (r: Result<seq<Event>, Exc>)
    ensures r == BeaconEvents(ifaces, stats)
  {
    var names := Keys(ifaces);
    var ret := [];
    var i := 0;
    while i < |names|
      invariant 0 <= i <= |names|
      invariant Gather(names[..i], InterfaceStep(stats, ifaces)) == Ok(ret)
    {
      var name := names[i];
      GatherNext(names, InterfaceStep(stats, ifaces), i);
      var event := InterfaceEvent(name, ifaces, stats);
      if event.Err? {
        GatherErrorStays(names, InterfaceStep(stats, ifaces), i + 1);
        return Err(event.error);
      }
      if event.value.Some? {
        ret := ret + [event.value.value];
      }
      i := i + 1;
    }
    assert names[..i] == names;
    return Ok(ret);
  }

  /** One pass of the beacon loop: an event if the interface is known and one of its counters fired. */
  method InterfaceEvent(name: string, ifaces: Dict<string, Value>, stats: Dict<string, Counters>)
    returns (r: Result<Option<Event>, Exc>)
    ensures r == InterfaceStep(stats, ifaces)(name)
  {
    match Get(stats, name) {
      case None => return Ok(None);
      case Some(counters) =>
        var cfg := InterfaceConfig(ifaces, name);
        var diff := Diff(cfg, counters);
        if diff.Err? {
          return Err(diff.error);
        }
        if diff.value {
          var info := ToList(counters);
          return Ok(Some(Event(name, info)));
        }
        return Ok(None);
    }
  }

  /**
   * Every event is for a configured interface psutil reports, one of whose
   * counters fired, and carries that interface's snapshot; every such
   * interface has its event.
   */
  lemma BeaconMeaning(ifaces: Dict<string, Value>, stats: Dict<string, Counters>, e: Event)
    requires BeaconEvents(ifaces, stats).Ok?
    ensures e in BeaconEvents(ifaces, stats).value <==>
      e.interface in Keys(ifaces) && Get(stats, e.interface).Some? &&
      InterfaceStep(stats, ifaces)(e.interface) == Ok(Some(e))
  {
    var f := InterfaceStep(stats, ifaces);
    GatherMember(Keys(ifaces), f, e);
    forall name | f(name).Ok? && f(name).value.Some?
      ensures f(name).value.value.interface == name && Get(stats, name).Some?
    {
      InterfaceStepNames(stats, ifaces, name);
    }
  }

  lemma InterfaceStepNames(stats: Dict<string, Counters>, ifaces: Dict<string, Value>, name: string)
    requires InterfaceStep(stats, ifaces)(name).Ok? && InterfaceStep(stats, ifaces)(name).value.Some?
    ensures InterfaceStep(stats, ifaces)(name).value.value.interface == name && Get(stats, name).Some?
  {
  }

  /** An event is only for an interface psutil reports whose counters fired, with its snapshot. */
  lemma EventMeansFired(ifaces: Dict<string, Value>, stats: Dict<string, Counters>, name: string, e: Event)
    requires BeaconEvents(ifaces, stats).Ok? && e in BeaconEvents(ifaces, stats).value && e.interface == name
    ensures Get(stats, name).Some?
    ensures var cfg := InterfaceConfig(ifaces, name);
      Triggered(cfg, Get(stats, name).value) == Ok(true)
    ensures e.networkInfo == Collect(Attrs, Picker(Get(stats, name).value))
  {
    BeaconMeaning(ifaces, stats, e);
  }
}
