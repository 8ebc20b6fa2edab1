/**
 * The `salt_monitor` beacon: run execution-module functions every interval
 * and send an event for each one that returns something truthy.
 *
 * `salt_fun` is either one function name, or a list whose items are function
 * names or one-key maps from a function name to its `args` (a list) and
 * `kwargs` (a list of maps merged into one). The table of functions and the
 * functions themselves are parameters.
 */
module SaltMonitor {
  import opened Wrappers
  import opened Dicts
  import opened PyValue
  import opened Gathering

  /** The names of the execution-module functions the minion offers (the keys of `__salt__`). */
  type Functions = set<string>

  /** Calling an execution-module function by name with positional and keyword arguments. */
  type Runner = (string, seq<Value>, Dict<string, Value>) -> Value

  /** An event: a Python dictionary. */
  type Event = Dict<string, Value>

  // ---- _parse_args ----

  /** One `_kwargs.update(x)`; only a map is accepted. */
  function UpdateStep(acc: Result<Dict<string, Value>, Exc>, x: Value): Result<Dict<string, Value>, Exc> {
    if acc.Err? then acc
    else if x.VDict? then Ok(PutAll(acc.value, x.items))
    else Err(TypeError)
  }

  /** The maps of `kws` merged left to right into an empty one. */
  function Merged(kws: seq<Value>): Result<Dict<string, Value>, Exc> {
    Fold(Ok([]), kws, UpdateStep)
  }

  /** Every pair of every map in `kws`, in order. */
  function Pairs(kws: seq<Value>): seq<(string, Value)> {
    if kws == [] then []
    else
      var last := kws[|kws| - 1];
      Pairs(kws[..|kws| - 1]) + (if last.VDict? then last.items else [])
  }

  /** The loop `list(map(_kwargs.update, kwargs))`, updating one map in place. */
  method MergeKwargs(kws: seq<Value>) returns (r: Result<Dict<string, Value>, Exc>)
    ensures r == Merged(kws)
  {
    var merged := [];
    var i := 0;
    while i < |kws|
      invariant 0 <= i <= |kws|
      invariant Fold(Ok([]), kws[..i], UpdateStep) == Ok(merged)
    {
      FoldNext(Ok([]), kws, UpdateStep, i);
      var x := kws[i];
      if !x.VDict? {
        FoldSplit(Ok([]), kws, UpdateStep, i + 1);
        FoldFixed(Err(TypeError), kws[i + 1..], UpdateStep);
        return Err(TypeError);
      }
      merged := PutAll(merged, x.items);
      i := i + 1;
    }
    assert kws[..i] == kws;
    return Ok(merged);
  }

  /** Merging maps is one update with all their pairs. */
  lemma {:induction false} MergedPairs(kws: seq<Value>)
    requires forall x :: x in kws ==> x.VDict?
    ensures Merged(kws) == Ok(PutAll([], Pairs(kws)))
  {
    if kws != [] {
      var n := |kws| - 1;
      assert forall x :: x in kws[..n] ==> x in kws;
      MergedPairs(kws[..n]);
      assert kws[n] in kws;
      PutAllAppend([], Pairs(kws[..n]), kws[n].items);
    }
  }

  /** Merged maps hold exactly the keys of the maps, each with the value its last pair gives. */
  lemma MergedKeys(kws: seq<Value>, k: string)
    requires forall x :: x in kws ==> x.VDict?
    ensures Merged(kws).Ok?
    ensures Get(Merged(kws).value, k) == if k in Keys(Pairs(kws)) then Some(LastValue(Pairs(kws), k)) else None
  {
    MergedPairs(kws);
    GetPutAll([], Pairs(kws), k);
  }

  /** Merging maps none of which holds `k` leaves the value under `k` as it was. */
  lemma {:induction false} MergeUntouched(acc: Dict<string, Value>, ys: seq<Value>, k: string)
    requires forall y :: y in ys ==> y.VDict? && k !in Keys(y.items)
    ensures Fold(Ok(acc), ys, UpdateStep).Ok?
    ensures Get(Fold(Ok(acc), ys, UpdateStep).value, k) == Get(acc, k)
  {
    if ys != [] {
      var n := |ys| - 1;
      assert forall y :: y in ys[..n] ==> y in ys;
      MergeUntouched(acc, ys[..n], k);
      assert ys[n] in ys;
      GetPutAll(Fold(Ok(acc), ys[..n], UpdateStep).value, ys[n].items, k);
    }
  }

  /** A key of a later map overrides the same key of every earlier map. */
  lemma MergedLaterWins(kws: seq<Value>, i: nat, k: string)
    requires forall x :: x in kws ==> x.VDict?
    requires i < |kws| && k in Keys(kws[i].items)
    requires forall j :: i < j < |kws| ==> k !in Keys(kws[j].items)
    ensures Merged(kws).Ok? && Get(Merged(kws).value, k) == Some(LastValue(kws[i].items, k))
  {
    assert forall x :: x in kws[..i] ==> x in kws;
    MergedPairs(kws[..i]);
    FoldNext(Ok([]), kws, UpdateStep, i);
    var upto := Merged(kws[..i + 1]).value;
    GetPutAll(Merged(kws[..i]).value, kws[i].items, k);
    assert forall y :: y in kws[i + 1..] ==> y.VDict? && k !in Keys(y.items) by {
      forall y | y in kws[i + 1..]
        ensures y.VDict? && k !in Keys(y.items)
      {
        var j :| 0 <= j < |kws[i + 1..]| && kws[i + 1..][j] == y;
        assert kws[i + 1 + j] == y;
      }
    }
    MergeUntouched(upto, kws[i + 1..], k);
    FoldSplit(Ok([]), kws, UpdateStep, i + 1);
  }

  /**
   * `_parse_args(args_kwargs_dict)`: the positional and keyword arguments of
   * one function. `args` defaults to an empty list and `kwargs` to an empty
   * map; a non-empty `kwargs` list of maps is merged into one map.
   */
  function ParsedArgs(akd: Value): (r: Result<(Value, Value), Exc>)
    ensures !akd.VDict? ==> r == Err(AttributeError)
    ensures akd.VDict? && "args" !in Keys(akd.items) ==> r.Ok? ==> r.value.0 == VList([])
    ensures akd.VDict? && "kwargs" !in Keys(akd.items) ==> r.Ok? && r.value.1 == VDict([])
    ensures r.Ok? && "args" in Keys(akd.items) ==> r.value.0 == Get(akd.items, "args").value
    ensures r.Ok? && Truthy(r.value.1) ==> r.value.1.VDict?
  {
    if !akd.VDict? then Err(AttributeError)
    else
      var args := match Get(akd.items, "args") case Some(a) => a case None => VList([]);
      var kwargs := match Get(akd.items, "kwargs") case Some(k) => k case None => VDict([]);
      if !Truthy(kwargs) then Ok((args, kwargs))
      else
        match Iterate(kwargs)
        case Err(e) => Err(e)
        case Ok(kws) =>
          match Merged(kws)
          case Err(e) => Err(e)
          case Ok(m) => Ok((args, VDict(m)))
  }

  /** `_parse_args`, with its merging loop. */
  method ParseArgs(akd: Value) returns (r: Result<(Value, Value), Exc>)
    ensures r == ParsedArgs(akd)
  {
    if !akd.VDict? {
      return Err(AttributeError);
    }
    var args := match Get(akd.items, "args") case Some(a) => a case None => VList([]);
    var kwargs := match Get(akd.items, "kwargs") case Some(k) => k case None => VDict([]);
    if Truthy(kwargs) {
      var kws := Iterate(kwargs);
      if kws.Err? {
        return Err(kws.error);
      }
      var m := MergeKwargs(kws.value);
      if m.Err? {
        return Err(m.error);
      }
      kwargs := VDict(m.value);
    }
    return Ok((args, kwargs));
  }

  /** A `kwargs` list of maps is merged with later maps overriding earlier ones. */
  lemma ParsedKwargs(akd: Value, kws: seq<Value>, i: nat, k: string)
    requires akd.VDict? && Get(akd.items, "kwargs") == Some(VList(kws))
    requires forall x :: x in kws ==> x.VDict?
    requires i < |kws| && k in Keys(kws[i].items)
    requires forall j :: i < j < |kws| ==> k !in Keys(kws[j].items)
    ensures ParsedArgs(akd).Ok?
    ensures Get(ParsedArgs(akd).value.1.items, k) == Some(LastValue(kws[i].items, k))
  {
    MergedLaterWins(kws, i, k);
  }

  // ---- validate ----

  function NotInSalt(fun: string): string { fun + " not in __salt__" }
  function ArgsNotList(fun: string): string { "args key for fun " + fun + " must be list" }
  function KwargsNotList(fun: string): string { "kwargs key for fun " + fun + " must be list of key value pairs" }
  function NotAPair(v: Value): string { Str(v) + " is not a key / value pair" }
  function KeyNotAllowed(key: Value, fun: string): string { "key " + Str(key) + " not allowed under fun " + fun }
  const ValidConfig := "valid config"

  /** The check of one item of a `kwargs` list. */
  function PairCheck(kv: Value): Result<Option<string>, Exc> {
    if kv.VDict? then Ok(None) else Ok(Some(NotAPair(kv)))
  }

  /** The check of one key of a function's argument map. */
  function KeyCheck(fun: string, akd: Value): Value -> Result<Option<string>, Exc> {
    (key: Value) =>
      if key == VStr("args") then
        match GetItem(akd, "args")
        case Err(e) => Err(e)
        case Ok(v) => if v.VList? then Ok(None) else Ok(Some(ArgsNotList(fun)))
      else if key == VStr("kwargs") then
        match GetItem(akd, "kwargs")
        case Err(e) => Err(e)
        case Ok(v) => if v.VList? then First(v.elems, PairCheck) else Ok(Some(KwargsNotList(fun)))
      else Ok(Some(KeyNotAllowed(key, fun)))
  }

  /** `fun not in __salt__`; a list cannot be looked up in a dictionary. */
  function Known(fun: Value, salt: Functions): Result<Option<string>, Exc> {
    if fun.VStr? then (if fun.s in salt then Ok(None) else Ok(Some(NotInSalt(fun.s))))
    else if fun.VList? || fun.VDict? then Err(TypeError)
    else Ok(Some(NotInSalt(Str(fun))))
  }

  /** The check of one item of a `salt_fun` list: nothing, a complaint, or what Python raises. */
  function EntryCheck(salt: Functions): Value -> Result<Option<string>, Exc> {
    (entry: Value) =>
      if entry.VDict? then
        if entry.items == [] then Err(StopIteration)
        else
          var (fun, akd) := entry.items[0];
          match Iterate(akd)
          case Err(e) => Err(e)
          case Ok(keys) =>
            match First(keys, KeyCheck(fun, akd))
            case Ok(None) => Known(VStr(fun), salt)
            case other => other
      else Known(entry, salt)
  }

  /** `validate(config)` on the configuration as one map. */
  function Validate(config: Dict<string, Value>, salt: Functions): (r: Result<(bool, string), Exc>)
    ensures Get(config, "salt_fun") == None ==> r == Err(KeyError("salt_fun"))
    ensures r.Ok? && r.value.0 ==> r.value.1 == ValidConfig
  {
    match Get(config, "salt_fun")
    case None => Err(KeyError("salt_fun"))
    case Some(v) =>
      if v.VStr? then
        (if v.s in salt then Ok((true, ValidConfig)) else Ok((false, NotInSalt(v.s))))
      else
        match Iterate(v)
        case Err(e) => Err(e)
        case Ok(entries) =>
          match First(entries, EntryCheck(salt))
          case Err(e) => Err(e)
          case Ok(None) => Ok((true, ValidConfig))
          case Ok(Some(msg)) => Ok((false, msg))
  }

  /** What an accepted argument map looks like: only `args` (a list) and `kwargs` (a list of maps). */
  predicate ArgsWellFormed(akd: Value) {
    akd == VList([]) || akd == VStr([]) ||
    (akd.VDict? && forall k :: k in Keys(akd.items) ==> AllowedArg(k, Get(akd.items, k).value))
  }

  predicate AllowedArg(k: string, v: Value) {
    (k == "args" && v.VList?) ||
    (k == "kwargs" && v.VList? && forall x :: x in v.elems ==> x.VDict?)
  }

  /** What an accepted `salt_fun` item looks like. */
  predicate EntryWellFormed(entry: Value, salt: Functions) {
    (entry.VStr? && entry.s in salt) ||
    (entry.VDict? && entry.items != [] && entry.items[0].0 in salt && ArgsWellFormed(entry.items[0].1))
  }

  /** What an accepted configuration looks like. */
  predicate Accepted(config: Dict<string, Value>, salt: Functions) {
    match Get(config, "salt_fun")
    case None => false
    case Some(v) =>
      if v.VStr? then v.s in salt
      else Iterate(v).Ok? && forall e :: e in Iterate(v).value ==> EntryWellFormed(e, salt)
  }

  lemma PairsMeaning(elems: seq<Value>)
    ensures First(elems, PairCheck) == Ok(None) <==> forall x :: x in elems ==> x.VDict?
    ensures First(elems, PairCheck).Ok?
  {
    FirstFound(elems, PairCheck);
  }

  /** One key of an argument map passes exactly when it is allowed with its value. */
  lemma KeyCheckMeaning(fun: string, akd: Value, k: string)
    requires akd.VDict? && k in Keys(akd.items)
    ensures KeyCheck(fun, akd)(VStr(k)) == Ok(None) <==> AllowedArg(k, Get(akd.items, k).value)
  {
    var v := Get(akd.items, k).value;
    if k == "kwargs" && v.VList? {
      PairsMeaning(v.elems);
    }
  }

  /** The keys of an argument map pass exactly when the map is well formed. */
  lemma KeysMeaning(fun: string, akd: Value)
    requires Iterate(akd).Ok?
    ensures First(Iterate(akd).value, KeyCheck(fun, akd)) == Ok(None) <==> ArgsWellFormed(akd)
  {
    var keys := Iterate(akd).value;
    var f := KeyCheck(fun, akd);
    FirstFound(keys, f);
    if akd.VDict? {
      KeysMeaningDict(fun, akd);
    } else if akd.VList? && akd.elems != [] {
      assert f(keys[0]) != Ok(None);
    } else if akd.VStr? && akd.s != [] {
      assert keys[0] == VStr([akd.s[0]]);
      assert f(keys[0]) != Ok(None);
    }
  }

  lemma KeysMeaningDict(fun: string, akd: Value)
    requires akd.VDict?
    ensures (forall i :: 0 <= i < |akd.items| ==> KeyCheck(fun, akd)(Iterate(akd).value[i]) == Ok(None)) <==>
      ArgsWellFormed(akd)
  {
    var keys := Iterate(akd).value;
    var f := KeyCheck(fun, akd);
    var ks := Keys(akd.items);
    if forall i :: 0 <= i < |akd.items| ==> f(keys[i]) == Ok(None) {
      forall k | k in ks
        ensures AllowedArg(k, Get(akd.items, k).value)
      {
        var i :| 0 <= i < |akd.items| && ks[i] == k;
        assert keys[i] == VStr(k);
        KeyCheckMeaning(fun, akd, k);
      }
    }
    if ArgsWellFormed(akd) {
      forall i | 0 <= i < |keys|
        ensures f(keys[i]) == Ok(None)
      {
        assert ks[i] == akd.items[i].0 && keys[i] == VStr(ks[i]);
        KeyCheckMeaning(fun, akd, ks[i]);
      }
    }
  }

  /** One item of `salt_fun` passes exactly when it is well formed. */
  lemma EntryMeaning(salt: Functions, entry: Value)
    ensures EntryCheck(salt)(entry) == Ok(None) <==> EntryWellFormed(entry, salt)
  {
    if entry.VDict? && entry.items != [] && Iterate(entry.items[0].1).Ok? {
      KeysMeaning(entry.items[0].0, entry.items[0].1);
    }
  }

  /**
   * `validate` accepts exactly the well-formed configurations, and then says
   * "valid config".
   */
  lemma ValidateMeaning(config: Dict<string, Value>, salt: Functions)
    ensures Validate(config, salt) == Ok((true, ValidConfig)) <==> Accepted(config, salt)
  {
    var v := Get(config, "salt_fun");
    if v.Some? && !v.value.VStr? && Iterate(v.value).Ok? {
      var entries := Iterate(v.value).value;
      FirstFound(entries, EntryCheck(salt));
      forall e | e in entries
        ensures EntryCheck(salt)(e) == Ok(None) <==> EntryWellFormed(e, salt)
      {
        EntryMeaning(salt, e);
      }
      if First(entries, EntryCheck(salt)) == Ok(None) {
        forall e | e in entries
          ensures EntryWellFormed(e, salt)
        {
          var i :| 0 <= i < |entries| && entries[i] == e;
        }
      }
    }
  }

  // ---- beacon ----

  /** The event for one truthy return: name and return, then the arguments that are not empty. */
  function MonitorEvent(fun: string, ret: Value, args: Value, kwargs: Value): Event {
    [("salt_fun", VStr(fun)), ("ret", ret)] +
    (if Truthy(args) then [("args", args)] else []) +
    (if Truthy(kwargs) then [("kwargs", kwargs)] else [])
  }

  /** The keys of an event: the function and its return first, then the arguments that are not empty. */
  lemma MonitorEventKeys(fun: string, ret: Value, args: Value, kwargs: Value)
    ensures Keys(MonitorEvent(fun, ret, args, kwargs)) ==
      ["salt_fun", "ret"] + (if Truthy(args) then ["args"] else []) + (if Truthy(kwargs) then ["kwargs"] else [])
  {
    var e := MonitorEvent(fun, ret, args, kwargs);
    assert Keys(e) == ["salt_fun", "ret"] + Keys(e[2..]);
  }

  /** An event names the function and its return, and carries `args` and `kwargs` exactly when they are not empty. */
  lemma MonitorEventShape(fun: string, ret: Value, args: Value, kwargs: Value)
    ensures var e := MonitorEvent(fun, ret, args, kwargs);
      Get(e, "salt_fun") == Some(VStr(fun)) && Get(e, "ret") == Some(ret) &&
      ("args" in Keys(e) <==> Truthy(args)) && ("kwargs" in Keys(e) <==> Truthy(kwargs)) &&
      (Truthy(args) ==> Get(e, "args") == Some(args)) &&
      (Truthy(kwargs) ==> Get(e, "kwargs") == Some(kwargs))
  {
    MonitorEventKeys(fun, ret, args, kwargs);
    var e := MonitorEvent(fun, ret, args, kwargs);
    var head := [("salt_fun", VStr(fun)), ("ret", ret)];
    var last := if Truthy(kwargs) then [("kwargs", kwargs)] else [];
    var tail := (if Truthy(args) then [("args", args)] else []) + last;
    assert e == head + tail;
    assert Get(e, "ret") == Get(e[1..], "ret");
    assert "args" !in Keys(head) && "kwargs" !in Keys(head) by {
      assert Keys(head) == ["salt_fun", "ret"];
    }
    GetAppend(head, tail, "args");
    GetAppend(head, tail, "kwargs");
    if Truthy(args) {
      assert tail == [("args", args)] + last;
      assert Get(tail, "kwargs") == Get(last, "kwargs");
    }
  }

  /** The function an item of `salt_fun` names, with its positional and keyword arguments. */
  function EntryCall(entry: Value): Result<(string, Value, Value), Exc> {
    if entry.VDict? then
      if entry.items == [] then Err(IndexError)
      else
        match ParsedArgs(entry.items[0].1)
        case Err(e) => Err(e)
        case Ok(parsed) => Ok((entry.items[0].0, parsed.0, parsed.1))
    else if entry.VStr? then Ok((entry.s, VList([]), VDict([])))
    else if entry.VList? then Err(TypeError)
    else Err(KeyError(Str(entry)))
  }

  /**
   * `__salt__[fun](*args, **kwargs)` for one item of `salt_fun`, and an event
   * when its return is truthy: an unknown function is a `KeyError`, and an
   * event names the item's function and a truthy return.
   */
  function EntryEvent(salt: Functions, run: Runner, entry: Value): (r: Result<Option<Event>, Exc>)
    ensures r.Ok? ==> EntryCall(entry).Ok? && EntryCall(entry).value.0 in salt
    ensures EntryCall(entry).Ok? && EntryCall(entry).value.0 !in salt ==> r == Err(KeyError(EntryCall(entry).value.0))
    ensures r.Ok? && r.value.Some? ==>
      Get(r.value.value, "salt_fun") == Some(VStr(EntryCall(entry).value.0)) &&
      Get(r.value.value, "ret").Some? && Truthy(Get(r.value.value, "ret").value)
  {
    match EntryCall(entry)
    case Err(e) => Err(e)
    case Ok(call) =>
      var (fun, args, kwargs) := call;
      if fun !in salt then Err(KeyError(fun))
      else if Iterate(args).Err? || !kwargs.VDict? then Err(TypeError)
      else
        var ret := run(fun, Iterate(args).value, kwargs.items);
        MonitorEventShape(fun, ret, args, kwargs);
        if Truthy(ret) then Ok(Some(MonitorEvent(fun, ret, args, kwargs))) else Ok(None)
  }

  function EntryStep(salt: Functions, run: Runner): Value -> Result<Option<Event>, Exc> {
    (entry: Value) => EntryEvent(salt, run, entry)
  }

  /** `beacon(config)`: the events of one interval, or what Python raises. */
  function BeaconEvents(config: Dict<string, Value>, salt: Functions, run: Runner): Result<seq<Event>, Exc> {
    match Get(config, "salt_fun")
    case None => Err(KeyError("salt_fun"))
    case Some(v) =>
      if v.VStr? then
        (if v.s in salt then Ok([[("salt_fun", v), ("ret", run(v.s, [], []))]]) else Err(KeyError(v.s)))
      else
        match Iterate(v)
        case Err(e) => Err(e)
        case Ok(entries) => Gather(entries, EntryStep(salt, run))
  }

  /** `beacon`, with its loop over the configured functions. */
  method Beacon(config: Dict<string, Value>, salt: Functions, run: Runner) returns (r: Result<seq<Event>, Exc>)
    ensures r == BeaconEvents(config, salt, run)
  {
    var funs := Get(config, "salt_fun");
    if funs.None? {
      return Err(KeyError("salt_fun"));
    }
    var v := funs.value;
    if v.VStr? {
      if v.s !in salt {
        return Err(KeyError(v.s));
      }
      var ret := run(v.s, [], []);
      return Ok([[("salt_fun", v), ("ret", ret)]]);
    }
    var entries := Iterate(v);
    if entries.Err? {
      return Err(entries.error);
    }
    r := RunEntries(entries.value, salt, run);
  }

  /** The loop of `beacon` over a list of functions. */
  method RunEntries(entries: seq<Value>, salt: Functions, run: Runner) returns (r: Result<seq<Event>, Exc>)
    ensures r == Gather(entries, EntryStep(salt, run))
  {
    var events := [];
    var i := 0;
    while i < |entries|
      invariant 0 <= i <= |entries|
      invariant Gather(entries[..i], EntryStep(salt, run)) == Ok(events)
    {
      GatherNext(entries, EntryStep(salt, run), i);
      var event := EntryStep(salt, run)(entries[i]);
      if event.Err? {
        GatherErrorStays(entries, EntryStep(salt, run), i + 1);
        return Err(event.error);
      }
      if event.value.Some? {
        events := events + [event.value.value];
      }
      i := i + 1;
    }
    assert entries[..i] == entries;
    return Ok(events);
  }

  /** A single function name always gives exactly one event, whatever it returns. */
  lemma SingleFunction(config: Dict<string, Value>, salt: Functions, run: Runner, fun: string)
    requires Get(config, "salt_fun") == Some(VStr(fun)) && fun in salt
    ensures var r := BeaconEvents(config, salt, run);
      r.Ok? && |r.value| == 1 &&
      Get(r.value[0], "salt_fun") == Some(VStr(fun)) && Get(r.value[0], "ret") == Some(run(fun, [], []))
  {
  }

  /**
   * With a list of functions, the events are exactly those of the functions
   * whose return is truthy, each naming its function and a truthy return.
   */
  lemma ListEvents(config: Dict<string, Value>, salt: Functions, run: Runner, e: Event)
    requires Get(config, "salt_fun").Some? && !Get(config, "salt_fun").value.VStr?
    requires BeaconEvents(config, salt, run).Ok?
    ensures var entries := Iterate(Get(config, "salt_fun").value).value;
      e in BeaconEvents(config, salt, run).value <==>
      exists entry :: entry in entries && EntryEvent(salt, run, entry) == Ok(Some(e))
    ensures e in BeaconEvents(config, salt, run).value ==>
      Get(e, "ret").Some? && Truthy(Get(e, "ret").value)
  {
    var entries := Iterate(Get(config, "salt_fun").value).value;
    GatherMember(entries, EntryStep(salt, run), e);
  }

  /** When every function returns something truthy, there is one event per function, in configuration order. */
  lemma ListEventsInOrder(config: Dict<string, Value>, salt: Functions, run: Runner)
    requires Get(config, "salt_fun").Some? && !Get(config, "salt_fun").value.VStr?
    requires Iterate(Get(config, "salt_fun").value).Ok?
    requires var entries := Iterate(Get(config, "salt_fun").value).value;
      forall x :: x in entries ==> EntryEvent(salt, run, x).Ok? && EntryEvent(salt, run, x).value.Some?
    ensures var entries := Iterate(Get(config, "salt_fun").value).value;
      var r := BeaconEvents(config, salt, run);
      r.Ok? && |r.value| == |entries| &&
      forall i :: 0 <= i < |entries| ==> r.value[i] == EntryEvent(salt, run, entries[i]).value.value
  {
    var entries := Iterate(Get(config, "salt_fun").value).value;
    GatherAll(entries, EntryStep(salt, run));
  }
}
