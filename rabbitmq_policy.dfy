/**
 * The `rabbitmq_policy` state: make a RabbitMQ policy present with a given
 * pattern, definition, priority and target, or make it absent.
 *
 * What `rabbitmq.list_policies` and `rabbitmq.policy_exists` report, what
 * `json.loads` gives for a text, and the replies of `rabbitmq.set_policy` and
 * `rabbitmq.delete_policy` are parameters; the calls that change the broker
 * are returned as a trace.
 */
module RabbitmqPolicy {
  import opened Wrappers
  import opened Dicts
  import opened PyText
  import opened PyValue

  /** A call that changes the broker. */
  datatype PolicyCall =
    | SetPolicy(vhost: string, name: string, pattern: string, definition: string, priority: int, applyTo: Option<string>)
    | DeletePolicy(vhost: string, name: string)

  /** The dictionary a state returns. */
  datatype StateRet = StateRet(name: string, changes: Dict<string, Value>, result: Option<bool>, comment: string)

  /** `json.loads`: the decoded document, or the error for a malformed one. */
  type Loads = string -> Result<Value, Exc>

  function AlreadyPresent(vhost: string, name: string): string { "Policy " + vhost + " " + name + " is already present" }
  function ToBeCreated(vhost: string, name: string): string { "Policy " + vhost + " " + name + " is set to be created" }
  function ToBeUpdated(vhost: string, name: string): string { "Policy " + vhost + " " + name + " is set to be updated" }
  function AlreadyDesired(name: string): string { "'" + name + "' is already in the desired state." }
  function NotPresent(vhost: string, name: string): string { "Policy '" + vhost + " " + name + "' is not present." }
  function WillBeRemoved(vhost: string, name: string): string { "Policy '" + vhost + " " + name + "' will be removed." }

  /** Whether a reply of the `rabbitmq` module reports an error. */
  predicate Failed(reply: Dict<string, string>) { "Error" in Keys(reply) }

  /** The text under `key` in a reply, or nothing. */
  function ReplyText(reply: Dict<string, string>, key: string): string {
    match Get(reply, key) case Some(t) => t case None => ""
  }

  // ---- present: what differs ----

  /** `policies.get(vhost, {}).get(name)`: the stored policy, or `None`. */
  function StoredPolicy(policies: Dict<string, Value>, vhost: string, name: string): (r: Result<Value, Exc>)
    ensures Get(policies, vhost).None? ==> r == Ok(VNone)
    ensures r.Err? <==> Get(policies, vhost).Some? && !Get(policies, vhost).value.VDict?
  {
    var byVhost := match Get(policies, vhost) case Some(v) => v case None => VDict([]);
    if !byVhost.VDict? then Err(AttributeError)
    else Ok(match Get(byVhost.items, name) case Some(p) => p case None => VNone)
  }

  /** `policy.get(key)`, with `None` for a missing key. */
  function Field(policy: Dict<string, Value>, key: string): Value {
    match Get(policy, key) case Some(v) => v case None => VNone
  }

  /** `json.loads(v) if v else ""`. */
  function Decoded(v: Value, loads: Loads): (r: Result<Value, Exc>)
    ensures !Truthy(v) ==> r == Ok(VStr(""))
    ensures Truthy(v) && v.VStr? ==> r == loads(v.s)
    ensures Truthy(v) && !v.VStr? ==> r == Err(TypeError)
  {
    if !Truthy(v) then Ok(VStr(""))
    else if v.VStr? then loads(v.s)
    else Err(TypeError)
  }

  /** `apply_to` counts only when given and not empty. */
  predicate ApplyToGiven(applyTo: Option<string>) {
    applyTo.Some? && applyTo.value != ""
  }

  /** An attribute of a policy that needs updating, in the order the state checks them. */
  datatype Update = Pattern | Definition | Applyto | Priority

  /** How an update is named in the `changes`. */
  function UpdateName(u: Update): string {
    match u
    case Pattern => "Pattern"
    case Definition => "Definition"
    case Applyto => "Applyto"
    case Priority => "Priority"
  }

  /** The position of an update in the order the state checks them. */
  function Rank(u: Update): nat {
    match u
    case Pattern => 0
    case Definition => 1
    case Applyto => 2
    case Priority => 3
  }

  /** Each update at most once, in the order the state checks them. */
  predicate InOrder(us: seq<Update>) {
    forall i, j :: 0 <= i < j < |us| ==> Rank(us[i]) < Rank(us[j])
  }

  /** `updates.append(u)` when the attribute differs. */
  function AppendIf(us: seq<Update>, differs: bool, u: Update): seq<Update> {
    if differs then us + [u] else us
  }

  /** The updates for the attributes that differ, in the order the state checks them. */
  function Listed(pattern: bool, definition: bool, applyTo: bool, priority: bool): (us: seq<Update>)
    ensures InOrder(us)
    ensures Pattern in us <==> pattern
    ensures Definition in us <==> definition
    ensures Applyto in us <==> applyTo
    ensures Priority in us <==> priority
    ensures us == [] <==> !pattern && !definition && !applyTo && !priority
  {
    var u1 := AppendIf([], pattern, Pattern);
    AppendIfInOrder([], pattern, Pattern);
    var u2 := AppendIf(u1, definition, Definition);
    AppendIfInOrder(u1, definition, Definition);
    var u3 := AppendIf(u2, applyTo, Applyto);
    AppendIfInOrder(u2, applyTo, Applyto);
    AppendIfInOrder(u3, priority, Priority);
    AppendIf(u3, priority, Priority)
  }

  /** Appending an update ranked after every one already listed keeps the list in order. */
  lemma AppendIfInOrder(us: seq<Update>, differs: bool, u: Update)
    requires InOrder(us) && forall x :: x in us ==> Rank(x) < Rank(u)
    ensures var r := AppendIf(us, differs, u);
      InOrder(r) && (forall x :: x in r <==> x in us || (differs && x == u)) &&
      (r == [] <==> us == [] && !differs)
  {
  }

  /** The updates an existing policy needs, in the order they are checked, or what decoding or `int()` raises. */
  function Updates(policy: Dict<string, Value>, pattern: string, definition: string, priority: int,
                   applyTo: Option<string>, loads: Loads): (r: Result<seq<Update>, Exc>)
    ensures r.Ok? ==> InOrder(r.value)
  {
    var p := Field(policy, "pattern") != VStr(pattern);
    match Decoded(Field(policy, "definition"), loads)
    case Err(e) => Err(e)
    case Ok(current) =>
      match Decoded(VStr(definition), loads)
      case Err(e) => Err(e)
      case Ok(wanted) =>
        var d := !PyEq(current, wanted);
        var a := ApplyToGiven(applyTo) && Field(policy, "apply-to") != VStr(applyTo.value);
        match ToInt(Field(policy, "priority"))
        case Err(e) => Err(e)
        case Ok(n) => Ok(Listed(p, d, a, n != priority))
  }

  /** The checks of `present` on an existing policy, appending to `updates` as they find differences. */
  method DetectUpdates(policy: Dict<string, Value>, pattern: string, definition: string, priority: int,
                       applyTo: Option<string>, loads: Loads) returns (r: Result<seq<Update>, Exc>)
    ensures r == Updates(policy, pattern, definition, priority, applyTo, loads)
  {
    var updates: seq<Update> := [];
    var differs := Field(policy, "pattern") != VStr(pattern);
    updates := AppendIf(updates, differs, Pattern);
    var current := Decoded(Field(policy, "definition"), loads);
    if current.Err? {
      return Err(current.error);
    }
    var wanted := Decoded(VStr(definition), loads);
    if wanted.Err? {
      return Err(wanted.error);
    }
    updates := AppendIf(updates, !PyEq(current.value, wanted.value), Definition);
    updates := AppendIf(updates, ApplyToGiven(applyTo) && Field(policy, "apply-to") != VStr(applyTo.value), Applyto);
    var n := ToInt(Field(policy, "priority"));
    if n.Err? {
      return Err(n.error);
    }
    updates := AppendIf(updates, n.value != priority, Priority);
    return Ok(updates);
  }

  /**
   * Each update is listed exactly when its attribute differs: the pattern as
   * text, the definitions once decoded (empty as ""), the target only when
   * `apply_to` is given, the priority once read as an integer.
   */
  lemma UpdatesMeaning(policy: Dict<string, Value>, pattern: string, definition: string, priority: int,
                       applyTo: Option<string>, loads: Loads)
    requires Updates(policy, pattern, definition, priority, applyTo, loads).Ok?
    ensures var us := Updates(policy, pattern, definition, priority, applyTo, loads).value;
      var current := Decoded(Field(policy, "definition"), loads);
      var wanted := Decoded(VStr(definition), loads);
      current.Ok? && wanted.Ok? && ToInt(Field(policy, "priority")).Ok? &&
      (Pattern in us <==> Field(policy, "pattern") != VStr(pattern)) &&
      (Definition in us <==> !PyEq(current.value, wanted.value)) &&
      (Applyto in us <==> ApplyToGiven(applyTo) && Field(policy, "apply-to") != VStr(applyTo.value)) &&
      (Priority in us <==> ToInt(Field(policy, "priority")).value != priority)
  {
  }

  /**
   * What the broker reports for a policy just set with these arguments
   * (the target defaults to all).
   */
  function Stored(pattern: string, definition: string, priority: int, applyTo: Option<string>): Dict<string, Value> {
    [("pattern", VStr(pattern)), ("definition", VStr(definition)),
     ("apply-to", VStr(if applyTo.Some? then applyTo.value else "all")), ("priority", VStr(IntToString(priority)))]
  }

  /** The fields of a policy just set. */
  lemma StoredFields(pattern: string, definition: string, priority: int, applyTo: Option<string>)
    ensures var policy := Stored(pattern, definition, priority, applyTo);
      Field(policy, "pattern") == VStr(pattern) && Field(policy, "definition") == VStr(definition) &&
      Field(policy, "apply-to") == VStr(if applyTo.Some? then applyTo.value else "all") &&
      Field(policy, "priority") == VStr(IntToString(priority))
  {
    var policy := Stored(pattern, definition, priority, applyTo);
    StoredFront(policy);
    StoredApplyTo(policy);
    StoredPriority(policy);
  }

  lemma StoredFront(policy: Dict<string, Value>)
    requires |policy| == 4 && policy[0].0 == "pattern" && policy[1].0 == "definition"
    ensures Get(policy, "pattern") == Some(policy[0].1) && Get(policy, "definition") == Some(policy[1].1)
  {
    assert "definition"[0] != "pattern"[0];
    assert Get(policy, "definition") == Get(policy[1..], "definition");
  }

  lemma StoredApplyTo(policy: Dict<string, Value>)
    requires |policy| == 4 && policy[0].0 == "pattern" && policy[1].0 == "definition" && policy[2].0 == "apply-to"
    ensures Get(policy, "apply-to") == Some(policy[2].1)
  {
    assert "apply-to"[0] != "pattern"[0] && "apply-to"[0] != "definition"[0];
    assert Get(policy, "apply-to") == Get(policy[1..], "apply-to") == Get(policy[2..], "apply-to");
  }

  lemma StoredPriority(policy: Dict<string, Value>)
    requires |policy| == 4 && policy[0].0 == "pattern" && policy[1].0 == "definition" && policy[2].0 == "apply-to"
    requires policy[3].0 == "priority"
    ensures Get(policy, "priority") == Some(policy[3].1)
  {
    assert "priority"[1] != "pattern"[1] && "priority"[0] != "definition"[0] && "priority"[0] != "apply-to"[0];
    assert Get(policy, "priority") == Get(policy[1..], "priority") == Get(policy[2..], "priority") == Get(policy[3..], "priority");
  }

  /** Once the policy is set as asked, asking again finds nothing to update. */
  lemma PresentConverges(pattern: string, definition: string, priority: int, applyTo: Option<string>, loads: Loads)
    requires definition != "" ==> loads(definition).Ok? && WellKeyed(loads(definition).value)
    ensures Updates(Stored(pattern, definition, priority, applyTo), pattern, definition, priority, applyTo, loads) == Ok([])
  {
    var policy := Stored(pattern, definition, priority, applyTo);
    StoredFields(pattern, definition, priority, applyTo);
    var wanted := Decoded(VStr(definition), loads);
    assert Decoded(Field(policy, "definition"), loads) == wanted;
    assert wanted.Ok? && PyEq(wanted.value, wanted.value) by {
      if definition != "" {
        PyEqReflexive(loads(definition).value);
      }
    }
    assert ToInt(Field(policy, "priority")) == Ok(priority) by {
      ParseIntToString(priority);
    }
    assert !(ApplyToGiven(applyTo) && Field(policy, "apply-to") != VStr(applyTo.value));
    assert Updates(policy, pattern, definition, priority, applyTo, loads) == Ok(Listed(false, false, false, false));
  }

  // ---- present ----

  /** The `changes` for a policy about to be created. */
  function Created(name: string): Dict<string, Value> {
    [("old", VDict([])), ("new", VStr(name))]
  }

  /** The `changes` for a policy about to be updated: the old policy and the list of updates. */
  function Updated(policy: Value, updates: seq<Update>): Dict<string, Value> {
    [("old", policy), ("new", VList(seq(|updates|, i requires 0 <= i < |updates| => VStr(UpdateName(updates[i])))))]
  }

  /**
   * `present(name, pattern, definition, priority, vhost, apply_to)`, in test
   * mode when `test`; `policies` is what `list_policies` reports and
   * `setReply` what `set_policy` would answer.
   */
  method Present(name: string, pattern: string, definition: string, priority: int, vhost: string,
                 applyTo: Option<string>, test: bool, policies: Dict<string, Value>, loads: Loads,
                 setReply: Dict<string, string>)
    returns (r: Result<(StateRet, seq<PolicyCall>), Exc>)
    ensures StoredPolicy(policies, vhost, name).Err? ==> r == Err(StoredPolicy(policies, vhost, name).error)
    ensures r.Ok? ==> StoredPolicy(policies, vhost, name).Ok?
    ensures r.Ok? ==> r.value.0.name == name
    // the broker is changed only outside test mode, by one call with the state's arguments, and only when something changes
    ensures r.Ok? ==> r.value.1 == if !test && r.value.0.changes != [] then [SetPolicy(vhost, name, pattern, definition, priority, applyTo)] else []
    // a missing policy is created
    ensures r.Ok? && !Truthy(StoredPolicy(policies, vhost, name).value) ==> r.value.0.changes == Created(name)
    // an existing one is updated exactly when something differs, and the changes list what
    ensures r.Ok? && Truthy(StoredPolicy(policies, vhost, name).value) ==>
      var policy := StoredPolicy(policies, vhost, name).value;
      policy.VDict? && Updates(policy.items, pattern, definition, priority, applyTo, loads).Ok? &&
      var us := Updates(policy.items, pattern, definition, priority, applyTo, loads).value;
      r.value.0.changes == (if us == [] then [] else Updated(policy, us))
    ensures r.Ok? && r.value.0.changes == [] ==>
      r.value.0.result == Some(true) && r.value.0.comment == AlreadyPresent(vhost, name)
    ensures r.Ok? && r.value.0.changes != [] && test ==> r.value.0.result == None
    ensures r.Ok? && r.value.0.changes != [] && !test ==>
      if Failed(setReply) then r.value.0.result == Some(false) && r.value.0.comment == ReplyText(setReply, "Error")
      else r.value.0.result == Some(true) && r.value.0.comment == ReplyText(setReply, "Set")
    // what fails is reading the stored policy
    ensures r.Err? ==> (StoredPolicy(policies, vhost, name).Err? ||
      var policy := StoredPolicy(policies, vhost, name).value;
      Truthy(policy) && (!policy.VDict? || Updates(policy.items, pattern, definition, priority, applyTo, loads).Err?))
  {
    var ret := StateRet(name, [], Some(true), "");
    var result: Dict<string, string> := [];
    var calls: seq<PolicyCall> := [];
    var stored := StoredPolicy(policies, vhost, name);
    if stored.Err? {
      return Err(stored.error);
    }
    var policy := stored.value;
    var updates: seq<Update> := [];
    if Truthy(policy) {
      if !policy.VDict? {
        return Err(AttributeError);
      }
      var found := DetectUpdates(policy.items, pattern, definition, priority, applyTo, loads);
      if found.Err? {
        return Err(found.error);
      }
      updates := found.value;
    }
    if Truthy(policy) && updates == [] {
      ret := ret.(comment := AlreadyPresent(vhost, name));
      return Ok((ret, calls));
    }
    if !Truthy(policy) {
      ret := ret.(changes := Created(name));
      if test {
        ret := ret.(comment := ToBeCreated(vhost, name));
      } else {
        result := setReply;
        calls := [SetPolicy(vhost, name, pattern, definition, priority, applyTo)];
      }
    } else {
      ret := ret.(changes := Updated(policy, updates));
      if test {
        ret := ret.(comment := ToBeUpdated(vhost, name));
      } else {
        result := setReply;
        calls := [SetPolicy(vhost, name, pattern, definition, priority, applyTo)];
      }
    }
    if Failed(result) {
      ret := ret.(result := Some(false), comment := ReplyText(result, "Error"));
    } else if ret.changes == [] {
      ret := ret.(comment := AlreadyDesired(name));
    } else if test {
      ret := ret.(result := None);
    } else if "Set" in Keys(result) {
      ret := ret.(comment := ReplyText(result, "Set"));
    }
    return Ok((ret, calls));
  }

  // ---- absent ----

  /** The `changes` for a policy that is (to be) removed. */
  function Removed(name: string): Dict<string, Value> {
    [("new", VStr("")), ("old", VStr(name))]
  }

  /**
   * `absent(name, vhost)`, in test mode when `test`; `policyExists` is what
   * `policy_exists` reports and `deleteReply` what `delete_policy` would answer.
   */
  method Absent(name: string, vhost: string, test: bool, policyExists: bool, deleteReply: Dict<string, string>)
    returns (ret: StateRet, calls: seq<PolicyCall>)
    ensures ret.name == name
    // the broker is changed only outside test mode and only for a policy that exists
    ensures calls == if policyExists && !test then [DeletePolicy(vhost, name)] else []
    ensures !policyExists ==> ret.result == Some(true) && ret.changes == [] && ret.comment == NotPresent(vhost, name)
    ensures policyExists && test ==> ret.result == None && ret.changes == Removed(name) && ret.comment == WillBeRemoved(vhost, name)
    ensures policyExists && !test && Failed(deleteReply) ==>
      ret.result == Some(false) && ret.changes == [] && ret.comment == ReplyText(deleteReply, "Error")
    ensures policyExists && !test && !Failed(deleteReply) ==>
      ret.result == Some(true) && ret.changes == Removed(name) &&
      ret.comment == if "Deleted" in Keys(deleteReply) then "Deleted" else ""
  {
    ret := StateRet(name, [], Some(true), "");
    calls := [];
    if !policyExists {
      ret := ret.(comment := NotPresent(vhost, name));
      return;
    }
    if !test {
      calls := [DeletePolicy(vhost, name)];
      if Failed(deleteReply) {
        ret := ret.(result := Some(false), comment := ReplyText(deleteReply, "Error"));
        return;
      } else if "Deleted" in Keys(deleteReply) {
        ret := ret.(comment := "Deleted");
      }
    }
    ret := ret.(changes := Removed(name));
    if test {
      ret := ret.(result := None, comment := WillBeRemoved(vhost, name));
    }
  }
}
