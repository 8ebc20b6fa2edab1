/**
 * The `ipset` state module: ensuring a set exists or is gone, that entries
 * are in a set or not, and flushing a set. Each state builds its return
 * dictionary (`name`, `changes`, `result`, `comment`) step by step.
 *
 * The ipset execution module is the parameter `ipset`, the reply to each
 * call; its `add` and `delete` answer with text, the parameter `edit`. Each
 * state also returns the calls it made, in order, so that what it does not
 * call can be stated. `test` is the minion's test-mode option.
 */
module Ipset {
  import opened Wrappers
  import opened Dicts
  import opened PyText
  import opened PyValue
  import opened Gathering

  /**
   * A call into the ipset execution module. A `CheckSet` without a family
   * leaves the family to the execution module's default. The keyword
   * arguments forwarded to `new_set`, `add` and `delete` are not recorded.
   */
  datatype Call =
    | CheckSet(setName: string, checkFamily: Option<string>)
    | NewSet(setName: string, setType: string, family: string)
    | FlushSet(setName: string, family: string)
    | DeleteSet(setName: string, family: string)
    | Check(setName: string, entry: string, family: string)
    | Add(setName: string, entry: string, family: string)
    | Delete(setName: string, entry: string, family: string)

  /** A state's return dictionary; `result` is `None`, `True` or `False`. */
  datatype StateRet = StateRet(name: string, changes: Dict<string, string>, result: Option<bool>, comment: string)

  /** The `changes` of a state that altered the set. */
  function Locale(name: string): Dict<string, string> {
    [("locale", name)]
  }

  /** `reply.strip()`: only a text reply has it. */
  function StripReply(reply: Value): Result<string, Exc> {
    if reply.VStr? then Ok(Strip(reply.s)) else Err(AttributeError)
  }

  // ---- whole sets ----

  /** `set_present`: creates the set unless it exists; test mode only reports. */
  method SetPresent(name: string, setType: string, family: string, test: bool, ipset: Call -> Value)
    returns (r: Result<StateRet, Exc>, calls: seq<Call>)
    ensures var present := ipset(CheckSet(name, None)) == VBool(true);
      calls == [CheckSet(name, None)] + (if present || test then [] else [NewSet(name, setType, family)])
    ensures ipset(CheckSet(name, None)) == VBool(true) ==>
      r == Ok(StateRet(name, [], Some(true), "ipset set " + name + " already exists for " + family))
    ensures ipset(CheckSet(name, None)) != VBool(true) && test ==>
      r == Ok(StateRet(name, [], None, "ipset set " + name + " would be added for " + family))
    ensures r.Ok? ==> r.value.name == name
    ensures r.Ok? && r.value.changes != [] <==> NewSet(name, setType, family) in calls && ipset(NewSet(name, setType, family)) == VBool(true)
    ensures r.Ok? && r.value.changes != [] ==> r.value.changes == Locale(name) && r.value.result == Some(true)
    ensures r.Ok? && r.value.result == Some(false) <==>
      NewSet(name, setType, family) in calls && ipset(NewSet(name, setType, family)).VStr? && ipset(NewSet(name, setType, family)) != VBool(true)
    ensures r.Err? ==> r.error == AttributeError
  {
    var ret := StateRet(name, [], None, "");
    var setCheck := ipset(CheckSet(name, None));
    calls := [CheckSet(name, None)];
    if setCheck == VBool(true) {
      ret := ret.(result := Some(true), comment := "ipset set " + name + " already exists for " + family);
      return Ok(ret), calls;
    }
    if test {
      ret := ret.(comment := "ipset set " + name + " would be added for " + family);
      return Ok(ret), calls;
    }
    var command := ipset(NewSet(name, setType, family));
    calls := calls + [NewSet(name, setType, family)];
    if command == VBool(true) {
      ret := ret.(changes := Locale(name), result := Some(true),
                  comment := "ipset set " + name + " created successfully for " + family);
      return Ok(ret), calls;
    }
    match StripReply(command) {
      case Err(e) => return Err(e), calls;
      case Ok(text) =>
        ret := ret.(result := Some(false), comment := "Failed to create set " + name + " for " + family + ": " + text);
        return Ok(ret), calls;
    }
  }

  function AlreadyAbsent(name: string, family: string): string { "ipset set " + name + " for " + family + " is already absent" }
  function WouldBeRemoved(name: string, family: string): string { "ipset set " + name + " for " + family + " would be removed" }
  function SetDeleted(name: string, family: string): string { "ipset set " + name + " deleted successfully for family " + family }
  function DeleteSetFailed(name: string, family: string, text: string): string { "Failed to delete set " + name + " for " + family + ": " + text }
  function FlushFailed(name: string, family: string, text: string): string { "Failed to flush set " + name + " for " + family + ": " + text }

  /** `set_absent`: flushes the set, then deletes it, unless it is already absent. */
  method SetAbsent(name: string, family: string, test: bool, ipset: Call -> Value)
    returns (r: Result<StateRet, Exc>, calls: seq<Call>)
    // the set is flushed only when it exists outside test mode, and deleted only once flushed
    ensures calls == [CheckSet(name, Some(family))] +
      (if Truthy(ipset(CheckSet(name, Some(family)))) && !test then [FlushSet(name, family)] else []) +
      (if Truthy(ipset(CheckSet(name, Some(family)))) && !test && Truthy(ipset(FlushSet(name, family))) then [DeleteSet(name, family)] else [])
    ensures !Truthy(ipset(CheckSet(name, Some(family)))) ==> r == Ok(StateRet(name, [], Some(true), AlreadyAbsent(name, family)))
    ensures Truthy(ipset(CheckSet(name, Some(family)))) && test ==> r == Ok(StateRet(name, [], None, WouldBeRemoved(name, family)))
    ensures r.Ok? ==> r.value.name == name
    // changes appear exactly when the delete succeeded, and then the state succeeded
    ensures r.Ok? && r.value.changes != [] <==>
      Truthy(ipset(CheckSet(name, Some(family)))) && !test && Truthy(ipset(FlushSet(name, family))) &&
      ipset(DeleteSet(name, family)) == VBool(true)
    ensures r.Ok? && r.value.changes != [] ==> r.value.changes == Locale(name) && r.value.result == Some(true)
    // a failed flush fails the state
    ensures (Truthy(ipset(CheckSet(name, Some(family)))) && !test && ipset(FlushSet(name, family)).VStr? &&
             !Truthy(ipset(FlushSet(name, family)))) ==>
      r == Ok(StateRet(name, [], Some(false), FlushFailed(name, family, "")))
    ensures r.Err? ==> r.error == AttributeError
  {
    var ret := StateRet(name, [], None, "");
    var setCheck := ipset(CheckSet(name, Some(family)));
    calls := [CheckSet(name, Some(family))];
    if !Truthy(setCheck) {
      ret := ret.(result := Some(true), comment := AlreadyAbsent(name, family));
      return Ok(ret), calls;
    }
    if test {
      ret := ret.(comment := WouldBeRemoved(name, family));
      return Ok(ret), calls;
    }
    var flushed := ipset(FlushSet(name, family));
    calls := [CheckSet(name, Some(family)), FlushSet(name, family)];
    if Truthy(flushed) {
      var command := ipset(DeleteSet(name, family));
      calls := [CheckSet(name, Some(family)), FlushSet(name, family), DeleteSet(name, family)];
      if command == VBool(true) {
        ret := ret.(changes := Locale(name), result := Some(true), comment := SetDeleted(name, family));
      } else {
        match StripReply(command) {
          case Err(e) => return Err(e), calls;
          case Ok(text) =>
            ret := ret.(result := Some(false), comment := DeleteSetFailed(name, family, text));
        }
      }
    } else {
      match StripReply(flushed) {
        case Err(e) => return Err(e), calls;
        case Ok(text) =>
          assert flushed == VStr("") && text == "";
          ret := ret.(result := Some(false), comment := FlushFailed(name, family, text));
      }
    }
    return Ok(ret), calls;
  }

  /** `flush`: empties an existing set. */
  method FlushState(name: string, family: string, test: bool, ipset: Call -> Value)
    returns (r: StateRet, calls: seq<Call>)
    ensures r.name == name
    ensures ipset(CheckSet(name, None)) == VBool(false) ==>
      r == StateRet(name, [], Some(false), "ipset set " + name + " does not exist for " + family)
    ensures FlushSet(name, family) in calls <==> ipset(CheckSet(name, None)) != VBool(false) && !test
    ensures calls == [CheckSet(name, None)] + (if FlushSet(name, family) in calls then [FlushSet(name, family)] else [])
    ensures FlushSet(name, family) !in calls ==> r.changes == [] && r.result != Some(true)
    ensures ipset(CheckSet(name, None)) != VBool(false) && test ==> r.result == None
    ensures r.changes != [] <==> r.result == Some(true)
    ensures r.result == Some(true) <==> FlushSet(name, family) in calls && Truthy(ipset(FlushSet(name, family)))
    ensures r.changes != [] ==> r.changes == Locale(name)
  {
    r := StateRet(name, [], None, "");
    var setCheck := ipset(CheckSet(name, None));
    calls := [CheckSet(name, None)];
    if setCheck == VBool(false) {
      r := r.(result := Some(false), comment := "ipset set " + name + " does not exist for " + family);
      return;
    }
    if test {
      r := r.(comment := "ipset entries in set " + name + " for " + family + " would be flushed");
      return;
    }
    var flushed := ipset(FlushSet(name, family));
    calls := calls + [FlushSet(name, family)];
    if Truthy(flushed) {
      r := r.(changes := Locale(name), result := Some(true),
              comment := "Flushed ipset entries from set " + name + " for " + family);
    } else {
      r := r.(result := Some(false), comment := "Failed to flush ipset entries from set " + name + " for " + family);
    }
  }

  // ---- entries ----

  /** A scalar entry is a one-entry list. */
  function Entries(entry: Value): seq<Value> {
    if entry.VList? then entry.elems else [entry]
  }

  /** `entry.split(" ", 1)` when the entry holds a space: the address and the options. */
  function SplitEntry(entry: string): (r: (string, string))
    ensures ' ' !in r.0
    ensures Contains(entry, " ") ==> entry == r.0 + " " + r.1
    ensures !Contains(entry, " ") ==> r == (entry, "")
  {
    if Contains(entry, " ") then
      var parts := SplitOnce(entry, " ").value;
      assert forall j :: 0 <= j < |parts.0| ==> entry[j] == parts.0[j] && entry[j..j + 1] == [entry[j]] && !OccursAt(entry, " ", j);
      parts
    else
      assert forall j :: 0 <= j < |entry| ==> entry[j..j + 1] == [entry[j]] && !OccursAt(entry, " ", j);
      (entry, "")
  }

  /** The options after the `timeout` and `comment` keyword arguments have been merged in. */
  function EntryOptions(opts: string, kwargs: Dict<string, string>): string {
    var withTimeout :=
      match Get(kwargs, "timeout")
      case Some(t) => if Contains(opts, "timeout") then opts else "timeout " + t + " " + opts
      case None => opts;
    match Get(kwargs, "comment")
    case Some(c) => if Contains(withTimeout, "comment") then withTimeout else withTimeout + " comment " + c
    case None => withTimeout
  }

  /** What an entry is checked and added as: the address and the options, joined by a space and stripped. */
  function ComposedEntry(address: string, opts: string, stripOptions: bool): string {
    Strip(address + " " + (if stripOptions then LStrip(opts) else opts))
  }

  /** What the loop works out for one entry before calling the execution module. */
  datatype EntryPlan = EntryPlan(address: string, entry: string, setName: string)

  /**
   * The address, the composed entry and the set name for one list item.
   * Only text can be split and joined; `set_name` must be among the keyword
   * arguments.
   */
  function PlanEntry(item: Value, kwargs: Dict<string, string>, stripOptions: bool): Result<EntryPlan, Exc> {
    if !item.VStr? then
      match Member(" ", item)
      case Err(e) => Err(e)
      case Ok(b) => Err(if b then AttributeError else TypeError)
    else
      var parts := SplitEntry(item.s);
      var entry := ComposedEntry(parts.0, EntryOptions(parts.1, kwargs), stripOptions);
      match Get(kwargs, "set_name")
      case None => Err(KeyError("set_name"))
      case Some(setName) => Ok(EntryPlan(parts.0, entry, setName))
  }

  /** The loop state: the return dictionary so far, the calls made, and the exception raised, if any. */
  datatype Run = Run(ret: StateRet, calls: seq<Call>, raised: Option<Exc>)

  /** What a state reports once its loop is over. */
  function Outcome(run: Run): Result<StateRet, Exc> {
    if run.raised.Some? then Err(run.raised.value) else Ok(run.ret)
  }

  // The comment each pass of `present` and `absent` adds, or the one a refusal leaves.

  function AlreadyInLine(p: EntryPlan, family: string): string {
    "entry for " + p.address + " already in set " + p.setName + " for " + family + "\n"
  }

  function WouldAddLine(p: EntryPlan, family: string): string {
    "entry " + p.address + " would be added to set " + p.setName + " for family " + family + "\n"
  }

  function AddedLine(p: EntryPlan, family: string): string {
    "entry " + p.entry + " added to set " + p.setName + " for family " + family + "\n"
  }

  function NotPresentLine(p: EntryPlan, family: string): string {
    "ipset entry for " + p.entry + " not present in set " + p.setName + " for " + family + "\n"
  }

  function WouldRemoveLine(p: EntryPlan, family: string): string {
    "ipset entry " + p.address + " would be removed from set " + p.setName + " for " + family + "\n"
  }

  function RemovedLine(p: EntryPlan, family: string): string {
    "ipset entry " + p.entry + " removed from set " + p.setName + " for " + family + "\n"
  }

  function DeleteFailedMessage(p: EntryPlan, family: string, reply: string): string {
    "Failed to delete ipset entry from set " + p.setName + " for " + family + ". Attempted entry was " + p.entry + ".\n" + reply + "\n"
  }

  function AddFailedMessage(p: EntryPlan, family: string, reply: string): string {
    "Failed to add to entry " + p.entry + " to set " + p.setName + " for family " + family + ".\n" + reply
  }

  /** One iteration of `present` for the list item `item`. */
  function PresentItem(name: string, family: string, kwargs: Dict<string, string>, test: bool,
                       ipset: Call -> Value, edit: Call -> string, run: Run, item: Value): Run {
    if run.raised.Some? then run
    else
      match PlanEntry(item, kwargs, true)
      case Err(e) => run.(raised := Some(e))
      case Ok(p) =>
        var check := Check(p.setName, p.entry, family);
        var ret := run.ret;
        if ipset(check) == VBool(true) then
          run.(ret := ret.(comment := ret.comment + AlreadyInLine(p, family)),
               calls := run.calls + [check])
        else if test then
          run.(ret := ret.(result := None, comment := ret.comment + WouldAddLine(p, family)),
               calls := run.calls + [check])
        else
          var add := Add(p.setName, p.entry, family);
          var reply := edit(add);
          if !Contains(reply, "Error") then
            run.(ret := ret.(changes := Locale(name), comment := ret.comment + AddedLine(p, family)),
                 calls := run.calls + [check, add])
          else
            run.(ret := ret.(result := Some(false), comment := AddFailedMessage(p, family, reply)),
                 calls := run.calls + [check, add])
  }

  function PresentStep(name: string, family: string, kwargs: Dict<string, string>, test: bool,
                       ipset: Call -> Value, edit: Call -> string): (Run, Value) -> Run {
    (run, item) => PresentItem(name, family, kwargs, test, ipset, edit, run, item)
  }

  /** The run of `present(name, entry, family, **kwargs)`. */
  function PresentRun(name: string, entry: Value, family: string, kwargs: Dict<string, string>, test: bool,
                      ipset: Call -> Value, edit: Call -> string): Run {
    if !Truthy(entry) then Run(StateRet(name, [], Some(false), "ipset entry must be specified"), [], None)
    else Fold(Run(StateRet(name, [], Some(true), ""), [], None), Entries(entry), PresentStep(name, family, kwargs, test, ipset, edit))
  }

  /** `present`: adds each entry that is not yet in the set. */
  method Present(name: string, entry: Value, family: string, kwargs: Dict<string, string>, test: bool,
                 ipset: Call -> Value, edit: Call -> string) returns (r: Result<StateRet, Exc>, calls: seq<Call>)
    ensures var run := PresentRun(name, entry, family, kwargs, test, ipset, edit);
      r == Outcome(run) && calls == run.calls
  {
    var ret := StateRet(name, [], Some(true), "");
    if !Truthy(entry) {
      ret := ret.(result := Some(false), comment := "ipset entry must be specified");
      return Ok(ret), [];
    }
    var entries := Entries(entry);
    ghost var step := PresentStep(name, family, kwargs, test, ipset, edit);
    var run := Run(ret, [], None);
    ghost var start := run;
    var i := 0;
    while i < |entries|
      invariant 0 <= i <= |entries|
      invariant run.raised.None? && Fold(start, entries[..i], step) == run
    {
      FoldNext(start, entries, step, i);
      ghost var before := run;
      run := AddEntry(name, family, kwargs, test, ipset, edit, run, entries[i]);
      assert run == step(before, entries[i]);
      assert Fold(start, entries[..i + 1], step) == run;
      if run.raised.Some? {
        StopsAfterRaise(start, entries, step, i + 1);
        return Err(run.raised.value), run.calls;
      }
      i := i + 1;
    }
    assert entries[..|entries|] == entries;
    return Ok(run.ret), run.calls;
  }

  /** One pass of the `present` loop: check the entry, then add it unless it is there. */
  method AddEntry(name: string, family: string, kwargs: Dict<string, string>, test: bool,
                  ipset: Call -> Value, edit: Call -> string, run: Run, item: Value) returns (after: Run)
    requires run.raised.None?
    ensures after == PresentItem(name, family, kwargs, test, ipset, edit, run, item)
  {
    var plan := PlanEntry(item, kwargs, true);
    if plan.Err? {
      return run.(raised := Some(plan.error));
    }
    var p := plan.value;
    var ret := run.ret;
    var check := Check(p.setName, p.entry, family);
    var calls := run.calls + [check];
    if ipset(check) == VBool(true) {
      ret := ret.(comment := ret.comment + AlreadyInLine(p, family));
    } else if test {
      ret := ret.(result := None, comment := ret.comment + WouldAddLine(p, family));
    } else {
      var add := Add(p.setName, p.entry, family);
      var command := edit(add);
      calls := run.calls + [check, add];
      if !Contains(command, "Error") {
        ret := ret.(changes := Locale(name), comment := ret.comment + AddedLine(p, family));
      } else {
        ret := ret.(result := Some(false), comment := AddFailedMessage(p, family, command));
      }
    }
    return Run(ret, calls, None);
  }

  /** Once an item has raised, the remaining items change nothing. */
  lemma StopsAfterRaise(start: Run, xs: seq<Value>, step: (Run, Value) -> Run, i: nat)
    requires i <= |xs| && Fold(start, xs[..i], step).raised.Some?
    requires forall run: Run, x: Value :: run.raised.Some? ==> step(run, x) == run
    ensures Fold(start, xs, step) == Fold(start, xs[..i], step)
  {
    FoldFixed(Fold(start, xs[..i], step), xs[i..], step);
    FoldSplit(start, xs, step, i);
  }

  /** In test mode `present` never adds. */
  lemma PresentTestNeverAdds(name: string, entry: Value, family: string, kwargs: Dict<string, string>,
                             ipset: Call -> Value, edit: Call -> string, c: Call)
    requires c in PresentRun(name, entry, family, kwargs, true, ipset, edit).calls
    ensures !c.Add?
  {
    if Truthy(entry) {
      var step := PresentStep(name, family, kwargs, true, ipset, edit);
      var p := (run: Run) => forall d :: d in run.calls ==> !d.Add?;
      FoldInvariant(Run(StateRet(name, [], Some(true), ""), [], None), Entries(entry), step, p);
    }
  }

  /** Outside test mode, whether adding `item` is attempted and refused. */
  predicate AddFails(item: Value, family: string, kwargs: Dict<string, string>, ipset: Call -> Value, edit: Call -> string) {
    var plan := PlanEntry(item, kwargs, true);
    plan.Ok? && ipset(Check(plan.value.setName, plan.value.entry, family)) != VBool(true) &&
    Contains(edit(Add(plan.value.setName, plan.value.entry, family)), "Error")
  }

  predicate Raised(run: Run) {
    run.raised.Some?
  }

  predicate FailedOrRaised(run: Run) {
    run.raised.Some? || run.ret.result == Some(false)
  }

  predicate SucceededOrRaised(run: Run) {
    run.raised.Some? || run.ret.result == Some(true)
  }

  /** Outside test mode, nothing brings a failed `present` back to success. */
  lemma PresentFailureSticks(name: string, family: string, kwargs: Dict<string, string>,
                             ipset: Call -> Value, edit: Call -> string)
    ensures forall run, x :: FailedOrRaised(run) ==> FailedOrRaised(PresentItem(name, family, kwargs, false, ipset, edit, run, x))
  {
  }

  /** Outside test mode, only a refused add takes `present` out of success. */
  lemma PresentSuccessSticks(name: string, family: string, kwargs: Dict<string, string>,
                             ipset: Call -> Value, edit: Call -> string, xs: seq<Value>)
    requires forall x :: x in xs ==> !AddFails(x, family, kwargs, ipset, edit)
    ensures forall run, x :: x in xs && SucceededOrRaised(run) ==>
      SucceededOrRaised(PresentItem(name, family, kwargs, false, ipset, edit, run, x))
  {
  }

  /**
   * Outside test mode a completed `present` reports `False` exactly when
   * some entry could not be added; otherwise `True`.
   */
  lemma PresentResult(name: string, entry: Value, family: string, kwargs: Dict<string, string>,
                      ipset: Call -> Value, edit: Call -> string)
    requires Truthy(entry)
    requires Outcome(PresentRun(name, entry, family, kwargs, false, ipset, edit)).Ok?
    ensures var ret := PresentRun(name, entry, family, kwargs, false, ipset, edit).ret;
      (ret.result == Some(false) <==> exists x :: x in Entries(entry) && AddFails(x, family, kwargs, ipset, edit)) &&
      (ret.result != Some(false) ==> ret.result == Some(true))
  {
    var xs := Entries(entry);
    var step := PresentStep(name, family, kwargs, false, ipset, edit);
    var start := Run(StateRet(name, [], Some(true), ""), [], None);
    if x :| x in xs && AddFails(x, family, kwargs, ipset, edit) {
      PresentFailsAt(name, family, kwargs, ipset, edit, start, xs, x);
    } else {
      PresentSuccessSticks(name, family, kwargs, ipset, edit, xs);
      FoldInvariant(start, xs, step, SucceededOrRaised);
    }
  }

  lemma PresentFailsAt(name: string, family: string, kwargs: Dict<string, string>,
                       ipset: Call -> Value, edit: Call -> string, start: Run, xs: seq<Value>, x: Value)
    requires x in xs && AddFails(x, family, kwargs, ipset, edit)
    ensures FailedOrRaised(Fold(start, xs, PresentStep(name, family, kwargs, false, ipset, edit)))
  {
    var step := PresentStep(name, family, kwargs, false, ipset, edit);
    var i :| 0 <= i < |xs| && xs[i] == x;
    var mid := Fold(start, xs[..i + 1], step);
    assert FailedOrRaised(mid) by {
      FoldNext(start, xs, step, i);
      PresentFailsHere(name, family, kwargs, ipset, edit, Fold(start, xs[..i], step), x);
    }
    FoldSplit(start, xs, step, i + 1);
    PresentFailureSticks(name, family, kwargs, ipset, edit);
    FoldInvariant(mid, xs[i + 1..], step, FailedOrRaised);
  }

  lemma PresentFailsHere(name: string, family: string, kwargs: Dict<string, string>,
                         ipset: Call -> Value, edit: Call -> string, run: Run, x: Value)
    requires AddFails(x, family, kwargs, ipset, edit)
    ensures FailedOrRaised(PresentItem(name, family, kwargs, false, ipset, edit, run, x))
  {
  }

  /** An entry already in the set only adds a line to the comment. */
  lemma PresentKeepsPresentEntry(name: string, family: string, kwargs: Dict<string, string>, test: bool,
                                 ipset: Call -> Value, edit: Call -> string, run: Run, item: Value)
    requires run.raised.None? && PlanEntry(item, kwargs, true).Ok?
    requires var p := PlanEntry(item, kwargs, true).value; ipset(Check(p.setName, p.entry, family)) == VBool(true)
    ensures var after := PresentItem(name, family, kwargs, test, ipset, edit, run, item);
      after.raised.None? && after.ret.result == run.ret.result && after.ret.changes == run.ret.changes &&
      |after.ret.comment| > |run.ret.comment| && after.ret.comment[..|run.ret.comment|] == run.ret.comment
  {
  }

  /** A refused add marks the state failed and replaces the comment with the refusal. */
  lemma PresentFailureReplacesComment(name: string, family: string, kwargs: Dict<string, string>,
                                      ipset: Call -> Value, edit: Call -> string, run: Run, item: Value)
    requires run.raised.None? && AddFails(item, family, kwargs, ipset, edit)
    ensures var p := PlanEntry(item, kwargs, true).value;
      var after := PresentItem(name, family, kwargs, false, ipset, edit, run, item);
      after.ret.result == Some(false) &&
      after.ret.comment == AddFailedMessage(p, family, edit(Add(p.setName, p.entry, family)))
  {
  }

  // ---- absent ----

  /** One iteration of `absent` for the list item `item`. */
  function AbsentItem(name: string, family: string, kwargs: Dict<string, string>, test: bool,
                      ipset: Call -> Value, edit: Call -> string, run: Run, item: Value): Run {
    if run.raised.Some? then run
    else
      match PlanEntry(item, kwargs, false)
      case Err(e) => run.(raised := Some(e))
      case Ok(p) =>
        var check := Check(p.setName, p.entry, family);
        var ret := run.ret;
        if ipset(check) != VBool(true) then
          run.(ret := ret.(result := Some(true), comment := ret.comment + NotPresentLine(p, family)),
               calls := run.calls + [check])
        else if test then
          run.(ret := ret.(result := None, comment := ret.comment + WouldRemoveLine(p, family)),
               calls := run.calls + [check])
        else
          var delete := Delete(p.setName, p.address, family);
          var reply := edit(delete);
          if !Contains(reply, "Error") then
            run.(ret := ret.(changes := Locale(name), result := Some(true),
                             comment := ret.comment + RemovedLine(p, family)),
                 calls := run.calls + [check, delete])
          else
            run.(ret := ret.(result := Some(false),
                             comment := DeleteFailedMessage(p, family, reply)),
                 calls := run.calls + [check, delete])
  }

  function AbsentStep(name: string, family: string, kwargs: Dict<string, string>, test: bool,
                      ipset: Call -> Value, edit: Call -> string): (Run, Value) -> Run {
    (run, item) => AbsentItem(name, family, kwargs, test, ipset, edit, run, item)
  }

  /** The run of `absent(name, entry, family, **kwargs)`. */
  function AbsentRun(name: string, entry: Value, family: string, kwargs: Dict<string, string>, test: bool,
                     ipset: Call -> Value, edit: Call -> string): Run {
    if !Truthy(entry) then Run(StateRet(name, [], Some(false), "ipset entry must be specified"), [], None)
    else Fold(Run(StateRet(name, [], Some(true), ""), [], None), Entries(entry), AbsentStep(name, family, kwargs, test, ipset, edit))
  }

  /** `absent`: deletes each entry that is in the set. */
  method Absent(name: string, entry: Value, family: string, kwargs: Dict<string, string>, test: bool,
                ipset: Call -> Value, edit: Call -> string) returns (r: Result<StateRet, Exc>, calls: seq<Call>)
    ensures var run := AbsentRun(name, entry, family, kwargs, test, ipset, edit);
      r == Outcome(run) && calls == run.calls
  {
    var ret := StateRet(name, [], Some(true), "");
    if !Truthy(entry) {
      ret := ret.(result := Some(false), comment := "ipset entry must be specified");
      return Ok(ret), [];
    }
    var entries := Entries(entry);
    ghost var step := AbsentStep(name, family, kwargs, test, ipset, edit);
    var run := Run(ret, [], None);
    ghost var start := run;
    var i := 0;
    while i < |entries|
      invariant 0 <= i <= |entries|
      invariant run.raised.None? && Fold(start, entries[..i], step) == run
    {
      FoldNext(start, entries, step, i);
      ghost var before := run;
      run := DeleteEntry(name, family, kwargs, test, ipset, edit, run, entries[i]);
      assert run == step(before, entries[i]);
      assert Fold(start, entries[..i + 1], step) == run;
      if run.raised.Some? {
        StopsAfterRaise(start, entries, step, i + 1);
        return Err(run.raised.value), run.calls;
      }
      i := i + 1;
    }
    assert entries[..|entries|] == entries;
    return Ok(run.ret), run.calls;
  }

  /** One pass of the `absent` loop: check the entry, then delete it if it is there. */
  method DeleteEntry(name: string, family: string, kwargs: Dict<string, string>, test: bool,
                     ipset: Call -> Value, edit: Call -> string, run: Run, item: Value) returns (after: Run)
    requires run.raised.None?
    ensures after == AbsentItem(name, family, kwargs, test, ipset, edit, run, item)
  {
    var plan := PlanEntry(item, kwargs, false);
    if plan.Err? {
      return run.(raised := Some(plan.error));
    }
    var p := plan.value;
    var ret := run.ret;
    var check := Check(p.setName, p.entry, family);
    var calls := run.calls + [check];
    if ipset(check) != VBool(true) {
      ret := ret.(result := Some(true), comment := ret.comment + NotPresentLine(p, family));
    } else if test {
      ret := ret.(result := None, comment := ret.comment + WouldRemoveLine(p, family));
    } else {
      var delete := Delete(p.setName, p.address, family);
      var command := edit(delete);
      calls := run.calls + [check, delete];
      if !Contains(command, "Error") {
        ret := ret.(changes := Locale(name), result := Some(true),
                    comment := ret.comment + RemovedLine(p, family));
      } else {
        ret := ret.(result := Some(false),
                    comment := DeleteFailedMessage(p, family, command));
      }
    }
    return Run(ret, calls, None);
  }

  /** `absent` deletes by the bare address: no delete call carries options. */
  lemma AbsentDeletesBareAddress(name: string, entry: Value, family: string, kwargs: Dict<string, string>, test: bool,
                                 ipset: Call -> Value, edit: Call -> string, c: Call)
    requires c in AbsentRun(name, entry, family, kwargs, test, ipset, edit).calls && c.Delete?
    ensures ' ' !in c.entry
  {
    if Truthy(entry) {
      var step := AbsentStep(name, family, kwargs, test, ipset, edit);
      var p := (run: Run) => forall d :: d in run.calls && d.Delete? ==> ' ' !in d.entry;
      FoldInvariant(Run(StateRet(name, [], Some(true), ""), [], None), Entries(entry), step, p);
    }
  }

  /** In test mode `absent` never deletes. */
  lemma AbsentTestNeverDeletes(name: string, entry: Value, family: string, kwargs: Dict<string, string>,
                               ipset: Call -> Value, edit: Call -> string, c: Call)
    requires c in AbsentRun(name, entry, family, kwargs, true, ipset, edit).calls
    ensures !c.Delete?
  {
    if Truthy(entry) {
      var step := AbsentStep(name, family, kwargs, true, ipset, edit);
      var p := (run: Run) => forall d :: d in run.calls ==> !d.Delete?;
      FoldInvariant(Run(StateRet(name, [], Some(true), ""), [], None), Entries(entry), step, p);
    }
  }

  /** When none of the entries is in the set, `absent` succeeds without changes. */
  lemma AbsentNothingToRemove(name: string, entry: Value, family: string, kwargs: Dict<string, string>, test: bool,
                              ipset: Call -> Value, edit: Call -> string)
    requires Truthy(entry)
    requires forall x :: x in Entries(entry) && PlanEntry(x, kwargs, false).Ok? ==>
      ipset(Check(PlanEntry(x, kwargs, false).value.setName, PlanEntry(x, kwargs, false).value.entry, family)) != VBool(true)
    ensures var run := AbsentRun(name, entry, family, kwargs, test, ipset, edit);
      run.raised.None? ==> run.ret.result == Some(true) && run.ret.changes == []
  {
    var step := AbsentStep(name, family, kwargs, test, ipset, edit);
    var p := (run: Run) => run.raised.Some? || (run.ret.result == Some(true) && run.ret.changes == []);
    FoldInvariant(Run(StateRet(name, [], Some(true), ""), [], None), Entries(entry), step, p);
  }

  /** Without an entry both states fail at once, with the same comment and no call to the execution module. */
  lemma EntryRequired(name: string, entry: Value, family: string, kwargs: Dict<string, string>, test: bool,
                      ipset: Call -> Value, edit: Call -> string)
    requires !Truthy(entry)
    ensures var p := PresentRun(name, entry, family, kwargs, test, ipset, edit);
      p.raised.None? && p.calls == [] && p.ret == StateRet(name, [], Some(false), "ipset entry must be specified")
    ensures var a := AbsentRun(name, entry, family, kwargs, test, ipset, edit);
      a.raised.None? && a.calls == [] && a.ret == StateRet(name, [], Some(false), "ipset entry must be specified")
  {
  }

  // ---- entry composition ----

  /** Without `timeout` and `comment` keyword arguments the options are used as given. */
  lemma OptionsWithoutKeywords(opts: string, kwargs: Dict<string, string>)
    requires "timeout" !in Keys(kwargs) && "comment" !in Keys(kwargs)
    ensures EntryOptions(opts, kwargs) == opts
  {
  }

  /** Options that already name a timeout and a comment are used as given. */
  lemma OptionsAlreadyComplete(opts: string, kwargs: Dict<string, string>)
    requires Contains(opts, "timeout") && Contains(opts, "comment")
    ensures EntryOptions(opts, kwargs) == opts
  {
  }

  /** A `timeout` keyword argument is put first when the options do not name one. */
  lemma OptionsTimeoutFirst(opts: string, kwargs: Dict<string, string>)
    requires "timeout" in Keys(kwargs) && !Contains(opts, "timeout")
    ensures var t := "timeout " + Get(kwargs, "timeout").value + " ";
      |t| <= |EntryOptions(opts, kwargs)| && EntryOptions(opts, kwargs)[..|t|] == t
  {
  }

  /** A `comment` keyword argument is put last when the options do not name one. */
  lemma OptionsCommentLast(opts: string, kwargs: Dict<string, string>)
    requires "comment" in Keys(kwargs) && "timeout" !in Keys(kwargs) && !Contains(opts, "comment")
    ensures EntryOptions(opts, kwargs) == opts + " comment " + Get(kwargs, "comment").value
  {
  }

  /**
   * `present` left-strips the options before joining and `absent` does not,
   * so with only a `comment` keyword argument the two compose different
   * entries for the same address: one space before `comment` against two.
   */
  lemma PresentAndAbsentCompose(address: string, c: string)
    requires address != [] && !IsSpace(address[0]) && c != [] && !IsSpace(c[|c| - 1])
    ensures ComposedEntry(address, EntryOptions("", [("comment", c)]), true) == address + " comment " + c
    ensures ComposedEntry(address, EntryOptions("", [("comment", c)]), false) == address + "  comment " + c
  {
    CommentOnlyOptions(c);
    PresentComposes(address, c);
    AbsentComposes(address, c);
    EndsKept(address, " comment ", c);
    EndsKept(address, "  comment ", c);
  }

  /** Text between an address and a comment that start and end with non-space survives stripping. */
  lemma EndsKept(address: string, mid: string, c: string)
    requires address != [] && !IsSpace(address[0]) && c != [] && !IsSpace(c[|c| - 1])
    ensures Strip(address + mid + c) == address + mid + c
  {
    var x := address + mid + c;
    assert x[0] == address[0];
    assert x[|x| - 1] == c[|c| - 1];
    StripNoSpace(x);
  }

  /** `present` joins an address and comment-only options with a single space. */
  lemma PresentComposes(address: string, c: string)
    ensures ComposedEntry(address, " comment " + c, true) == Strip(address + " comment " + c)
  {
    var opts := " comment " + c;
    LStripOneSpace(opts);
    assert opts[1..] == "comment " + c;
    JoinComment(address, c);
  }

  /** `absent` keeps the options' own leading space, so two spaces separate address and comment. */
  lemma AbsentComposes(address: string, c: string)
    ensures ComposedEntry(address, " comment " + c, false) == Strip(address + "  comment " + c)
  {
    JoinComment(address, c);
  }

  /** The address, the joining space and the comment options, spelt out. */
  lemma JoinComment(address: string, c: string)
    ensures address + " " + ("comment " + c) == address + " comment " + c
    ensures address + " " + (" comment " + c) == address + "  comment " + c
  {
    assert " " + ("comment " + c) == " comment " + c;
    assert " " + (" comment " + c) == "  comment " + c;
  }

  /** With no options of its own, a `comment` keyword argument becomes ` comment <text>`. */
  lemma CommentOnlyOptions(c: string)
    ensures EntryOptions("", [("comment", c)]) == " comment " + c
  {
    assert Find("", "comment") == None;
  }
}
