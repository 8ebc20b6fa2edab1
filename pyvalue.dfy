/**
 * Dynamically typed Python values as the modules receive them from YAML
 * documents, beacon configurations and command-line keyword arguments, with
 * the few operations the modules apply to them: truthiness, `in`, `[]` with a
 * string key and `int(...)`. An operation Python would refuse returns the
 * exception it would raise.
 */
module PyValue {
  import opened Wrappers
  import opened Dicts
  import opened PyText

  /** A Python value. Mapping keys are strings, as in every document the modules read. */
  datatype Value =
    | VNone
    | VBool(b: bool)
    | VInt(i: int)
    | VStr(s: string)
    | VList(elems: seq<Value>)
    | VDict(items: Dict<string, Value>)

  /** The exceptions the modelled code raises or lets through. */
  datatype Exc =
    | TypeError
    | KeyError(key: string)
    | IndexError
    | StopIteration
    | AttributeError
    | ValueError
    | OverflowError
    | OSError(message: string)
    | YAMLError(message: string)
    | CommandExecutionError(message: string)

  /** What salt's `cmd.run_all` reports about a finished command. */
  datatype CmdResult = CmdResult(stdout: string, stderr: string, retcode: int)

  /** `bool(v)`. */
  predicate Truthy(v: Value) {
    match v
    case VNone => false
    case VBool(b) => b
    case VInt(i) => i != 0
    case VStr(s) => s != []
    case VList(e) => e != []
    case VDict(d) => d != []
  }

  /**
   * `key in v` for a string `key`: a dictionary key, a list element, a
   * substring; any other container is a `TypeError`.
   */
  function Member(key: string, v: Value): (r: Result<bool, Exc>)
    ensures r.Err? <==> !(v.VDict? || v.VList? || v.VStr?)
    ensures v.VDict? ==> r == Ok(key in Keys(v.items))
    ensures v.VList? ==> r == Ok(VStr(key) in v.elems)
  {
    match v
    case VDict(d) => Ok(key in Keys(d))
    case VList(e) => Ok(VStr(key) in e)
    case VStr(s) => Ok(Contains(s, key))
    case _ => Err(TypeError)
  }

  /** `v[key]` for a string `key`: only a dictionary accepts it. */
  function GetItem(v: Value, key: string): (r: Result<Value, Exc>)
    ensures r.Ok? <==> v.VDict? && key in Keys(v.items)
    ensures r.Ok? ==> (key, r.value) in v.items
    ensures v.VDict? && r.Err? ==> r.error == KeyError(key)
  {
    match v
    case VDict(d) =>
      (match Get(d, key)
       case Some(x) => Ok(x)
       case None => Err(KeyError(key)))
    case _ => Err(TypeError)
  }

  /** Whether `n` is a position of a sequence of length `len`, counting a negative one from the end. */
  predicate InRange(n: int, len: nat) {
    -(len as int) <= n < len
  }

  /** The position a valid index `n` names: a negative one counts from the end. */
  function Position(n: int, len: nat): (k: nat)
    requires InRange(n, len)
    ensures k < len && (k == n || k == n + len)
  {
    if n < 0 then n + len else n
  }

  /**
   * `v[key]`: a dictionary by its text keys, a list or a string by an
   * integer position (a boolean counts as 0 or 1); a position out of range
   * is an `IndexError`, a key of the wrong kind a `TypeError`, and a value
   * that is not a container cannot be subscripted at all.
   */
  function Subscript(v: Value, key: Value): (r: Result<Value, Exc>)
    ensures v.VDict? && key.VStr? ==> r == GetItem(v, key.s)
    ensures v.VList? && r.Ok? ==> r.value in v.elems
    ensures (v.VList? || v.VStr?) && !(key.VInt? || key.VBool?) ==> r == Err(TypeError)
    ensures (v.VList? || v.VStr?) && (key.VInt? || key.VBool?) ==>
      (r == Err(IndexError) <==> !InRange(Number(key), if v.VList? then |v.elems| else |v.s|))
    ensures !(v.VDict? || v.VList? || v.VStr?) ==> r == Err(TypeError)
  {
    match v
    case VDict(d) =>
      if key.VStr? then GetItem(v, key.s)
      else if key.VList? || key.VDict? then Err(TypeError)
      else Err(KeyError(Str(key)))
    case VList(e) =>
      if !(key.VInt? || key.VBool?) then Err(TypeError)
      else if !InRange(Number(key), |e|) then Err(IndexError)
      else Ok(e[Position(Number(key), |e|)])
    case VStr(s) =>
      if !(key.VInt? || key.VBool?) then Err(TypeError)
      else if !InRange(Number(key), |s|) then Err(IndexError)
      else Ok(VStr([s[Position(Number(key), |s|)]]))
    case _ => Err(TypeError)
  }

  /** `int(v)`: integers, booleans and decimal text; anything else is refused. */
  function ToInt(v: Value): (r: Result<int, Exc>)
    ensures v.VInt? ==> r == Ok(v.i)
    ensures r.Err? ==> r.error == ValueError || r.error == TypeError
    ensures r.Err? && r.error == ValueError <==> v.VStr? && ParseInt(v.s).None?
  {
    match v
    case VInt(i) => Ok(i)
    case VBool(b) => Ok(if b then 1 else 0)
    case VStr(s) =>
      (match ParseInt(s)
       case Some(n) => Ok(n)
       case None => Err(ValueError))
    case _ => Err(TypeError)
  }

  /** What `for x in v` walks: a dictionary's keys, a list's items, a string's characters. */
  function Iterate(v: Value): (r: Result<seq<Value>, Exc>)
    ensures r.Err? <==> !(v.VDict? || v.VList? || v.VStr?)
    ensures v.VList? ==> r == Ok(v.elems)
    ensures v.VDict? ==> (r.Ok? && |r.value| == |v.items| &&
      forall i :: 0 <= i < |v.items| ==> r.value[i] == VStr(v.items[i].0))
    ensures v.VStr? ==> (r.Ok? && |r.value| == |v.s| &&
      forall i :: 0 <= i < |v.s| ==> r.value[i] == VStr([v.s[i]]))
  {
    match v
    case VDict(d) => Ok(seq(|d|, i requires 0 <= i < |d| => VStr(d[i].0)))
    case VList(e) => Ok(e)
    case VStr(s) => Ok(seq(|s|, i requires 0 <= i < |s| => VStr([s[i]])))
    case _ => Err(TypeError)
  }

  /** The number a boolean or an integer stands for in a comparison (`True == 1`). */
  function Number(v: Value): int
    requires v.VBool? || v.VInt?
  {
    if v.VBool? then (if v.b then 1 else 0) else v.i
  }

  /**
   * `a == b`: numbers by value, text and lists item by item, and
   * dictionaries as mappings, whatever the order of their keys.
   */
  predicate PyEq(a: Value, b: Value)
    decreases a
  {
    match a
    case VNone => b.VNone?
    case VBool(_) => (b.VBool? || b.VInt?) && Number(a) == Number(b)
    case VInt(_) => (b.VBool? || b.VInt?) && Number(a) == Number(b)
    case VStr(s) => b == VStr(s)
    case VList(x) => b.VList? && |x| == |b.elems| && forall i :: 0 <= i < |x| ==> PyEq(x[i], b.elems[i])
    case VDict(x) =>
      b.VDict? && (forall k :: k in Keys(x) ==> k in Keys(b.items)) && (forall k :: k in Keys(b.items) ==> k in Keys(x)) &&
      forall i, j :: 0 <= i < |x| && 0 <= j < |b.items| && x[i].0 == b.items[j].0 ==> PyEq(x[i].1, b.items[j].1)
  }

  /** No dictionary inside `v` repeats a key, as with every value a decoder builds. */
  ghost predicate WellKeyed(v: Value)
    decreases v
  {
    match v
    case VList(x) => forall i :: 0 <= i < |x| ==> WellKeyed(x[i])
    case VDict(x) => DistinctKeys(x) && forall i :: 0 <= i < |x| ==> WellKeyed(x[i].1)
    case _ => true
  }

  /** Every well-keyed value equals itself. */
  lemma {:induction false} PyEqReflexive(v: Value)
    requires WellKeyed(v)
    ensures PyEq(v, v)
    decreases v
  {
    match v
    case VList(x) =>
      forall i | 0 <= i < |x|
        ensures PyEq(x[i], x[i])
      {
        PyEqReflexive(x[i]);
      }
    case VDict(x) =>
      forall i | 0 <= i < |x|
        ensures PyEq(x[i].1, x[i].1)
      {
        PyEqReflexive(x[i].1);
      }
    case _ =>
  }

  /** `str(v)`: text as it is, anything else as its `repr`. */
  function Str(v: Value): string {
    if v.VStr? then v.s else Repr(v)
  }

  /** `repr(v)`; text is put between single quotes as it stands. */
  function Repr(v: Value): string
    decreases v
  {
    match v
    case VNone => "None"
    case VBool(b) => if b then "True" else "False"
    case VInt(i) => IntToString(i)
    case VStr(s) => "'" + s + "'"
    case VList(e) => "[" + Join(", ", seq(|e|, i requires 0 <= i < |e| => Repr(e[i]))) + "]"
    case VDict(d) =>
      "{" + Join(", ", seq(|d|, i requires 0 <= i < |d| => "'" + d[i].0 + "': " + Repr(d[i].1))) + "}"
  }

  /** `str(v)` for the scalar values; containers are not rendered by this model. */
  function ScalarText(v: Value): Option<string> {
    match v
    case VNone => Some("None")
    case VBool(b) => Some(if b then "True" else "False")
    case VInt(i) => Some(IntToString(i))
    case VStr(s) => Some(s)
    case _ => None
  }
}
