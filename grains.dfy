/**
 * The salt-ssh `grains` wrapper: reading the minion's grains, optionally
 * with identifying grains masked ("sanitised") before they are shown.
 *
 * The grains are an insertion-ordered dictionary from grain name to value;
 * none of the operations changes them, each works on a copy.
 */
module Grains {
  import opened Wrappers
  import opened Dicts
  import opened PyValue
  import opened PySort
  import opened Gathering

  /** The four sanitisers; all but the serial-number one ignore their input. */
  datatype Sanitizer = Serial | Fqdn | Hostname | Domainname

  /** `_serial_sanitizer` on text: keep the first three quarters, rounded down, and mask the rest with `X`. */
  function MaskSerial(s: string): (r: string)
    ensures |r| == |s|
    ensures r[..(3 * |s|) / 4] == s[..(3 * |s|) / 4]
    ensures forall i :: (3 * |s|) / 4 <= i < |r| ==> r[i] == 'X'
  {
    var index := (3 * |s|) / 4;
    s[..index] + Xs(|s| - index)
  }

  function Xs(n: nat): (r: string)
    ensures |r| == n && forall i :: 0 <= i < n ==> r[i] == 'X'
  {
    if n == 0 then [] else Xs(n - 1) + "X"
  }

  /** Running a sanitiser on a grain value. Only text has a length to mask. */
  function Sanitize(f: Sanitizer, v: Value): (r: Result<Value, Exc>)
    ensures r.Err? <==> f == Serial && !v.VStr?
    ensures r.Err? ==> r.error == TypeError
    ensures f == Serial && v.VStr? ==> r == Ok(VStr(MaskSerial(v.s)))
  {
    match f
    case Serial => if v.VStr? then Ok(VStr(MaskSerial(v.s))) else Err(TypeError)
    case Fqdn => Ok(VStr("MINION.DOMAINNAME"))
    case Hostname => Ok(VStr("MINION"))
    case Domainname => Ok(VStr("DOMAINNAME"))
  }

  /** `_SANITIZERS`, in its declaration order. */
  const Sanitizers: Dict<string, Sanitizer> := [
    ("serialnumber", Serial),
    ("domain", Domainname),
    ("fqdn", Fqdn),
    ("id", Fqdn),
    ("host", Hostname),
    ("localhost", Hostname),
    ("nodename", Hostname)
  ]

  /** The table names seven grains, each once. */
  lemma SanitizerTable()
    ensures |Keys(Sanitizers)| == 7 && DistinctKeys(Sanitizers)
  {
    var firsts := "sdfihln";
    forall i | 0 <= i < 7
      ensures Sanitizers[i].0 != [] && Sanitizers[i].0[0] == firsts[i]
    {
    }
    forall i, j | 0 <= i < j < 7
      ensures Sanitizers[i].0 != Sanitizers[j].0
    {
      assert firsts[i] != firsts[j];
    }
  }

  /**
   * Which sanitiser each grain of the table gets: `serialnumber` the masking
   * one, `domain` the domain name, `fqdn` and `id` the full name, and
   * `host`, `localhost` and `nodename` the host name.
   */
  lemma SanitizerKeys()
    ensures Get(Sanitizers, "serialnumber") == Some(Serial)
    ensures Get(Sanitizers, "domain") == Some(Domainname)
    ensures Get(Sanitizers, "fqdn") == Some(Fqdn) && Get(Sanitizers, "id") == Some(Fqdn)
    ensures Get(Sanitizers, "host") == Some(Hostname) && Get(Sanitizers, "localhost") == Some(Hostname)
    ensures Get(Sanitizers, "nodename") == Some(Hostname)
  {
    SanitizerTable();
    GetAt(Sanitizers, 0);
    GetAt(Sanitizers, 1);
    GetAt(Sanitizers, 2);
    GetAt(Sanitizers, 3);
    GetAt(Sanitizers, 4);
    GetAt(Sanitizers, 5);
    GetAt(Sanitizers, 6);
  }

  /**
   * The three fixed sanitisers give the same text whatever they are given,
   * and never raise: `DOMAINNAME` for the domain name, `MINION.DOMAINNAME`
   * for the full name and `MINION` for the host name.
   */
  lemma FixedSanitizers(v: Value, w: Value)
    ensures forall f :: f != Serial ==> Sanitize(f, v) == Sanitize(f, w) && Sanitize(f, v).Ok?
    ensures Sanitize(Domainname, v) == Ok(VStr("DOMAINNAME"))
    ensures Sanitize(Fqdn, v) == Ok(VStr("MINION.DOMAINNAME"))
    ensures Sanitize(Hostname, v) == Ok(VStr("MINION"))
  {
  }

  /** One pass of the sanitising loop: replace the grain `kf.0`, if present, with its sanitised value. */
  function SanitizeOne(acc: Result<Dict<string, Value>, Exc>, kf: (string, Sanitizer)): Result<Dict<string, Value>, Exc> {
    if acc.Err? then acc
    else
      match Get(acc.value, kf.0)
      case None => acc
      case Some(v) =>
        match Sanitize(kf.1, v)
        case Err(e) => Err(e)
        case Ok(w) => Ok(Put(acc.value, kf.0, w))
  }

  /** The copy of `d` with every grain the table names sanitised, or the error a sanitiser raised. */
  function Sanitized(d: Dict<string, Value>, table: Dict<string, Sanitizer>): Result<Dict<string, Value>, Exc> {
    Fold(Ok(d), table, SanitizeOne)
  }

  /** What sanitising does to the grain `k` of `d`. */
  function SanitizedGrain(d: Dict<string, Value>, table: Dict<string, Sanitizer>, k: string): Result<Option<Value>, Exc> {
    match Get(d, k)
    case None => Ok(None)
    case Some(v) =>
      match Get(table, k)
      case None => Ok(Some(v))
      case Some(f) =>
        match Sanitize(f, v)
        case Err(e) => Err(e)
        case Ok(w) => Ok(Some(w))
  }

  /** `Sanitized(d, table)` in terms of each grain on its own. */
  ghost predicate GrainWise(d: Dict<string, Value>, table: Dict<string, Sanitizer>) {
    var r := Sanitized(d, table);
    (r.Ok? <==> forall k :: k in Keys(table) ==> SanitizedGrain(d, table, k).Ok?) &&
    (r.Ok? ==> Keys(r.value) == Keys(d) && forall k :: SanitizedGrain(d, table, k) == Ok(Get(r.value, k)))
  }

  /**
   * Sanitising keeps the grain names and their order, changes exactly the
   * grains the table names, and fails exactly when one of them fails.
   */
  lemma {:induction false} SanitizedMeaning(d: Dict<string, Value>, table: Dict<string, Sanitizer>)
    requires DistinctKeys(table)
    ensures GrainWise(d, table)
    decreases |table|
  {
    if table != [] {
      var n := |table| - 1;
      var pre := table[..n];
      var kf := table[n];
      assert DistinctKeys(pre);
      assert table == pre + [kf];
      assert kf.0 !in Keys(pre) by {
        forall i | 0 <= i < |pre|
          ensures pre[i].0 != kf.0
        {
          assert table[i] == pre[i];
        }
      }
      SanitizedMeaning(d, pre);
      SanitizedStep(d, pre, kf);
    }
  }

  lemma SanitizedStep(d: Dict<string, Value>, pre: Dict<string, Sanitizer>, kf: (string, Sanitizer))
    requires kf.0 !in Keys(pre) && GrainWise(d, pre)
    ensures GrainWise(d, pre + [kf])
  {
    if Sanitized(d, pre).Ok? {
      SanitizedStepOk(d, pre, kf);
    } else {
      SanitizedStepErr(d, pre, kf);
    }
  }

  /** The table's next entry, when the loop so far has raised nothing. */
  lemma SanitizedStepOk(d: Dict<string, Value>, pre: Dict<string, Sanitizer>, kf: (string, Sanitizer))
    requires kf.0 !in Keys(pre) && GrainWise(d, pre) && Sanitized(d, pre).Ok?
    ensures GrainWise(d, pre + [kf])
  {
    var acc := Sanitized(d, pre).value;
    GrainNext(d, pre, kf, kf.0);
    assert Get(acc, kf.0) == Get(d, kf.0);
    FoldSnoc(Ok(d), pre, SanitizeOne, kf);
    KeysSnoc(pre, kf);
    if Get(d, kf.0).None? {
      StepAbsent(d, pre, kf);
    } else if Sanitize(kf.1, Get(d, kf.0).value).Err? {
      assert kf.0 in Keys(pre + [kf]);
    } else {
      StepReplaces(d, pre, kf);
    }
  }

  /** A grain the loop does not find is left as it is. */
  lemma StepAbsent(d: Dict<string, Value>, pre: Dict<string, Sanitizer>, kf: (string, Sanitizer))
    requires kf.0 !in Keys(pre) && GrainWise(d, pre) && Sanitized(d, pre).Ok?
    requires Get(d, kf.0).None? && Sanitized(d, pre + [kf]) == Sanitized(d, pre)
    requires Keys(pre + [kf]) == Keys(pre) + [kf.0]
    ensures GrainWise(d, pre + [kf])
  {
    forall k
      ensures SanitizedGrain(d, pre + [kf], k) == SanitizedGrain(d, pre, k)
    {
      GrainNext(d, pre, kf, k);
    }
  }

  /** A grain the loop finds and sanitises is replaced by the sanitised value. */
  lemma StepReplaces(d: Dict<string, Value>, pre: Dict<string, Sanitizer>, kf: (string, Sanitizer))
    requires kf.0 !in Keys(pre) && GrainWise(d, pre) && Sanitized(d, pre).Ok?
    requires Get(d, kf.0).Some? && Sanitize(kf.1, Get(d, kf.0).value).Ok?
    requires Get(Sanitized(d, pre).value, kf.0) == Get(d, kf.0)
    requires Sanitized(d, pre + [kf]) ==
      Ok(Put(Sanitized(d, pre).value, kf.0, Sanitize(kf.1, Get(d, kf.0).value).value))
    requires Keys(pre + [kf]) == Keys(pre) + [kf.0]
    ensures GrainWise(d, pre + [kf])
  {
    var acc := Sanitized(d, pre).value;
    var w := Sanitize(kf.1, Get(d, kf.0).value).value;
    forall k
      ensures SanitizedGrain(d, pre + [kf], k) == Ok(Get(Put(acc, kf.0, w), k))
    {
      GrainNext(d, pre, kf, k);
      GetPut(acc, kf.0, w, k);
    }
  }

  /** The grain `k` after one more table entry, for a key the table did not name before. */
  lemma GrainNext(d: Dict<string, Value>, pre: Dict<string, Sanitizer>, kf: (string, Sanitizer), k: string)
    requires kf.0 !in Keys(pre)
    ensures k != kf.0 ==> SanitizedGrain(d, pre + [kf], k) == SanitizedGrain(d, pre, k)
    ensures k == kf.0 ==> SanitizedGrain(d, pre, k) == Ok(Get(d, k))
    ensures k == kf.0 && Get(d, k).None? ==> SanitizedGrain(d, pre + [kf], k) == Ok(None)
    ensures k == kf.0 && Get(d, k).Some? ==> (SanitizedGrain(d, pre + [kf], k) ==
      match Sanitize(kf.1, Get(d, k).value) case Err(e) => Err(e) case Ok(w) => Ok(Some(w)))
  {
    TableGet(pre, kf, k);
  }

  /** The table's next entry, once the loop has raised: the error stays. */
  lemma SanitizedStepErr(d: Dict<string, Value>, pre: Dict<string, Sanitizer>, kf: (string, Sanitizer))
    requires kf.0 !in Keys(pre) && GrainWise(d, pre) && Sanitized(d, pre).Err?
    ensures GrainWise(d, pre + [kf])
  {
    var table := pre + [kf];
    FoldSnoc(Ok(d), pre, SanitizeOne, kf);
    KeysSnoc(pre, kf);
    var k :| k in Keys(pre) && SanitizedGrain(d, pre, k).Err?;
    TableGet(pre, kf, k);
    assert k in Keys(table);
  }

  lemma TableGet(pre: Dict<string, Sanitizer>, kf: (string, Sanitizer), k: string)
    requires kf.0 !in Keys(pre)
    ensures Get(pre + [kf], k) == if k == kf.0 then Some(kf.1) else Get(pre, k)
  {
    PutNew(pre, kf.0, kf.1);
    GetPut(pre, kf.0, kf.1, k);
  }

  // ---- items ----

  /** `items(sanitize)`: the grains, or a sanitised copy of them. */
  method Items(grains: Dict<string, Value>, sanitize: bool) returns (r: Result<Dict<string, Value>, Exc>)
    ensures r == if sanitize then Sanitized(grains, Sanitizers) else Ok(grains)
  {
    if !sanitize {
      return Ok(grains);
    }
    r := SanitizeCopy(grains, Sanitizers);
  }

  /** The loop over the table (`_SANITIZERS`) that rewrites the copy `out` in place. */
  method SanitizeCopy(d: Dict<string, Value>, table: Dict<string, Sanitizer>) returns (r: Result<Dict<string, Value>, Exc>)
    ensures r == Sanitized(d, table)
  {
    var out := d;
    var i := 0;
    while i < |table|
      invariant 0 <= i <= |table|
      invariant Fold(Ok(d), table[..i], SanitizeOne) == Ok(out)
    {
      var (key, func) := table[i];
      FoldNext(Ok(d), table, SanitizeOne, i);
      match Get(out, key) {
        case None =>
        case Some(v) =>
          var w := Sanitize(func, v);
          if w.Err? {
            FoldSplit(Ok(d), table, SanitizeOne, i + 1);
            StaysFailed(table[i + 1..], w.error);
            return Err(w.error);
          }
          out := Put(out, key, w.value);
      }
      i := i + 1;
    }
    assert table[..i] == table;
    return Ok(out);
  }

  lemma StaysFailed(rest: Dict<string, Sanitizer>, e: Exc)
    ensures Fold(Err(e), rest, SanitizeOne) == Err(e)
  {
    FoldFixed(Err(e), rest, SanitizeOne);
  }

  /** `items(sanitize=True)` keeps the grain names, changes only grains the table names, and leaves the rest alone. */
  lemma ItemsSanitized(grains: Dict<string, Value>, k: string)
    requires Sanitized(grains, Sanitizers).Ok?
    ensures var out := Sanitized(grains, Sanitizers).value;
      Keys(out) == Keys(grains) &&
      (k !in Keys(Sanitizers) ==> Get(out, k) == Get(grains, k)) &&
      (k in Keys(Sanitizers) && k in Keys(grains) ==>
         Sanitize(Get(Sanitizers, k).value, Get(grains, k).value) == Ok(Get(out, k).value))
  {
    SanitizerTable();
    SanitizedMeaning(grains, Sanitizers);
    assert SanitizedGrain(grains, Sanitizers, k) == Ok(Get(Sanitized(grains, Sanitizers).value, k));
  }

  /** Sanitising fails only on a serial number that is not text. */
  lemma ItemsFailure(grains: Dict<string, Value>)
    ensures Sanitized(grains, Sanitizers).Err? <==>
      Get(grains, "serialnumber").Some? && !Get(grains, "serialnumber").value.VStr?
  {
    SanitizerTable();
    SerialEntry();
    OnlySerialFails(grains, Sanitizers);
  }

  /** With a table whose only serial-number sanitiser is on `serialnumber`, sanitising fails only there. */
  lemma OnlySerialFails(grains: Dict<string, Value>, table: Dict<string, Sanitizer>)
    requires DistinctKeys(table) && Get(table, "serialnumber") == Some(Serial)
    requires forall k :: Get(table, k) == Some(Serial) ==> k == "serialnumber"
    ensures Sanitized(grains, table).Err? <==>
      Get(grains, "serialnumber").Some? && !Get(grains, "serialnumber").value.VStr?
  {
    SanitizedMeaning(grains, table);
    var serial := Get(grains, "serialnumber");
    if serial.Some? && !serial.value.VStr? {
      assert SanitizedGrain(grains, table, "serialnumber").Err?;
    } else {
      forall k | k in Keys(table)
        ensures SanitizedGrain(grains, table, k).Ok?
      {
        GrainOk(grains, table, k);
      }
    }
  }

  /** A grain other than a non-text serial number sanitises without raising. */
  lemma GrainOk(grains: Dict<string, Value>, table: Dict<string, Sanitizer>, k: string)
    requires Get(table, k) == Some(Serial) ==> k == "serialnumber"
    requires Get(grains, "serialnumber").Some? ==> Get(grains, "serialnumber").value.VStr?
    ensures SanitizedGrain(grains, table, k).Ok?
  {
    FixedSanitizers(VNone, VNone);
  }

  /** Only the serial number has the serial-number sanitiser. */
  lemma SerialEntry()
    ensures Get(Sanitizers, "serialnumber") == Some(Serial)
    ensures forall k :: Get(Sanitizers, k) == Some(Serial) ==> k == "serialnumber"
  {
  }

  // ---- item ----

  /** `item(*args, sanitize=...)`: the named grains that exist, sanitised when asked. */
  method Item(args: seq<string>, grains: Dict<string, Value>, sanitize: bool) returns (r: Result<Dict<string, Value>, Exc>)
    ensures var picked := Collect(args, Picker(grains));
      r == if sanitize then Sanitized(picked, Sanitizers) else Ok(picked)
  {
    var ret := CollectPairs(args, Picker(grains));
    if sanitize {
      r := SanitizeCopy(ret, Sanitizers);
    } else {
      r := Ok(ret);
    }
  }

  /** The result of `item` holds exactly the named grains that exist, and nothing the grains lack. */
  lemma ItemKeys(args: seq<string>, grains: Dict<string, Value>, k: string)
    ensures k in Keys(Collect(args, Picker(grains))) <==> k in args && k in Keys(grains)
    ensures k in args ==> Get(Collect(args, Picker(grains)), k) == Get(grains, k)
  {
    CollectPicked(args, grains, k);
  }

  // ---- ls ----

  /** `ls()`: the grain names in ascending order. */
  function Ls(grains: Dict<string, Value>): (r: seq<string>)
    ensures Sorted(r)
    ensures multiset(r) == multiset(Keys(grains))
    ensures forall k :: k in r <==> k in Keys(grains)
  {
    var r := SortStrings(Keys(grains));
    assert forall k :: k in r <==> k in multiset(Keys(grains));
    r
  }
}
