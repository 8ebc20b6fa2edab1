/**
 * The `at` execution module for Solaris-like systems: listing the `at(1)`
 * queue, removing queued jobs, queueing a new job with an optional tag, and
 * finding queued jobs by owner, tag and execution time.
 *
 * Salt's `cmd.run_all` is the parameter `runAll` (command line to result);
 * queueing a job also passes the script on standard input and an optional
 * user, so it goes through `runAt(command, stdin, runas)`. The call to
 * `time.strptime(text, "%b %d, %Y %H:%M")` is the parameter `parseTime`
 * (`None` where it raises `ValueError`), and the spool directory
 * `/var/spool/cron/atjobs` is the map `jobFiles` from the path of every
 * existing job file to its lines.
 */
module AtSolaris {
  import opened Wrappers
  import opened Dicts
  import opened PyText
  import opened PyValue
  import opened Gathering

  /** The fields of the `struct_time` the queue listing's date parses to that the module keeps. */
  datatype Timestamp = Timestamp(year: nat, month: nat, day: nat, hour: nat, minute: nat)

  /** One queued job as the listing reports it. */
  datatype Job = Job(job: string, date: string, time: string, queue: string, user: string, tag: string)

  /**
   * The dictionary the listing functions return. Each field is one key of
   * that dictionary, `None` where the key is absent.
   */
  datatype Reply = Reply(jobs: Option<seq<Job>>, error: Option<string>, note: Option<string>)

  /** `{"jobs": jobs}`. */
  function Listing(jobs: seq<Job>): Reply {
    Reply(Some(jobs), None, None)
  }

  // ---- the queue listing (`atq`) ----

  /** The date half of `datetime.isoformat()`: `YYYY-MM-DD`. */
  function IsoDate(t: Timestamp): string {
    ZeroPad(t.year, 4) + "-" + ZeroPad(t.month, 2) + "-" + ZeroPad(t.day, 2)
  }

  /** The time half of `datetime.isoformat()` for a whole minute: `HH:MM:00`. */
  function IsoTime(t: Timestamp): string {
    ZeroPad(t.hour, 2) + ":" + ZeroPad(t.minute, 2) + ":00"
  }

  /** The comment `at` puts at the head of a tagged job's script. */
  const TagMarker := "### SALT: "

  /** A character `\w` matches (ASCII letters, digits and `_`). */
  predicate IsWordChar(c: char) {
    'a' <= c <= 'z' || 'A' <= c <= 'Z' || '0' <= c <= '9' || c == '_'
  }

  /** The number of leading word characters. */
  function WordCharsLength(s: string): (n: nat)
    ensures n <= |s|
    ensures forall i :: 0 <= i < n ==> IsWordChar(s[i])
    ensures n < |s| ==> !IsWordChar(s[n])
  {
    if s == [] || !IsWordChar(s[0]) then 0 else 1 + WordCharsLength(s[1..])
  }

  /** `re.match(r"^### SALT: (\w+)", line)`: the captured tag, when the line starts with one. */
  function MatchTag(line: string): (r: Option<string>)
    ensures r.Some? ==> r.value != [] && forall c :: c in r.value ==> IsWordChar(c)
    ensures r.Some? ==> StartsWith(line, TagMarker + r.value)
  {
    if StartsWith(line, TagMarker) then
      var n := WordCharsLength(line[|TagMarker|..]);
      if n == 0 then None
      else
        var t := line[|TagMarker|..|TagMarker| + n];
        assert line[..|TagMarker + t|] == TagMarker + t by {
          assert line[..|TagMarker + t|] == line[..|TagMarker|] + t;
        }
        Some(t)
    else None
  }

  /** A tag line written for a word-character tag reads back as that tag. */
  lemma MatchTagOfTagLine(t: string, rest: string)
    requires t != [] && forall c :: c in t ==> IsWordChar(c)
    requires rest == [] || !IsWordChar(rest[0])
    ensures MatchTag(TagMarker + t + rest) == Some(t)
  {
    var line := TagMarker + t + rest;
    assert line[..|TagMarker|] == TagMarker;
    var s := line[|TagMarker|..];
    assert s == t + rest;
    var n := WordCharsLength(s);
    assert forall i :: 0 <= i < |t| ==> s[i] == t[i] && t[i] in t;
    assert |t| < |s| ==> s[|t|] == rest[0];
    assert n == |t|;
    assert line[|TagMarker|..|TagMarker| + n] == t;
  }

  /** The tag of a job script: the capture of the last line that matches, or `""` when none does. */
  function TagOf(lines: seq<string>): string {
    if lines == [] then ""
    else
      match MatchTag(lines[|lines| - 1])
      case Some(t) => t
      case None => TagOf(lines[..|lines| - 1])
  }

  /** The last matching line decides the tag. */
  lemma {:induction false} TagOfLastMatch(lines: seq<string>, i: nat)
    requires i < |lines| && MatchTag(lines[i]).Some?
    requires forall l :: l in lines[i + 1..] ==> MatchTag(l).None?
    ensures TagOf(lines) == MatchTag(lines[i]).value
  {
    var n := |lines| - 1;
    if i < n {
      var pre := lines[..n];
      assert lines[n] in lines[i + 1..];
      assert pre[i + 1..] == lines[i + 1..n];
      assert pre[i] == lines[i];
      TagOfLastMatch(pre, i);
    }
  }

  /** A script without a tag line has the empty tag. */
  lemma {:induction false} TagOfNoMatch(lines: seq<string>)
    requires forall l :: l in lines ==> MatchTag(l).None?
    ensures TagOf(lines) == ""
  {
    if lines != [] {
      var pre := lines[..|lines| - 1];
      assert lines[|lines| - 1] in lines;
      assert forall l :: l in pre ==> l in lines;
      TagOfNoMatch(pre);
    }
  }

  /**
   * The tag of lines `p` followed by lines `q`: that of `q` when `q` has a
   * tag line, since a later match overwrites an earlier one, else that of `p`.
   */
  lemma {:induction false} TagOfAppend(p: seq<string>, q: seq<string>)
    ensures TagOf(p + q) == if TagOf(q) != "" then TagOf(q) else TagOf(p)
    decreases |q|
  {
    if q == [] {
      assert p + q == p;
    } else {
      var n := |q| - 1;
      assert (p + q)[..|p + q| - 1] == p + q[..n];
      assert (p + q)[|p + q| - 1] == q[n];
      TagOfAppend(p, q[..n]);
    }
  }

  /** The spool file holding the script of job `job`. */
  function JobFile(job: string): string {
    "/var/spool/cron/atjobs/" + job
  }

  /** The tag of job `job`: `""` when its spool file does not exist. */
  function TagIn(jobFiles: map<string, seq<string>>, job: string): string {
    if JobFile(job) in jobFiles then TagOf(jobFiles[JobFile(job)]) else ""
  }

  /** Reads the tag of job `job` from its spool file, line by line. */
  method JobTag(jobFiles: map<string, seq<string>>, job: string) returns (t: string)
    ensures t == TagIn(jobFiles, job)
  {
    t := "";
    var path := JobFile(job);
    if path in jobFiles {
      var lines := jobFiles[path];
      var i := 0;
      while i < |lines|
        invariant 0 <= i <= |lines|
        invariant t == TagOf(lines[..i])
      {
        assert lines[..i + 1][..i] == lines[..i];
        match MatchTag(lines[i]) {
          case Some(w) => t := w;
          case None =>
        }
        i := i + 1;
      }
      assert lines[..|lines|] == lines;
    }
  }

  /**
   * One line of the listing, split on whitespace: the words 1 to 4 are the
   * execution time, word 5 the owner, word 6 the job id and word 7 the queue.
   * Too few words raise `IndexError`, an unreadable time `ValueError`, in the
   * order the fields are read. The tag is filled in afterwards.
   */
  function ParseJobLine(line: string, parseTime: string -> Option<Timestamp>): Result<Job, Exc> {
    var tmp := SplitWords(line);
    if |tmp| < 7 then Err(IndexError)
    else
      match parseTime(Join(" ", tmp[1..5]))
      case None => Err(ValueError)
      case Some(ts) =>
        if |tmp| < 8 then Err(IndexError)
        else Ok(Job(tmp[6], IsoDate(ts), IsoTime(ts), tmp[7], tmp[5], ""))
  }

  /** Whether the listing keeps a job: every job without a tag filter, else those whose tag or id is the filter. */
  predicate Selected(tag: Value, j: Job) {
    !Truthy(tag) || tag == VStr(j.tag) || tag == VStr(j.job)
  }

  /** What one listing line contributes: nothing for the header, else the job if it is selected. */
  function LineJob(line: string, tag: Value, parseTime: string -> Option<Timestamp>,
                   jobFiles: map<string, seq<string>>): Result<Option<Job>, Exc> {
    if StartsWith(line, " Rank") then Ok(None)
    else
      match ParseJobLine(line, parseTime)
      case Err(e) => Err(e)
      case Ok(parsed) =>
        var j := parsed.(tag := TagIn(jobFiles, parsed.job));
        Ok(if Selected(tag, j) then Some(j) else None)
  }

  function LineStep(tag: Value, parseTime: string -> Option<Timestamp>, jobFiles: map<string, seq<string>>)
    : string -> Result<Option<Job>, Exc>
  {
    line => LineJob(line, tag, parseTime, jobFiles)
  }

  /** What `atq(tag)` returns once the `atq` command has reported `res`. */
  function AtqReply(res: CmdResult, tag: Value, parseTime: string -> Option<Timestamp>,
                    jobFiles: map<string, seq<string>>): Result<Reply, Exc> {
    if res.retcode > 0 then Ok(Reply(None, Some(res.stderr), None))
    else if res.stdout == "no files in queue." then Ok(Listing([]))
    else
      match Gather(SplitLines(res.stdout), LineStep(tag, parseTime, jobFiles))
      case Err(e) => Err(e)
      case Ok(jobs) => Ok(Listing(jobs))
  }

  /** Reads one listing line: skips the header, parses a job line, looks up its tag and applies the filter. */
  method ListedJob(line: string, tag: Value, parseTime: string -> Option<Timestamp>,
                   jobFiles: map<string, seq<string>>) returns (r: Result<Option<Job>, Exc>)
    ensures r == LineJob(line, tag, parseTime, jobFiles)
  {
    if StartsWith(line, " Rank") {
      return Ok(None);
    }
    match ParseJobLine(line, parseTime) {
      case Err(e) => return Err(e);
      case Ok(parsed) =>
        var jobTag := JobTag(jobFiles, parsed.job);
        var job := parsed.(tag := jobTag);
        return Ok(if Selected(tag, job) then Some(job) else None);
    }
  }

  /** `atq(tag)`: the queued jobs, or only those whose tag or id is `tag`. */
  method Atq(tag: Value, runAll: string -> CmdResult, parseTime: string -> Option<Timestamp>,
             jobFiles: map<string, seq<string>>) returns (r: Result<Reply, Exc>)
    ensures r == AtqReply(runAll("atq"), tag, parseTime, jobFiles)
  {
    var res := runAll("atq");
    if res.retcode > 0 {
      return Ok(Reply(None, Some(res.stderr), None));
    }
    if res.stdout == "no files in queue." {
      return Ok(Listing([]));
    }
    var jobs := ListJobs(SplitLines(res.stdout), tag, parseTime, jobFiles);
    match jobs {
      case Err(e) => return Err(e);
      case Ok(js) => return Ok(Listing(js));
    }
  }

  /** The loop over the listing's lines; the first malformed job line stops it. */
  method ListJobs(lines: seq<string>, tag: Value, parseTime: string -> Option<Timestamp>,
                  jobFiles: map<string, seq<string>>) returns (r: Result<seq<Job>, Exc>)
    ensures r == Gather(lines, LineStep(tag, parseTime, jobFiles))
  {
    ghost var step := LineStep(tag, parseTime, jobFiles);
    var jobs: seq<Job> := [];
    var i := 0;
    while i < |lines|
      invariant 0 <= i <= |lines|
      invariant Gather(lines[..i], step) == Ok(jobs)
    {
      var line := lines[i];
      GatherNext(lines, step, i);
      var out := ListedJob(line, tag, parseTime, jobFiles);
      match out {
        case Err(e) =>
          GatherErrorStays(lines, step, i + 1);
          return Err(e);
        case Ok(None) =>
        case Ok(Some(job)) => jobs := jobs + [job];
      }
      i := i + 1;
    }
    assert lines[..|lines|] == lines;
    return Ok(jobs);
  }

  /** Every listed job passed the tag filter and comes from a line of the listing. */
  lemma AtqListsSelected(res: CmdResult, tag: Value, parseTime: string -> Option<Timestamp>,
                         jobFiles: map<string, seq<string>>, j: Job)
    requires AtqReply(res, tag, parseTime, jobFiles).Ok?
    requires AtqReply(res, tag, parseTime, jobFiles).value.jobs.Some?
    requires j in AtqReply(res, tag, parseTime, jobFiles).value.jobs.value
    ensures Selected(tag, j) && j.tag == TagIn(jobFiles, j.job)
    ensures exists line :: (line in SplitLines(res.stdout) && !StartsWith(line, " Rank") &&
      ParseJobLine(line, parseTime) == Ok(j.(tag := "")))
  {
    var step := LineStep(tag, parseTime, jobFiles);
    GatherSound(SplitLines(res.stdout), step, j);
    var line :| line in SplitLines(res.stdout) && step(line) == Ok(Some(j));
    assert LineJob(line, tag, parseTime, jobFiles) == Ok(Some(j));
  }

  /**
   * Every job line of the listing whose job passes the tag filter is
   * listed, with its tag; without a tag filter that is every job line.
   */
  lemma AtqListsEveryJob(res: CmdResult, tag: Value, parseTime: string -> Option<Timestamp>,
                         jobFiles: map<string, seq<string>>, i: nat)
    requires res.retcode <= 0 && res.stdout != "no files in queue."
    requires AtqReply(res, tag, parseTime, jobFiles).Ok?
    requires i < |SplitLines(res.stdout)| && !StartsWith(SplitLines(res.stdout)[i], " Rank")
    ensures ParseJobLine(SplitLines(res.stdout)[i], parseTime).Ok?
    ensures var p := ParseJobLine(SplitLines(res.stdout)[i], parseTime).value;
      var j := p.(tag := TagIn(jobFiles, p.job));
      (!Truthy(tag) ==> Selected(tag, j)) &&
      (Selected(tag, j) ==> j in AtqReply(res, tag, parseTime, jobFiles).value.jobs.value)
  {
    var lines := SplitLines(res.stdout);
    var step := LineStep(tag, parseTime, jobFiles);
    var jobs := Gather(lines, step);
    assert jobs.Ok?;
    GatherOk(lines, step);
    assert lines[i] in lines;
    assert step(lines[i]).Ok?;
    var p := ParseJobLine(lines[i], parseTime).value;
    var j := p.(tag := TagIn(jobFiles, p.job));
    if Selected(tag, j) {
      assert step(lines[i]) == Ok(Some(j));
      GatherComplete(lines, step, i);
    }
  }

  /** The listing raises exactly when some job line is malformed. */
  lemma AtqRaises(res: CmdResult, tag: Value, parseTime: string -> Option<Timestamp>,
                  jobFiles: map<string, seq<string>>)
    requires res.retcode <= 0 && res.stdout != "no files in queue."
    ensures AtqReply(res, tag, parseTime, jobFiles).Err? <==>
      exists line :: (line in SplitLines(res.stdout) && !StartsWith(line, " Rank") &&
        ParseJobLine(line, parseTime).Err?)
  {
    var lines := SplitLines(res.stdout);
    var step := LineStep(tag, parseTime, jobFiles);
    GatherOk(lines, step);
    if AtqReply(res, tag, parseTime, jobFiles).Err? {
      var line :| line in lines && step(line).Err?;
      assert LineJob(line, tag, parseTime, jobFiles).Err?;
    }
  }

  // ---- removing jobs (`atrm`) ----

  /** The dictionary under `"jobs"` that `atrm` returns; `failed` is absent until a removal fails. */
  datatype Removal = Removal(removed: seq<string>, tag: Value, failed: Option<Dict<string, string>>)

  function JobIds(jobs: seq<Job>): (ids: seq<string>)
    ensures |ids| == |jobs| && forall i :: 0 <= i < |jobs| ==> ids[i] == jobs[i].job
  {
    if jobs == [] then [] else [jobs[0].job] + JobIds(jobs[1..])
  }

  /** The ids of the listed jobs that are among the arguments, in listing order. */
  function NamedIds(jobs: seq<Job>, args: seq<Value>): (ids: seq<string>)
    ensures forall x {:trigger x in ids} :: x in ids <==> VStr(x) in args && x in JobIds(jobs)
    ensures |ids| <= |jobs|
  {
    if jobs == [] then []
    else
      var rest := NamedIds(jobs[1..], args);
      assert JobIds(jobs) == [jobs[0].job] + JobIds(jobs[1..]);
      if VStr(jobs[0].job) in args then [jobs[0].job] + rest else rest
  }

  /**
   * The ids selected from two runs of listed jobs are those of the first run
   * followed by those of the second: with the single-job cases, each listed
   * job contributes its id once, in listing order.
   */
  lemma {:induction false} NamedIdsConcat(a: seq<Job>, b: seq<Job>, args: seq<Value>)
    ensures NamedIds(a + b, args) == NamedIds(a, args) + NamedIds(b, args)
    decreases |a|
  {
    if a == [] {
      assert a + b == b;
    } else {
      NamedIdsConcat(a[1..], b, args);
      NamedIdsConcatStep(a, b, args);
    }
  }

  /** The inductive step of NamedIdsConcat: the first job of `a` leads on both sides. */
  lemma NamedIdsConcatStep(a: seq<Job>, b: seq<Job>, args: seq<Value>)
    requires a != []
    requires NamedIds(a[1..] + b, args) == NamedIds(a[1..], args) + NamedIds(b, args)
    ensures NamedIds(a + b, args) == NamedIds(a, args) + NamedIds(b, args)
  {
    assert (a + b)[0] == a[0];
    assert (a + b)[1..] == a[1..] + b;
    LeadOfAppend(if VStr(a[0].job) in args then [a[0].job] else [],
                 NamedIds(a[1..], args), NamedIds(b, args), NamedIds(a + b, args), NamedIds(a, args));
  }

  /** Sequence concatenation regroups: a common lead before `p` then `q`. */
  lemma LeadOfAppend<T>(lead: seq<T>, p: seq<T>, q: seq<T>, whole: seq<T>, first: seq<T>)
    requires whole == lead + (p + q) && first == lead + p
    ensures whole == first + q
  {
  }

  /** One listed job is selected exactly when its id, as text, is among the arguments. */
  lemma NamedIdsSingle(j: Job, args: seq<Value>)
    ensures NamedIds([j], args) == if VStr(j.job) in args then [j.job] else []
  {
    assert [j][1..] == [];
  }

  /**
   * Job ids are text, and `in` compares them with the arguments as they
   * came: arguments that are not text, such as an id the command line
   * delivers as a number, select nothing.
   */
  lemma NonTextArgsSelectNothing(jobs: seq<Job>, args: seq<Value>)
    requires forall i :: 0 <= i < |args| ==> !args[i].VStr?
    ensures NamedIds(jobs, args) == []
  {
  }

  /** The `atrm` run for one job, as the pair recorded under `failed` when it fails. */
  function RemovalFailure(runAll: string -> CmdResult): string -> Option<(string, string)> {
    job => var res := runAll("atrm " + job);
      if res.retcode > 0 then Some((job, res.stderr)) else None
  }

  /** `failed`, once the jobs `xs` have been tried: absent while no removal has failed. */
  function FailedAfter(xs: seq<string>, runAll: string -> CmdResult): Option<Dict<string, string>> {
    var d := Collect(xs, RemovalFailure(runAll));
    if d == [] then None else Some(d)
  }

  /** `s.index(x)`: the position of the first occurrence of `x`. */
  function FirstIndex(s: seq<string>, x: string): (i: nat)
    requires x in s
    ensures i < |s| && s[i] == x && x !in s[..i]
  {
    if s[0] == x then 0
    else
      var k := FirstIndex(s[1..], x);
      assert s[..k + 1] == [s[0]] + s[1..][..k];
      k + 1
  }

  /** `list.remove(x)`: drops the first occurrence of `x` and keeps the rest in order. */
  function RemoveFirst(s: seq<string>, x: string): (r: seq<string>)
    ensures x in s ==> r == s[..FirstIndex(s, x)] + s[FirstIndex(s, x) + 1..]
    ensures x !in s ==> r == s
  {
    if s == [] then []
    else if s[0] == x then
      assert s == [s[0]] + s[1..];
      s[1..]
    else
      assert s == [s[0]] + s[1..];
      var rest := RemoveFirst(s[1..], x);
      if x in s[1..] then
        var k := FirstIndex(s[1..], x);
        assert FirstIndex(s, x) == k + 1;
        assert s[..k + 1] == [s[0]] + s[1..][..k];
        assert s[k + 2..] == s[1..][k + 1..];
        [s[0]] + rest
      else
        [s[0]] + rest
  }

  /** Removing an element that is there takes exactly one occurrence of it out. */
  lemma RemoveFirstCount(s: seq<string>, x: string)
    requires x in s
    ensures multiset(RemoveFirst(s, x)) == multiset(s) - multiset{x}
  {
    var i := FirstIndex(s, x);
    assert s == s[..i] + [x] + s[i + 1..];
    assert multiset(s) == multiset(s[..i]) + multiset{x} + multiset(s[i + 1..]);
  }

  /** Removes the first occurrence of each of `ks`, in order. */
  function RemoveEach(s: seq<string>, ks: seq<string>): seq<string> {
    if ks == [] then s else RemoveFirst(RemoveEach(s, ks[..|ks| - 1]), ks[|ks| - 1])
  }

  ghost predicate Distinct(s: seq<string>) {
    forall i, j :: 0 <= i < j < |s| ==> s[i] != s[j]
  }

  lemma DistinctPrefix(s: seq<string>, n: nat)
    requires Distinct(s) && n <= |s|
    ensures Distinct(s[..n])
  {
  }

  /** The last element of a sequence without repeats does not occur before it. */
  lemma DistinctLast(s: seq<string>)
    requires Distinct(s) && s != []
    ensures s[|s| - 1] !in s[..|s| - 1]
  {
    var n := |s| - 1;
    assert forall a :: 0 <= a < n ==> s[..n][a] == s[a];
  }

  /** What `atrm` reports after trying to remove `chosen`. */
  function RemovalOf(chosen: seq<string>, tag: Value, runAll: string -> CmdResult): Removal {
    var failed := FailedAfter(chosen, runAll);
    Removal(if failed.None? then chosen else RemoveEach(chosen, Keys(failed.value)), tag, failed)
  }

  /** `atrm(*args)`: removes the named jobs, or all (tagged) jobs, and reports what happened. */
  function AtrmReply(args: seq<Value>, runAll: string -> CmdResult, parseTime: string -> Option<Timestamp>,
                     jobFiles: map<string, seq<string>>): Result<Removal, Exc> {
    if args == [] then Ok(Removal([], VNone, None))
    else
      var all := args[0] == VStr("all");
      var tag := if all && |args| > 1 then args[1] else VNone;
      match AtqReply(runAll("atq"), tag, parseTime, jobFiles)
      case Err(e) => Err(e)
      case Ok(listing) =>
        if listing.jobs.None? then Err(KeyError("jobs"))
        else
          var chosen := if all then JobIds(listing.jobs.value) else NamedIds(listing.jobs.value, args);
          Ok(RemovalOf(chosen, tag, runAll))
  }

  method Atrm(args: seq<Value>, runAll: string -> CmdResult, parseTime: string -> Option<Timestamp>,
              jobFiles: map<string, seq<string>>) returns (r: Result<Removal, Exc>)
    ensures r == AtrmReply(args, runAll, parseTime, jobFiles)
  {
    if args == [] {
      return Ok(Removal([], VNone, None));
    }
    var all := args[0] == VStr("all");
    var tag := if all && |args| > 1 then args[1] else VNone;
    var listing := Atq(tag, runAll, parseTime, jobFiles);
    if listing.Err? {
      return Err(listing.error);
    }
    if listing.value.jobs.None? {
      return Err(KeyError("jobs"));
    }
    var chosen := if all then JobIds(listing.value.jobs.value) else NamedIds(listing.value.jobs.value, args);
    var removal := RemoveJobs(chosen, tag, runAll);
    return Ok(removal);
  }

  /** Runs `atrm` for each chosen job, records failures, then drops the failed ones from `removed`. */
  method RemoveJobs(chosen: seq<string>, tag: Value, runAll: string -> CmdResult) returns (r: Removal)
    ensures r == RemovalOf(chosen, tag, runAll)
  {
    var failed := TryRemovals(chosen, runAll);
    var removed := chosen;
    if failed.Some? {
      assert failed.value == Collect(chosen, RemovalFailure(runAll));
      FailedKeysChosen(chosen, runAll);
      removed := DropFailed(chosen, Keys(failed.value));
    }
    r := Removal(removed, tag, failed);
  }

  /** The `atrm` runs, one per chosen job; `failed` appears with the first failure. */
  method TryRemovals(chosen: seq<string>, runAll: string -> CmdResult) returns (failed: Option<Dict<string, string>>)
    ensures failed == FailedAfter(chosen, runAll)
  {
    failed := None;
    var i := 0;
    while i < |chosen|
      invariant 0 <= i <= |chosen|
      invariant failed == FailedAfter(chosen[..i], runAll)
    {
      var job := chosen[i];
      var res := runAll("atrm " + job);
      FailedStep(chosen[..i], runAll, job);
      assert chosen[..i + 1] == chosen[..i] + [job];
      if res.retcode > 0 {
        var d := if failed.None? then [] else failed.value;
        failed := Some(Put(d, job, res.stderr));
      }
      i := i + 1;
    }
    assert chosen[..|chosen|] == chosen;
  }

  /** One more `atrm` run: a refusal records the job, creating `failed` if needed; a success changes nothing. */
  lemma FailedStep(xs: seq<string>, runAll: string -> CmdResult, job: string)
    ensures var res := runAll("atrm " + job);
      var before := FailedAfter(xs, runAll);
      FailedAfter(xs + [job], runAll) ==
        if res.retcode > 0 then Some(Put(if before.None? then [] else before.value, job, res.stderr)) else before
  {
    var res := runAll("atrm " + job);
    CollectSnoc(xs, RemovalFailure(runAll), job);
    if res.retcode > 0 {
      var d := Collect(xs, RemovalFailure(runAll));
      assert |Keys(Put(d, job, res.stderr))| > 0;
    }
  }

  /** Removes each failed job from the chosen list; `list.remove` never raises, as each is still there. */
  method DropFailed(chosen: seq<string>, keys: seq<string>) returns (removed: seq<string>)
    requires forall k :: k in keys ==> k in chosen
    requires Distinct(keys)
    ensures removed == RemoveEach(chosen, keys)
  {
    removed := chosen;
    var k := 0;
    while k < |keys|
      invariant 0 <= k <= |keys|
      invariant removed == RemoveEach(chosen, keys[..k])
    {
      var job := keys[k];
      NextStillPresent(chosen, keys, k);
      assert keys[..k + 1][..k] == keys[..k];
      removed := RemoveFirst(removed, job);
      k := k + 1;
    }
    assert keys[..|keys|] == keys;
  }

  /** The failed jobs are distinct chosen jobs. */
  lemma FailedKeysChosen(chosen: seq<string>, runAll: string -> CmdResult)
    ensures var d := Collect(chosen, RemovalFailure(runAll));
      (forall k :: k in Keys(d) ==> k in chosen) && Distinct(Keys(d))
  {
    var f := RemovalFailure(runAll);
    var d := Collect(chosen, f);
    CollectDistinct(chosen, f);
    forall k | k in Keys(d)
      ensures k in chosen
    {
      CollectKeysFrom(chosen, f, k);
    }
  }

  /** A chosen job failed exactly when its `atrm` run reported a positive exit code. */
  lemma FailedMeansRefused(chosen: seq<string>, runAll: string -> CmdResult, job: string)
    ensures var d := Collect(chosen, RemovalFailure(runAll));
      job in Keys(d) <==> job in chosen && runAll("atrm " + job).retcode > 0
  {
    var f := RemovalFailure(runAll);
    var d := Collect(chosen, f);
    if job in chosen && runAll("atrm " + job).retcode > 0 {
      var i :| 0 <= i < |chosen| && chosen[i] == job;
      CollectAssigned(chosen, f, job, i);
    }
    if job in Keys(d) {
      CollectKeysFrom(chosen, f, job);
    }
  }

  /**
   * For a queue without repeated ids, the chosen jobs split into the removed
   * ones and the failed ones: a job is reported removed exactly when its
   * `atrm` run succeeded, and `failed` is present exactly when one failed.
   */
  lemma RemovalPartition(chosen: seq<string>, tag: Value, runAll: string -> CmdResult, job: string)
    requires Distinct(chosen)
    ensures var r := RemovalOf(chosen, tag, runAll);
      (job in r.removed <==> job in chosen && runAll("atrm " + job).retcode <= 0) &&
      (r.failed.Some? ==> (job in Keys(r.failed.value) <==> job in chosen && runAll("atrm " + job).retcode > 0)) &&
      (r.failed.None? <==> forall x :: x in chosen ==> runAll("atrm " + x).retcode <= 0)
  {
    var f := RemovalFailure(runAll);
    var d := Collect(chosen, f);
    FailedMeansRefused(chosen, runAll, job);
    FailedKeysChosen(chosen, runAll);
    var r := RemovalOf(chosen, tag, runAll);
    if r.failed.Some? {
      var keys := Keys(d);
      RemoveEachCount(chosen, keys);
      assert multiset(r.removed) == multiset(chosen) - multiset(keys);
      CountDistinct(chosen, job);
      CountDistinct(keys, job);
    } else {
      forall x | x in chosen
        ensures runAll("atrm " + x).retcode <= 0
      {
        FailedMeansRefused(chosen, runAll, x);
      }
    }
    if r.failed.None? {
      assert forall x :: x in chosen ==> runAll("atrm " + x).retcode <= 0;
    } else {
      var k := Keys(d)[0];
      assert k in Keys(d);
      FailedMeansRefused(chosen, runAll, k);
    }
  }

  /**
   * Removing distinct elements that all occur takes each out once; the last
   * of them is still present before its own removal.
   */
  lemma {:induction false} RemoveEachCount(s: seq<string>, ks: seq<string>)
    requires forall k :: k in ks ==> k in s
    requires Distinct(ks)
    ensures multiset(RemoveEach(s, ks)) == multiset(s) - multiset(ks)
  {
    if ks != [] {
      var n := |ks| - 1;
      var pre := ks[..n];
      var k := ks[n];
      assert ks == pre + [k];
      assert (forall x :: x in pre ==> x in s) && Distinct(pre) by {
        assert forall x :: x in pre ==> x in ks;
        DistinctPrefix(ks, n);
      }
      RemoveEachCount(s, pre);
      StillPresent(s, ks);
      RemoveEachStep(s, pre, k);
    }
  }

  /** One more removal of an element that is there takes exactly it out. */
  lemma RemoveEachStep(s: seq<string>, pre: seq<string>, k: string)
    requires k in RemoveEach(s, pre)
    requires multiset(RemoveEach(s, pre)) == multiset(s) - multiset(pre)
    ensures multiset(RemoveEach(s, pre + [k])) == multiset(s) - multiset(pre + [k])
  {
    assert (pre + [k])[..|pre|] == pre;
    RemoveFirstCount(RemoveEach(s, pre), k);
    assert multiset(pre + [k]) == multiset(pre) + multiset{k};
    MultisetDiffAssoc(multiset(s), multiset(pre), multiset{k});
  }

  /** In the loop of `atrm`, the next failed job is still in the list when its turn comes. */
  lemma NextStillPresent(chosen: seq<string>, keys: seq<string>, k: nat)
    requires forall x :: x in keys ==> x in chosen
    requires Distinct(keys) && k < |keys|
    ensures keys[k] in RemoveEach(chosen, keys[..k])
  {
    var ks := keys[..k + 1];
    assert ks[..k] == keys[..k] && ks[k] == keys[k];
    DistinctPrefix(keys, k + 1);
    DistinctPrefix(keys, k);
    assert forall x :: x in keys[..k] ==> x in keys;
    RemoveEachCount(chosen, keys[..k]);
    StillPresent(chosen, ks);
  }

  /** Before its own removal, the last of distinct present elements is still there. */
  lemma StillPresent(s: seq<string>, ks: seq<string>)
    requires ks != [] && ks[|ks| - 1] in s && Distinct(ks)
    requires multiset(RemoveEach(s, ks[..|ks| - 1])) == multiset(s) - multiset(ks[..|ks| - 1])
    ensures ks[|ks| - 1] in RemoveEach(s, ks[..|ks| - 1])
  {
    var k := ks[|ks| - 1];
    var before := RemoveEach(s, ks[..|ks| - 1]);
    DistinctLast(ks);
    assert multiset(ks[..|ks| - 1])[k] == 0;
    assert multiset(s)[k] > 0;
    assert multiset(before)[k] == multiset(s)[k] - multiset(ks[..|ks| - 1])[k];
  }

  lemma MultisetDiffAssoc(a: multiset<string>, b: multiset<string>, c: multiset<string>)
    ensures (a - b) - c == a - (b + c)
  {
  }

  /** In a sequence without repeats, an element occurs at most once. */
  lemma {:induction false} CountDistinct(s: seq<string>, x: string)
    requires Distinct(s)
    ensures multiset(s)[x] == if x in s then 1 else 0
  {
    if s != [] {
      var n := |s| - 1;
      var pre := s[..n];
      assert s == pre + [s[n]];
      DistinctPrefix(s, n);
      DistinctLast(s);
      CountDistinct(pre, x);
    }
  }

  // ---- queueing a job (`at`) ----

  /** The script `at` reads: the tag comment line when there is a tag, then the command words. */
  function AtInput(words: seq<string>, tag: Option<string>): string {
    match tag
    case None => Join(" ", words)
    case Some(t) => TagMarker + t + "\n" + Join(" ", words)
  }

  /** The id `at` announces: the second word of the second line of its error output. */
  function QueuedJobId(stderr: string): Result<string, Exc> {
    var lines := SplitLines(stderr);
    if |lines| < 2 then Err(IndexError)
    else
      var words := SplitWords(lines[1]);
      if |words| < 2 then Err(IndexError) else Ok(words[1])
  }

  /** Whether every value is text, as `" ".join` demands of the words it joins. */
  predicate AllText(vs: seq<Value>) {
    forall i :: 0 <= i < |vs| ==> vs[i].VStr?
  }

  /** The texts of values that are all text, in order. */
  function Texts(vs: seq<Value>): (r: seq<string>)
    requires AllText(vs)
    ensures |r| == |vs| && forall i :: 0 <= i < |vs| ==> VStr(r[i]) == vs[i]
  {
    if vs == [] then [] else [vs[0].s] + Texts(vs[1..])
  }

  /** The command `at` is run with: the timespec, as `str()` renders it, between double quotes. */
  function AtCommand(timespec: Value): string {
    "at \"" + Str(timespec) + "\""
  }

  /** The script `at(*args, tag=tag)` hands to `at`; the tag is rendered by `str()`. */
  function AtScript(args: seq<Value>, tag: Option<Value>): string
    requires |args| >= 1 && AllText(args[1..])
  {
    AtInput(Texts(args[1..]), if tag.Some? then Some(Str(tag.value)) else None)
  }

  /**
   * `at(timespec, *words, tag=..., runas=...)`. Fewer than two arguments queue
   * nothing. A word that is not text makes the join raise TypeError before
   * `at` runs. A refused job reports `"invalid timespec"` for a bad time, else
   * `at`'s error output; an accepted one is looked up in the queue by its id.
   */
  method At(args: seq<Value>, tag: Option<Value>, runas: Option<string>,
            runAt: (string, string, Option<string>) -> CmdResult, runAll: string -> CmdResult,
            parseTime: string -> Option<Timestamp>, jobFiles: map<string, seq<string>>)
    returns (r: Result<Reply, Exc>)
    ensures |args| < 2 ==> r == Ok(Listing([]))
    ensures |args| >= 2 && !AllText(args[1..]) ==> r == Err(TypeError)
    ensures |args| >= 2 && AllText(args[1..]) ==>
      var res := runAt(AtCommand(args[0]), AtScript(args, tag), runas);
      r == if res.retcode > 0 then
        Ok(Reply(Some([]), Some(if Contains(res.stderr, "bad time specification") then "invalid timespec" else res.stderr), None))
      else match QueuedJobId(res.stderr)
        case Err(e) => Err(e)
        case Ok(id) => AtqReply(runAll("atq"), VStr(id), parseTime, jobFiles)
  {
    if |args| < 2 {
      return Ok(Listing([]));
    }
    if !AllText(args[1..]) {
      return Err(TypeError);
    }
    var res := runAt(AtCommand(args[0]), AtScript(args, tag), runas);
    if res.retcode > 0 {
      if Contains(res.stderr, "bad time specification") {
        return Ok(Reply(Some([]), Some("invalid timespec"), None));
      }
      return Ok(Reply(Some([]), Some(res.stderr), None));
    }
    match QueuedJobId(res.stderr) {
      case Err(e) => return Err(e);
      case Ok(id) => r := Atq(VStr(id), runAll, parseTime, jobFiles);
    }
  }

  /**
   * A job queued with a word-character tag `t`: its script starts with a line
   * that matches as `t`, and the tag read from the whole script is `t` unless
   * the command text itself holds a tag line, whose tag then wins.
   */
  lemma AtTagReadBack(words: seq<string>, t: string)
    requires t != [] && forall c :: c in t ==> IsWordChar(c)
    ensures MatchTag(SplitLines(AtInput(words, Some(t)))[0]) == Some(t)
    ensures var body := TagOf(SplitLines(Join(" ", words)));
      TagOf(SplitLines(AtInput(words, Some(t)))) == if body != "" then body else t
  {
    var head := TagMarker + t;
    assert forall c :: c in head ==> !IsLineBreak(c) by {
      forall c | c in head
        ensures !IsLineBreak(c)
      {
        if c !in TagMarker {
          assert c in t;
        }
      }
    }
    assert AtInput(words, Some(t)) == head + "\n" + Join(" ", words);
    SplitLinesHead(head, Join(" ", words));
    MatchTagOfTagLine(t, "");
    assert head + "" == head;
    TagOfAppend([head], SplitLines(Join(" ", words)));
    assert [head][..0] == [];
  }

  /**
   * What the listing reports as the tag of a job `at(*args, tag=t)` queued:
   * whatever lines precede the script in its spool file, the tag is `t`,
   * unless the command words themselves hold a tag line, whose tag then wins.
   */
  lemma AtScriptTagReadBack(args: seq<Value>, t: string, jobFiles: map<string, seq<string>>, id: string, preamble: seq<string>)
    requires |args| >= 1 && AllText(args[1..])
    requires t != [] && forall c :: c in t ==> IsWordChar(c)
    requires JobFile(id) in jobFiles && jobFiles[JobFile(id)] == preamble + SplitLines(AtScript(args, Some(VStr(t))))
    ensures var body := TagOf(SplitLines(Join(" ", Texts(args[1..]))));
      TagIn(jobFiles, id) == if body != "" then body else t
  {
    AtTagReadBack(Texts(args[1..]), t);
    TagOfAppend(preamble, SplitLines(AtScript(args, Some(VStr(t)))));
  }

  /** Command words with no tag line of their own read back exactly the tag `at` was given. */
  lemma AtPlainWordsReadBack(args: seq<Value>, t: string, jobFiles: map<string, seq<string>>, id: string, preamble: seq<string>)
    requires |args| >= 1 && AllText(args[1..])
    requires t != [] && forall c :: c in t ==> IsWordChar(c)
    requires forall l :: l in SplitLines(Join(" ", Texts(args[1..]))) ==> MatchTag(l).None?
    requires JobFile(id) in jobFiles && jobFiles[JobFile(id)] == preamble + SplitLines(AtScript(args, Some(VStr(t))))
    ensures TagIn(jobFiles, id) == t
  {
    TagOfNoMatch(SplitLines(Join(" ", Texts(args[1..]))));
    AtScriptTagReadBack(args, t, jobFiles, id, preamble);
  }

  // ---- matching jobs (`_atq` and `jobcheck`) ----

  /** The keyword filters `_atq` reads; an absent keyword is `None`. */
  datatype Filters = Filters(runas: Value, tag: Value, hour: Value, minute: Value, day: Value, month: Value, year: Value)

  function Kwarg(kwargs: Dict<string, Value>, key: string): Value {
    match Get(kwargs, key)
    case None => VNone
    case Some(v) => v
  }

  /**
   * A year given with two characters is read as `20YY`. (A truthy container's
   * text is never two characters long, so only scalars are affected.)
   */
  function CenturyYear(year: Value): Value {
    if Truthy(year) && ScalarText(year).Some? && |ScalarText(year).value| == 2 then VStr("20" + ScalarText(year).value)
    else year
  }

  function FiltersOf(kwargs: Dict<string, Value>): Filters {
    Filters(Kwarg(kwargs, "runas"), Kwarg(kwargs, "tag"), Kwarg(kwargs, "hour"), Kwarg(kwargs, "minute"),
            Kwarg(kwargs, "day"), Kwarg(kwargs, "month"), CenturyYear(Kwarg(kwargs, "year")))
  }

  /** One numeric filter: `f"{int(want):02d}" == parts[i]`, skipped when `want` is falsy. */
  function NumberField(want: Value, parts: seq<string>, i: nat): Result<bool, Exc> {
    if !Truthy(want) then Ok(true)
    else
      match ToInt(want)
      case Err(e) => Err(e)
      case Ok(n) => if i < |parts| then Ok(Format02(n) == parts[i]) else Err(IndexError)
  }

  /** The year filter as the module writes it: the value itself must equal the year text. */
  predicate YearMatchesAsWritten(want: Value, year: string) {
    want == VStr(year)
  }

  /** The year filter as intended: the value's text must equal the year text. */
  predicate YearMatches(want: Value, year: string) {
    ScalarText(want) == Some(year)
  }

  /** Passes on a matching first check, else stops with its verdict or its error. */
  function AndThen(first: Result<bool, Exc>, next: Result<bool, Exc>): Result<bool, Exc> {
    match first
    case Err(e) => Err(e)
    case Ok(b) => if b then next else Ok(false)
  }

  /**
   * Whether a job passes every filter, checked in the order owner, tag,
   * hour, minute, day, month, year; the year is compared as the module
   * writes it when `asWritten` holds, else as intended.
   */
  function JobMatchesUnder(f: Filters, j: Job, asWritten: bool): Result<bool, Exc> {
    if Truthy(f.runas) && f.runas != VStr(j.user) then Ok(false)
    else if Truthy(f.tag) && f.tag != VStr(j.tag) then Ok(false)
    else
      var clock := SplitOn(j.time, ':');
      var date := SplitOn(j.date, '-');
      AndThen(NumberField(f.hour, clock, 0),
        AndThen(NumberField(f.minute, clock, 1),
          AndThen(NumberField(f.day, date, 2),
            AndThen(NumberField(f.month, date, 1),
              Ok(!Truthy(f.year) ||
                 if asWritten then YearMatchesAsWritten(f.year, date[0]) else YearMatches(f.year, date[0]))))))
  }

  /** The filter of `_atq` with the year compared as intended, the one the rest of this model uses. */
  function JobMatches(f: Filters, j: Job): Result<bool, Exc> {
    JobMatchesUnder(f, j, false)
  }

  /**
   * The intended filter differs from the module's only on a truthy year
   * that is not text, such as the integer `year=2017`: there the module's
   * filter never lets a job through.
   */
  lemma AsWrittenDiffersOnlyOnNonTextYear(f: Filters, j: Job)
    ensures !Truthy(f.year) || f.year.VStr? ==> JobMatchesUnder(f, j, true) == JobMatches(f, j)
    ensures Truthy(f.year) && !f.year.VStr? ==> JobMatchesUnder(f, j, true) != Ok(true)
  {
  }

  function MatchStep(f: Filters): Job -> Result<Option<Job>, Exc> {
    j => match JobMatches(f, j)
      case Err(e) => Err(e)
      case Ok(b) => Ok(if b then Some(j) else None)
  }

  const NoMatchNote := "No match jobs or time format error"

  /** What `_atq(**kwargs)` returns for the queue listing `listing`. */
  function MatchingReply(kwargs: Dict<string, Value>, listing: Result<Reply, Exc>): Result<Reply, Exc> {
    match listing
    case Err(e) => Err(e)
    case Ok(rep) =>
      if rep.jobs.None? then Err(KeyError("jobs"))
      else if rep.jobs.value == [] then Ok(Listing([]))
      else
        match Gather(rep.jobs.value, MatchStep(FiltersOf(kwargs)))
        case Err(e) => Err(e)
        case Ok(jobs) => Ok(if jobs == [] then Reply(Some([]), None, Some(NoMatchNote)) else Listing(jobs))
  }

  /** `_atq(**kwargs)`: the queued jobs that pass the filters. */
  method MatchingJobs(kwargs: Dict<string, Value>, runAll: string -> CmdResult,
                      parseTime: string -> Option<Timestamp>, jobFiles: map<string, seq<string>>)
    returns (r: Result<Reply, Exc>)
    ensures r == MatchingReply(kwargs, AtqReply(runAll("atq"), VNone, parseTime, jobFiles))
  {
    var f := FiltersOf(kwargs);
    var listing := Atq(VNone, runAll, parseTime, jobFiles);
    if listing.Err? {
      return Err(listing.error);
    }
    if listing.value.jobs.None? {
      return Err(KeyError("jobs"));
    }
    var queue := listing.value.jobs.value;
    if queue == [] {
      return Ok(Listing([]));
    }
    var jobs := MatchQueue(queue, f);
    match jobs {
      case Err(e) => return Err(e);
      case Ok(js) =>
        if js == [] {
          return Ok(Reply(Some([]), None, Some(NoMatchNote)));
        }
        return Ok(Listing(js));
    }
  }

  /** One job more: what the loop of `MatchQueue` learns from `queue[i]`. */
  lemma MatchNext(queue: seq<Job>, f: Filters, i: nat)
    requires i < |queue| && Gather(queue[..i], MatchStep(f)).Ok?
    ensures var before := Gather(queue[..i], MatchStep(f)).value;
      var after := Gather(queue[..i + 1], MatchStep(f));
      match JobMatches(f, queue[i])
      case Err(e) => after == Err(e)
      case Ok(b) => after == Ok(if b then before + [queue[i]] else before)
  {
    GatherNext(queue, MatchStep(f), i);
  }

  /** The loop over the queued jobs; a filter that raises stops it. */
  method MatchQueue(queue: seq<Job>, f: Filters) returns (r: Result<seq<Job>, Exc>)
    ensures r == Gather(queue, MatchStep(f))
  {
    ghost var step := MatchStep(f);
    var jobs: seq<Job> := [];
    var i := 0;
    while i < |queue|
      invariant 0 <= i <= |queue|
      invariant Gather(queue[..i], step) == Ok(jobs)
    {
      var job := queue[i];
      MatchNext(queue, f, i);
      match JobMatches(f, job) {
        case Err(e) =>
          GatherErrorStays(queue, step, i + 1);
          return Err(e);
        case Ok(b) =>
          if b {
            jobs := jobs + [job];
          }
      }
      i := i + 1;
    }
    assert queue[..|queue|] == queue;
    return Ok(jobs);
  }

  /** `jobcheck(**kwargs)`: refuses to run without any condition, else `_atq(**kwargs)`. */
  method JobCheck(kwargs: Dict<string, Value>, runAll: string -> CmdResult,
                  parseTime: string -> Option<Timestamp>, jobFiles: map<string, seq<string>>)
    returns (r: Result<Reply, Exc>)
    ensures kwargs == [] ==> r == Ok(Reply(None, Some("You have given a condition"), None))
    ensures kwargs != [] ==> r == MatchingReply(kwargs, AtqReply(runAll("atq"), VNone, parseTime, jobFiles))
  {
    if kwargs == [] {
      return Ok(Reply(None, Some("You have given a condition"), None));
    }
    r := MatchingJobs(kwargs, runAll, parseTime, jobFiles);
  }

  /** The fields of a listed time, split on `:`. */
  lemma IsoTimeFields(t: Timestamp)
    ensures SplitOn(IsoTime(t), ':') == [ZeroPad(t.hour, 2), ZeroPad(t.minute, 2), "00"]
  {
    var hh := ZeroPad(t.hour, 2);
    var mm := ZeroPad(t.minute, 2);
    assert ':' !in hh && ':' !in mm && ':' !in "00";
    assert IsoTime(t) == hh + [':'] + (mm + [':'] + "00");
    SplitOnHead(hh, ':', mm + [':'] + "00");
    SplitOnHead(mm, ':', "00");
  }

  /** The fields of a listed date, split on `-`. */
  lemma IsoDateFields(t: Timestamp)
    ensures SplitOn(IsoDate(t), '-') == [ZeroPad(t.year, 4), ZeroPad(t.month, 2), ZeroPad(t.day, 2)]
  {
    var yy := ZeroPad(t.year, 4);
    var mm := ZeroPad(t.month, 2);
    var dd := ZeroPad(t.day, 2);
    assert '-' !in yy && '-' !in mm && '-' !in dd;
    assert IsoDate(t) == yy + ['-'] + (mm + ['-'] + dd);
    SplitOnHead(yy, '-', mm + ['-'] + dd);
    SplitOnHead(mm, '-', dd);
  }

  /** A truthy numeric filter matches a two-digit field exactly when it denotes that field's number. */
  lemma NumberFieldMeaning(want: Value, parts: seq<string>, i: nat, field: nat)
    requires Truthy(want) && ToInt(want).Ok?
    requires i < |parts| && parts[i] == ZeroPad(field, 2)
    ensures NumberField(want, parts, i) == Ok(ToInt(want).value == field)
  {
    Format02Injective(ToInt(want).value, field);
  }

  /** Whether an owner or tag filter lets a job text through. */
  predicate TextWanted(want: Value, text: string) {
    !Truthy(want) || want == VStr(text)
  }

  /** Whether a numeric filter lets a number through. */
  predicate NumberWanted(want: Value, n: nat) {
    !Truthy(want) || ToInt(want) == Ok(n)
  }

  /** A numeric filter that is either off or convertible with `int()`. */
  predicate Convertible(want: Value) {
    !Truthy(want) || ToInt(want).Ok?
  }

  /**
   * For a listed job, matching is the conjunction of the filters read as
   * numbers and texts: the owner and tag by equality, hour, minute, day and
   * month by their numeric value, the year by its text.
   */
  lemma JobMatchesMeaning(f: Filters, j: Job, t: Timestamp)
    requires j.time == IsoTime(t) && j.date == IsoDate(t)
    requires Convertible(f.hour) && Convertible(f.minute) && Convertible(f.day) && Convertible(f.month)
    ensures JobMatches(f, j) == Ok(
      TextWanted(f.runas, j.user) && TextWanted(f.tag, j.tag) &&
      NumberWanted(f.hour, t.hour) && NumberWanted(f.minute, t.minute) &&
      NumberWanted(f.day, t.day) && NumberWanted(f.month, t.month) &&
      (!Truthy(f.year) || YearMatches(f.year, ZeroPad(t.year, 4))))
  {
    var clock := SplitOn(j.time, ':');
    var date := SplitOn(j.date, '-');
    IsoTimeFields(t);
    IsoDateFields(t);
    if Truthy(f.hour) { NumberFieldMeaning(f.hour, clock, 0, t.hour); }
    if Truthy(f.minute) { NumberFieldMeaning(f.minute, clock, 1, t.minute); }
    if Truthy(f.day) { NumberFieldMeaning(f.day, date, 2, t.day); }
    if Truthy(f.month) { NumberFieldMeaning(f.month, date, 1, t.month); }
  }

  /** Every job `_atq` returns is a listed job that passes the filters. */
  lemma MatchingSound(kwargs: Dict<string, Value>, listing: Result<Reply, Exc>, j: Job)
    requires MatchingReply(kwargs, listing).Ok? && MatchingReply(kwargs, listing).value.jobs.Some?
    requires j in MatchingReply(kwargs, listing).value.jobs.value
    ensures listing.Ok? && listing.value.jobs.Some? && j in listing.value.jobs.value
    ensures JobMatches(FiltersOf(kwargs), j) == Ok(true)
  {
    var queue := listing.value.jobs.value;
    GatherSound(queue, MatchStep(FiltersOf(kwargs)), j);
  }

  /** Every listed job that passes the filters is returned. */
  lemma MatchingComplete(kwargs: Dict<string, Value>, listing: Result<Reply, Exc>, i: nat)
    requires MatchingReply(kwargs, listing).Ok? && listing.Ok? && listing.value.jobs.Some?
    requires i < |listing.value.jobs.value| && JobMatches(FiltersOf(kwargs), listing.value.jobs.value[i]) == Ok(true)
    ensures listing.value.jobs.value[i] in MatchingReply(kwargs, listing).value.jobs.value
  {
    GatherComplete(listing.value.jobs.value, MatchStep(FiltersOf(kwargs)), i);
  }

  /** A two-digit year is read in the 2000s. */
  lemma CenturyYearOfTwoDigits(n: nat)
    requires 10 <= n < 100
    ensures CenturyYear(VInt(n)) == VStr("20" + NatToString(n))
  {
    assert |NatToString(n)| == |NatToString(n / 10)| + 1;
  }

  /**
   * The year filter as written never matches a four-digit year given as an
   * integer, which is how `year=2017` arrives from the command line, while
   * the intended filter matches it.
   */
  lemma YearFilterMissesIntegerYear(year: nat)
    requires year >= 1000
    ensures CenturyYear(VInt(year)) == VInt(year)
    ensures !YearMatchesAsWritten(VInt(year), ZeroPad(year, 4))
    ensures YearMatches(VInt(year), ZeroPad(year, 4))
  {
    YearMatchesMeaning(year, year);
    assert |NatToString(year)| == |NatToString(year / 10)| + 1;
    assert |NatToString(year / 10)| == |NatToString(year / 100)| + 1;
    assert |NatToString(year / 100)| == |NatToString(year / 1000)| + 1;
  }

  /** The intended year filter matches a listed year exactly when the integer is that year. */
  lemma YearMatchesMeaning(n: int, year: nat)
    requires year >= 1000
    ensures YearMatches(VInt(n), ZeroPad(year, 4)) <==> n == year
  {
    assert |NatToString(year)| == |NatToString(year / 10)| + 1;
    assert |NatToString(year / 10)| == |NatToString(year / 100)| + 1;
    assert |NatToString(year / 100)| == |NatToString(year / 1000)| + 1;
    assert ZeroPad(year, 4) == NatToString(year);
    if n < 0 {
      assert IntToString(n)[0] == '-';
      assert NatToString(year)[0] in NatToString(year);
    } else if IntToString(n) == NatToString(year) {
      NatToStringInjective(n, year);
    }
  }
}
