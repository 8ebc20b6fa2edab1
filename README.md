# Salt plugin modules, modelled in Dafny

This project models the decision, parsing and text-building logic of eight
Salt plugin modules, and proves what each promises:

- **`puppet`** execution module (`Puppet`):
  - reading `facter` output into facts;
  - building the `puppet` command line, wrapped so that exit status 2 counts as success;
  - the subcommand and argument filtering of `run` and `noop`;
  - the agent status read from the lock and pid files;
  - enabling and disabling the agent through its lock file;
  - projecting the last-run report onto a summary.
- **`at_solaris`** execution module (`AtSolaris`):
  - listing the `at` queue with the job tags read from the spool files;
  - removing jobs, with the removed/failed bookkeeping;
  - queueing a tagged job;
  - the time and owner filters of `_atq` and `jobcheck`.
- **`ipset`** state module (`Ipset`):
  - `set_present`, `set_absent` and `flush`;
  - `present` and `absent` over one or several entries;
  - composing an entry from its address, inline options and the `timeout`/`comment` keywords.
- **salt-ssh `grains`** wrapper (`Grains`): the serial-number mask, the sanitising of a copy of the grains, `items`, `item` and `ls`.
- **`network_info`** beacon (`NetworkInfo`): validating the configuration and the per-interface counter thresholds.
- **`salt_monitor`** beacon (`SaltMonitor`): argument parsing, validation and event assembly.
- **`salt_proxy`** beacon (`SaltProxy`): start-if-not-running bookkeeping.
- **`rabbitmq_policy`** state module (`RabbitmqPolicy`): update detection, and the changes and result of `present` and `absent`.

Everything these modules ask of the outside world is a parameter of the
model:

- the `__salt__` execution functions and the commands they run;
- the files on disk and process liveness;
- `time.strptime`, `datetime.fromtimestamp` and `json.loads`;
- the psutil counters.

A call that changes the managed system is returned as a trace, so that
"never called" can be stated. The test-mode option `__opts__["test"]` is a
boolean parameter.

Shared modules:

- `Dicts` holds Python's insertion-ordered dictionaries, as sequences of pairs.
- `PyValue` holds Python's dynamic values, truthiness, `int()` and exceptions.
- `PyText` holds the `str` methods used (strip, split, splitlines, zero padding).
- `PySort` holds sorting of texts.
- `Gathering` holds the generic loops "append what each item yields" (`Gather`) and "fold over the items" (`Fold`), with their soundness and completeness lemmas.

Loops in the source are `method`s with invariants, each proved equal to a
function that states the result. The properties of the modules are
lemmas about those functions.

## Model

| member | source | states |
|---|---|---|
| Puppet.FormatFact | salt/modules/puppet.py:38-45 | a line without `" => "` gives nothing; otherwise the name is the text before the first separator, untrimmed, and the value is the rest, trimmed |
| Puppet.Facts | salt/modules/puppet.py:346-375 | a failing `facter` raises CommandExecutionError with its stderr; otherwise the facts are those its output lines assign |
| Puppet.FactsOfAssigned | salt/modules/puppet.py:368-374 | every fact a kept line assigns is reported |
| Puppet.FactsOfUnassigned | salt/modules/puppet.py:368-374 | a fact no kept line assigns (empty lines and empty names are skipped) is not reported |
| Puppet.FactsOfLastWins | salt/modules/puppet.py:368-374 | a fact assigned several times takes the value of its last line |
| Puppet.Fact | salt/modules/puppet.py:378-396 | raises with stderr exactly when `facter <name>` fails, else returns its stdout (empty stays empty) |
| Puppet.PosixWrapped | salt/modules/puppet.py:78-95 | on POSIX the command line starts `(puppet <subcommand>` and ends with `) \|\| test $? -eq 2` |
| Puppet.PosixExitStatus | salt/modules/puppet.py:95 | read by the shell's rules for `\|\|` and `test -eq`, the POSIX command line exits with `WrappedExitStatus` of puppet's status |
| Puppet.WrappedExitStatus | salt/modules/puppet.py:95 | the wrapped command exits 0 exactly when puppet exits with 0 or 2 (2 being a run that applied changes), and 1 otherwise |
| Puppet.ReportedConf | salt/modules/puppet.py:65-76 | a reported configuration that is no mapping raises TypeError; the first of `vardir`, `rundir`, `confdir` it lacks raises KeyError; a `vardir` or `rundir` that is not text raises TypeError; otherwise the three directories are read, `confdir` as its `str()` |
| Puppet.Invocation.constructor | salt/modules/puppet.py:53-76 | a fresh invocation is `agent` with no arguments and `color: false`, and the four paths are derived from the vardir and rundir that `ReportedConf` read |
| Puppet.Invocation.Repr | salt/modules/puppet.py:78-95 | the rendered command is the `puppet` command wrapped so exit status 2 counts as success |
| Puppet.Invocation.Arguments | salt/modules/puppet.py:97-117 | `apply` takes the first token as its manifest and fails with IndexError on no tokens; `agent` appends `test` after the given tokens |
| Puppet.PassedArgs | salt/modules/puppet.py:142-150 | a token is passed on exactly when it was given and is not `agent`/`apply`; tokens that are all non-subcommand ones are passed on unchanged |
| Puppet.PassedArgsConcat | salt/modules/puppet.py:142-150 | the tokens passed on from two runs of tokens are those of the first followed by those of the second, so order and repetitions are kept |
| Puppet.PassedArgsSingle | salt/modules/puppet.py:142-150 | a lone `agent`/`apply` token passes nothing on, and any other lone token is passed on |
| Puppet.Plan | salt/modules/puppet.py:142-152 | fails exactly for `apply` without tokens; otherwise the manifest and flags together are the passed tokens, in order, plus `test` for `agent` |
| Puppet.Run | salt/modules/puppet.py:120-157 | runs the command built from the selected subcommand, the filtered arguments and the merged options, or raises what building it raises |
| Puppet.LastSubcommandWins | salt/modules/puppet.py:142-148 | the last `agent`/`apply` token decides the subcommand |
| Puppet.DefaultSubcommand | salt/modules/puppet.py:59 | without such a token the subcommand is `agent` |
| Puppet.ColorOverride | salt/modules/puppet.py:154 | the caller's `color` option replaces the seeded `false`, and `color` stays the first option |
| Puppet.NoopPlan | salt/modules/puppet.py:160-175 | adding `noop` keeps the subcommand, appends `noop` to the passed tokens and never makes the plan fail |
| Puppet.Noop | salt/modules/puppet.py:160-175 | a no-op run always builds its command and runs it |
| Puppet.Status | salt/modules/puppet.py:245-282 | the disabled lock wins; then the run lock (applying, or stale when it cannot be opened or its pid is unparsable or dead); then the pid file (idle, or stale on the same grounds); else stopped; each verdict with its exact condition, both directions; an exception other than `OSError` from the signal escapes, and only then |
| Puppet.Enable | salt/modules/puppet.py:178-201 | True exactly when the lock existed and was removed, then the lock is gone; False when there was none; a removal error raises |
| Puppet.Disable | salt/modules/puppet.py:204-242 | False and nothing changes when already disabled; otherwise the lock is written with the JSON message; an error opening the lock escapes and leaves the files alone; an error writing it is reported and leaves an empty lock behind |
| Puppet.DisableThenStatus | salt/modules/puppet.py:204-282 | after a successful disable, status reports the agent administratively disabled |
| Puppet.DisableTwice | salt/modules/puppet.py:204-242 | a second disable reports False and keeps the first message |
| Puppet.EnableUndoesDisable | salt/modules/puppet.py:178-242 | enabling after a successful disable restores the files as they were |
| Puppet.LastRunEntry | salt/modules/puppet.py:305-311 | a timestamp that converts is reported as its time; a type, value or key error on the way gives `invalid or missing timestamp`; any other error escapes unchanged |
| Puppet.LastRunOfMapping | salt/modules/puppet.py:305-311 | with a `time` mapping: a missing `last_run`, or one `int()` refuses, gives `invalid or missing timestamp`; a number whose time converts gives that time |
| Puppet.LastRunEntryOk | salt/modules/puppet.py:305-316 | when the time conversion raises only type or value errors, `last_run` is always produced |
| Puppet.Summary | salt/modules/puppet.py:285-326 | a read or YAML error maps to its own message; a summary holds no key other than `last_run`, `time` and `resources` |
| Puppet.TimeProjectionOfDict | salt/modules/puppet.py:316 | the projected `time` holds exactly the listed keys the report's time has, with their values |
| Puppet.TimedSummaryOfMapping | salt/modules/puppet.py:305-316 | a report with a `time` mapping gives `last_run`, holding the reported timestamp text, then `time`, keeping only `total` and `config_retrieval` |
| Puppet.WithResourcesOfMapping | salt/modules/puppet.py:318-319 | `resources` is copied unchanged, and only when the report has it |
| Puppet.SummaryOfMapping | salt/modules/puppet.py:305-319 | `last_run` and `time` appear exactly when the report has `time`, `last_run` holding the reported timestamp text; `time` then holds exactly the report's `total` and `config_retrieval`; `resources` appears exactly when the report has it, unchanged |
| Puppet.SummaryTimeOfMapping | salt/modules/puppet.py:310-316 | the summary's `time` of a report with a `time` mapping holds exactly that mapping's `total` and `config_retrieval` entries |
| AtSolaris.MatchTag | salt/modules/at_solaris.py:97-105 | a match captures a non-empty run of word characters that follows `### SALT: ` at the start of the line |
| AtSolaris.MatchTagOfTagLine | salt/modules/at_solaris.py:97-105 | a tag line written for a word-character tag reads back as that tag |
| AtSolaris.TagOfLastMatch | salt/modules/at_solaris.py:97-105 | the last matching line of the script decides the tag |
| AtSolaris.TagOfAppend | salt/modules/at_solaris.py:97-105 | the tag of lines followed by more lines is that of the later lines when they hold a tag line, else that of the earlier ones |
| AtSolaris.TagOfNoMatch | salt/modules/at_solaris.py:76-105 | a script without a tag line, or a missing spool file, has the empty tag |
| AtSolaris.JobTag | salt/modules/at_solaris.py:97-105 | reading the spool file line by line finds the tag the script's lines determine |
| AtSolaris.ListedJob | salt/modules/at_solaris.py:75-129 | one listing line gives no job for the header, else the parsed job with its tag when the filter keeps it |
| AtSolaris.Atq | salt/modules/at_solaris.py:44-131 | reports `atq`'s error, an empty queue, or the listed jobs that pass the tag filter |
| AtSolaris.ListJobs | salt/modules/at_solaris.py:75-129 | the loop keeps the jobs of the listing lines in order and stops at the first malformed line |
| AtSolaris.AtqListsSelected | salt/modules/at_solaris.py:75-129 | every listed job passes the tag filter, carries the tag of its spool file and comes from a non-header line of the listing |
| AtSolaris.AtqListsEveryJob | salt/modules/at_solaris.py:75-129 | every job line of the listing parses; its job is listed whenever it passes the tag filter, which every job does when the tag is not truthy |
| AtSolaris.AtqRaises | salt/modules/at_solaris.py:75-129 | the listing raises exactly when some job line is malformed |
| AtSolaris.JobIds | salt/modules/at_solaris.py:150-161 | `all` selects every queued job id, in queue order |
| AtSolaris.NamedIds | salt/modules/at_solaris.py:157-161 | otherwise exactly the requested ids that are queued are selected, at most one per queued job |
| AtSolaris.NamedIdsConcat | salt/modules/at_solaris.py:157-161 | the ids selected from two runs of queued jobs are those of the first followed by those of the second, so the selection keeps queue order |
| AtSolaris.NamedIdsSingle | salt/modules/at_solaris.py:157-161 | one queued job is selected exactly when its id, as text, is among the arguments |
| AtSolaris.NonTextArgsSelectNothing | salt/modules/at_solaris.py:157-161 | arguments that are not text, such as an id the command line delivers as a number, select no job, because ids are compared as text |
| AtSolaris.RemoveFirst | salt/modules/at_solaris.py:172-174 | `list.remove` takes out the first occurrence of a present element and keeps the others in order; the callers only remove elements that are present, so Python's ValueError for an absent one cannot arise |
| AtSolaris.FirstIndex | salt/modules/at_solaris.py:172-174 | the position `list.remove` acts on holds the element, and no earlier position does |
| AtSolaris.RemoveFirstCount | salt/modules/at_solaris.py:172-174 | removing a present element lowers its count by one and leaves every other count alone |
| AtSolaris.Atrm | salt/modules/at_solaris.py:134-176 | no arguments remove nothing; otherwise the selected jobs are tried and reported removed or failed |
| AtSolaris.RemoveJobs | salt/modules/at_solaris.py:164-174 | the removal loop yields the selected jobs less the failed ones, and the failures |
| AtSolaris.TryRemovals | salt/modules/at_solaris.py:164-169 | `failed` appears with the first refused removal and records each refused job with its stderr |
| AtSolaris.DropFailed | salt/modules/at_solaris.py:172-174 | dropping each failed job from the selection never misses one |
| AtSolaris.FailedKeysChosen | salt/modules/at_solaris.py:164-169 | the failed jobs are distinct selected jobs |
| AtSolaris.FailedMeansRefused | salt/modules/at_solaris.py:164-169 | a selected job failed exactly when its `atrm` run reported a positive exit code, and its stderr is recorded |
| AtSolaris.RemovalPartition | salt/modules/at_solaris.py:164-174 | removed and failed split the selection: a job is removed exactly when its removal succeeded, failed exactly when it was refused, and `failed` is present exactly when one was refused |
| AtSolaris.RemoveEachCount | salt/modules/at_solaris.py:172-174 | removing distinct present jobs takes each out exactly once |
| AtSolaris.At | salt/modules/at_solaris.py:179-218 | fewer than two arguments queue nothing; a command word that is not text, such as a number from the command line, raises TypeError before `at` runs; a refused job reports `invalid timespec` or `at`'s stderr; an accepted one is listed by its id |
| AtSolaris.AtTagReadBack | salt/modules/at_solaris.py:200-203 | the first line of a tagged job's script matches as its tag; the tag read from the whole script is that tag, unless the command text holds a tag line of its own, whose tag then wins |
| AtSolaris.AtScriptTagReadBack | salt/modules/at_solaris.py:200-203 | for a job `at(*args, tag=t)` queued, with text words and a word-character tag, the listing's tag from its spool file (any lines, then the script) is `t`, unless the command words hold a tag line, whose tag then wins |
| AtSolaris.AtPlainWordsReadBack | salt/modules/at_solaris.py:200-203 | command words without a tag line of their own read back exactly the tag `at` was given |
| AtSolaris.MatchingJobs | salt/modules/at_solaris.py:244-322 | `_atq` returns the queued jobs that pass the filters, with the no-match note when none does |
| AtSolaris.MatchQueue | salt/modules/at_solaris.py:265-316 | the filter loop keeps the passing jobs in order and stops at a filter that raises |
| AtSolaris.JobCheck | salt/modules/at_solaris.py:325-342 | no conditions give the error text; otherwise it answers what `_atq` answers |
| AtSolaris.IsoTimeFields | salt/modules/at_solaris.py:86-90 | a listed time splits into zero-padded hour, minute and `00` |
| AtSolaris.IsoDateFields | salt/modules/at_solaris.py:86-90 | a listed date splits into four-digit year, zero-padded month and day |
| AtSolaris.NumberFieldMeaning | salt/modules/at_solaris.py:281-307 | a numeric filter matches a two-digit field exactly when it denotes that field's number |
| AtSolaris.JobMatchesMeaning | salt/modules/at_solaris.py:265-316 | a job passes exactly when owner and tag are equal, hour, minute, day and month have the asked numbers and the year has the asked text, each filter only when truthy |
| AtSolaris.MatchingSound | salt/modules/at_solaris.py:265-316 | every returned job is a queued job that passes the filters |
| AtSolaris.MatchingComplete | salt/modules/at_solaris.py:265-316 | every queued job that passes the filters is returned |
| AtSolaris.CenturyYearOfTwoDigits | salt/modules/at_solaris.py:258-259 | a two-digit year is read in the 2000s |
| AtSolaris.YearFilterMissesIntegerYear | salt/modules/at_solaris.py:309-314 | as written, an integer year of four digits never matches a job of that very year, which the corrected filter matches |
| AtSolaris.AsWrittenDiffersOnlyOnNonTextYear | salt/modules/at_solaris.py:265-316 | the filter as written and the corrected one agree whenever the year filter is falsy or text; with a truthy non-text year the one as written passes no job |
| AtSolaris.YearMatchesMeaning | salt/modules/at_solaris.py:309-314 | the corrected year filter matches exactly the jobs of the asked year |
| Ipset.SetPresent | salt/states/ipset.py:69-107 | an existing set is left alone with success; test mode creates nothing and reports None; changes appear exactly when creation succeeded, and failure is reported False |
| Ipset.SetAbsent | salt/states/ipset.py:110-149 | the exact calls made: the check, then the flush only for an existing set outside test mode, then the delete only after a successful flush; an absent set succeeds untouched; a failed flush fails the state with its message; changes exactly when the delete succeeded |
| Ipset.FlushState | salt/states/ipset.py:298-331 | a missing set fails; test mode reports None; flush is called exactly for an existing set outside test mode; success and changes go together |
| Ipset.SplitEntry | salt/states/ipset.py:183-185 | an entry holding a space is split at its first space, the address holding none |
| Ipset.EntryRequired | salt/states/ipset.py:171-174 | without an entry, present and absent both fail with the same comment and call nothing |
| Ipset.Present | salt/states/ipset.py:152-220 | the state is the outcome of checking, then adding, each entry in order |
| Ipset.AddEntry | salt/states/ipset.py:182-219 | one pass checks the composed entry, then adds it unless the set has it |
| Ipset.PresentTestNeverAdds | salt/states/ipset.py:197-203 | in test mode `present` never calls `add` |
| Ipset.PresentFailureSticks | salt/states/ipset.py:205-219 | outside test mode, a failed `present` stays failed |
| Ipset.PresentSuccessSticks | salt/states/ipset.py:205-219 | outside test mode, only a refused add takes `present` out of success |
| Ipset.PresentResult | salt/states/ipset.py:192-219 | outside test mode, `present` succeeds exactly when no add is refused |
| Ipset.PresentFailsAt | salt/states/ipset.py:212-219 | one refused add fails the whole state |
| Ipset.PresentKeepsPresentEntry | salt/states/ipset.py:192-195 | an entry already in the set only appends its line to the comment |
| Ipset.PresentFailureReplacesComment | salt/states/ipset.py:212-219 | a refused add sets the result False and replaces the comment with the refusal |
| Ipset.Absent | salt/states/ipset.py:223-295 | the state is the outcome of checking, then deleting, each entry in order |
| Ipset.DeleteEntry | salt/states/ipset.py:250-294 | one pass checks the composed entry, then deletes the bare address if the set has it |
| Ipset.AbsentDeletesBareAddress | salt/states/ipset.py:277-294 | every delete call carries the bare address, never the options |
| Ipset.AbsentTestNeverDeletes | salt/states/ipset.py:269-275 | in test mode `absent` never calls `delete` |
| Ipset.AbsentNothingToRemove | salt/states/ipset.py:261-267 | when no entry is in the set, `absent` succeeds without changes |
| Ipset.OptionsWithoutKeywords | salt/states/ipset.py:186-189 | without `timeout` and `comment` keywords the inline options are used as given |
| Ipset.OptionsAlreadyComplete | salt/states/ipset.py:186-189 | options that already name a timeout and a comment ignore the keywords |
| Ipset.OptionsTimeoutFirst | salt/states/ipset.py:186-187 | a `timeout` keyword goes first when the options do not name one |
| Ipset.OptionsCommentLast | salt/states/ipset.py:188-189 | a `comment` keyword goes last when the options do not name one |
| Ipset.PresentAndAbsentCompose | salt/states/ipset.py:183-258 | for every address and comment text without outer whitespace, with only a `comment` keyword, `present` composes the address, one space and `comment <text>`, and `absent` the same with two spaces |
| Ipset.PresentComposes | salt/states/ipset.py:190 | for every address and comment, `present` drops the options' leading space before joining |
| Ipset.AbsentComposes | salt/states/ipset.py:258 | for every address and comment, `absent` joins the options with their leading space kept |
| Ipset.CommentOnlyOptions | salt/states/ipset.py:188-189 | for every comment text, a `comment` keyword on empty options gives ` comment <text>` |
| Grains.MaskSerial | salt/client/ssh/wrapper/grains.py:16-22 | the mask keeps the length, the first three quarters rounded down, and puts `X` in the rest |
| Grains.Sanitize | salt/client/ssh/wrapper/grains.py:16-34 | only the serial sanitiser on a non-text value raises; on text it masks |
| Grains.SanitizerTable | salt/client/ssh/wrapper/grains.py:39-47 | the table names seven grains, each once |
| Grains.FixedSanitizers | salt/client/ssh/wrapper/grains.py:25-34 | the three fixed sanitisers ignore their input and never raise, giving `DOMAINNAME`, `MINION.DOMAINNAME` and `MINION` |
| Grains.SanitizerKeys | salt/client/ssh/wrapper/grains.py:39-47 | `serialnumber` is masked, `domain` becomes `DOMAINNAME`, `fqdn` and `id` become `MINION.DOMAINNAME`, and `host`, `localhost` and `nodename` become `MINION` |
| Grains.SanitizedMeaning | salt/client/ssh/wrapper/grains.py:119-124 | sanitising keeps the grain names and order, replaces exactly the grains the table names, and fails exactly when one of those fails |
| Grains.Items | salt/client/ssh/wrapper/grains.py:103-126 | without sanitising the grains are returned as they are; with it, their sanitised copy |
| Grains.SanitizeCopy | salt/client/ssh/wrapper/grains.py:119-124 | the loop over the table rewrites the copy into the sanitised grains |
| Grains.ItemsSanitized | salt/client/ssh/wrapper/grains.py:119-124 | the sanitised copy has the same grain names, changes only grains the table names, and leaves the rest alone |
| Grains.ItemsFailure | salt/client/ssh/wrapper/grains.py:119-124 | sanitising fails exactly when the serial number is there and is not text |
| Grains.SerialEntry | salt/client/ssh/wrapper/grains.py:39-47 | only `serialnumber` has the serial sanitiser |
| Grains.Item | salt/client/ssh/wrapper/grains.py:129-156 | the named grains that exist, sanitised when asked |
| Grains.ItemKeys | salt/client/ssh/wrapper/grains.py:146-151 | the result holds exactly the requested grains that exist, with their values; missing names are skipped |
| Grains.Ls | salt/client/ssh/wrapper/grains.py:159-169 | the grain names, sorted, each as often as in the grains |
| NetworkInfo.ToList | salt/beacons/network_info.py:34-43 | the loop picks the named counters in their fixed order |
| NetworkInfo.ToListMeaning | salt/beacons/network_info.py:22-43 | exactly the eight named counters the object has are kept, with their values |
| NetworkInfo.CheckInterfaces | salt/beacons/network_info.py:79-92 | accepts exactly when every item, looked up in the interfaces by subscript, is a map naming a valid item; otherwise the answer is the first item's failed lookup or its complaint |
| NetworkInfo.Validate | salt/beacons/network_info.py:55-92 | a configuration that is not a list is refused with its message; interfaces that cannot be iterated raise what iterating raises; otherwise the answer is the interface check's |
| NetworkInfo.DictInterfacesNeverRaise | salt/beacons/network_info.py:79-92 | interfaces given as a map never make validation raise |
| NetworkInfo.ValidateAccepts | salt/beacons/network_info.py:55-92 | an accepted configuration is a list whose interfaces iterate to nothing, or are a map in which every interface is a map naming a valid item |
| NetworkInfo.ListNeverPasses | salt/beacons/network_info.py:79-92 | a non-empty list of interfaces, indexed by its own items, always has an item that fails |
| NetworkInfo.ZeroListRefused | salt/beacons/network_info.py:79-84 | `interfaces: [0]` finds the number 0 at position 0 and is refused as not a list of maps |
| NetworkInfo.TrueListRaises | salt/beacons/network_info.py:79-80 | `interfaces: [True]` looks up position 1 of a one-item list and raises IndexError |
| NetworkInfo.Diff | salt/beacons/network_info.py:156-179 | the flag loop reports whether a configured counter met its threshold |
| NetworkInfo.FiringMeaning | salt/beacons/network_info.py:156-179 | an interface fires exactly when one configured counter meets its threshold; counters not configured play no part |
| NetworkInfo.GreaterIsStrict | salt/beacons/network_info.py:167-172 | `greater` compares strictly: a counter at its threshold does not fire, one above it does |
| NetworkInfo.EqualUnlessGreater | salt/beacons/network_info.py:159-179 | under every type other than `greater` (none, `equal`, or anything else) a counter fires exactly when it equals its threshold, and a threshold `int()` refuses raises |
| NetworkInfo.Beacon | salt/beacons/network_info.py:95-184 | the beacon gives the events of the accepted configuration's interfaces |
| NetworkInfo.Events | salt/beacons/network_info.py:146-184 | the interface loop appends the event of every interface that fired, in configuration order |
| NetworkInfo.InterfaceEvent | salt/beacons/network_info.py:152-183 | one pass gives an event only for a configured interface psutil reports |
| NetworkInfo.BeaconMeaning | salt/beacons/network_info.py:152-183 | an event is for a configured interface psutil reports, one of whose counters fired, with its snapshot; every such interface has its event |
| NetworkInfo.EventMeansFired | salt/beacons/network_info.py:152-183 | an event is only for a reported interface whose counters fired, and carries all its named counters |
| SaltMonitor.MergeKwargs | salt/beacons/salt_monitor.py:37-38 | the update loop merges the maps, raising on a non-map |
| SaltMonitor.MergedPairs | salt/beacons/salt_monitor.py:37-38 | merging maps is one update with all their pairs in order |
| SaltMonitor.MergedKeys | salt/beacons/salt_monitor.py:37-38 | the merged map holds exactly the keys of the maps, each with its last value |
| SaltMonitor.MergeUntouched | salt/beacons/salt_monitor.py:37-38 | maps without a key leave its value as it was |
| SaltMonitor.MergedLaterWins | salt/beacons/salt_monitor.py:37-38 | a later map's key overrides the same key of every earlier map |
| SaltMonitor.ParsedArgs | salt/beacons/salt_monitor.py:31-39 | `args` defaults to an empty list, `kwargs` to an empty map, a non-map raises, and a non-empty kwargs result is a map |
| SaltMonitor.ParseArgs | salt/beacons/salt_monitor.py:31-39 | the parsing with its merge loop gives the parsed arguments |
| SaltMonitor.ParsedKwargs | salt/beacons/salt_monitor.py:31-39 | a `kwargs` list of maps is merged, later maps winning |
| SaltMonitor.Validate | salt/beacons/salt_monitor.py:42-87 | a configuration without `salt_fun` raises KeyError; acceptance says `valid config` |
| SaltMonitor.PairsMeaning | salt/beacons/salt_monitor.py:66-75 | a `kwargs` list passes exactly when all its items are maps |
| SaltMonitor.KeyCheckMeaning | salt/beacons/salt_monitor.py:55-79 | one key passes exactly when it is `args` with a list or `kwargs` with a list of maps |
| SaltMonitor.KeysMeaning | salt/beacons/salt_monitor.py:55-79 | the keys of an argument map all pass exactly when the map is well formed |
| SaltMonitor.KeysMeaningDict | salt/beacons/salt_monitor.py:55-79 | every key of a map passes exactly when each key is allowed with its value |
| SaltMonitor.EntryMeaning | salt/beacons/salt_monitor.py:49-85 | one `salt_fun` item passes exactly when it is well formed and names a known function |
| SaltMonitor.ValidateMeaning | salt/beacons/salt_monitor.py:42-87 | validation accepts, with `valid config`, exactly the well-formed configurations: a known name, or a list of known names and well-formed one-key maps |
| SaltMonitor.MonitorEventKeys | salt/beacons/salt_monitor.py:111-117 | an event's keys are `salt_fun` and `ret`, then `args` and `kwargs` when they are not empty |
| SaltMonitor.MonitorEventShape | salt/beacons/salt_monitor.py:111-117 | an event names the function and its return, and carries arguments exactly when they are not empty |
| SaltMonitor.EntryEvent | salt/beacons/salt_monitor.py:100-118 | an unknown function raises KeyError; an event names the item's function and a truthy return |
| SaltMonitor.Beacon | salt/beacons/salt_monitor.py:90-118 | the beacon gives the events of one interval, or what Python raises |
| SaltMonitor.RunEntries | salt/beacons/salt_monitor.py:100-118 | the loop appends the event of each configured function, in order |
| SaltMonitor.SingleFunction | salt/beacons/salt_monitor.py:94-98 | a single function name gives exactly one event, whatever it returns |
| SaltMonitor.ListEvents | salt/beacons/salt_monitor.py:100-118 | with a list, the events are exactly those of the functions with a truthy return |
| SaltMonitor.ListEventsInOrder | salt/beacons/salt_monitor.py:100-118 | when every function returns something truthy there is one event per function, in configuration order |
| SaltProxy.Reports | salt/beacons/salt_proxy.py:15-32 | one single-key report per proxy, in order, saying it was started exactly when it was not running |
| SaltProxy.RunProxyProcesses | salt/beacons/salt_proxy.py:15-32 | the loop's reports and calls are those the proxies determine |
| SaltProxy.TraceMeaning | salt/beacons/salt_proxy.py:24-30 | exactly the configured proxies are asked about, and exactly those not running are started |
| SaltProxy.TraceOrder | salt/beacons/salt_proxy.py:21-32 | the calls for each proxy come in configuration order |
| SaltProxy.Validate | salt/beacons/salt_proxy.py:35-52 | accepts exactly a list whose `proxies` is a map, and says which check failed otherwise |
| SaltProxy.Beacon | salt/beacons/salt_proxy.py:55-71 | the beacon handles exactly the keys of the `proxies` map, in order |
| RabbitmqPolicy.StoredPolicy | salt/states/rabbitmq_policy.py:63-64 | an unknown vhost gives no policy; only a vhost entry that is not a map raises |
| RabbitmqPolicy.Decoded | salt/states/rabbitmq_policy.py:69-73 | an empty definition is `""`, a text is decoded, anything else raises |
| RabbitmqPolicy.Listed | salt/states/rabbitmq_policy.py:65-79 | each update is listed exactly when its attribute differs, in the order Pattern, Definition, Applyto, Priority; none are listed exactly when nothing differs |
| RabbitmqPolicy.Updates | salt/states/rabbitmq_policy.py:65-79 | the detected updates are in the fixed order, each at most once |
| RabbitmqPolicy.DetectUpdates | salt/states/rabbitmq_policy.py:65-79 | the appending checks give the detected updates, or what decoding or `int()` raises |
| RabbitmqPolicy.UpdatesMeaning | salt/states/rabbitmq_policy.py:65-79 | Pattern, Definition (after decoding), Applyto (only when given) and Priority (as an integer) are each listed exactly when they differ |
| RabbitmqPolicy.StoredFields | salt/states/rabbitmq_policy.py:65-79 | a policy set with these arguments reports them back |
| RabbitmqPolicy.PresentConverges | salt/states/rabbitmq_policy.py:65-83 | once the policy is set as asked, a second run detects no update |
| RabbitmqPolicy.Present | salt/states/rabbitmq_policy.py:37-126 | a missing policy is created and an outdated one updated with the list of updates; an up-to-date one succeeds unchanged; `set_policy` is called once, outside test mode, only when something changes; test mode reports None; an `Error` reply fails with its text |
| RabbitmqPolicy.Absent | salt/states/rabbitmq_policy.py:129-164 | a missing policy succeeds unchanged; test mode reports None with the removal changes; a delete error fails without changes; otherwise the removal is recorded |

## Left out

- Command execution, files, process liveness (`os.kill`), `time.strptime`, `datetime.fromtimestamp`, `json.loads`, YAML parsing, the psutil counters and every `__salt__` function are parameters. Their own behaviour is not modelled.
- Puppet.Invocation.constructor: takes the directories already read. The KeyError or TypeError that a malformed `puppet config print` reply raises in the constructor is stated by Puppet.ReportedConf.
- Puppet.Status: an existing file whose opening raises `OSError` is modelled. Other failures while reading a lock or pid file, such as a decoding error, are not.
- Puppet.Run, Puppet.Noop: the tokens are taken as text. A non-text `apply` manifest, for which `" ".join` raises TypeError, is not modelled, nor is the `str()` rendering of non-text flags.
- Mappings are keyed by text. A YAML report, beacon configuration or keyword map with non-text keys, such as an integer key, is not modelled.
- Puppet's Windows command line is kept as a second text form. Nothing about the Windows runtime is modelled.
- `salt.utils.beacons.list_to_dict` is a parameter. `salt.utils.args.clean_kwargs` and `salt.utils.data.is_true` are taken as already applied.
- `__virtual__`, logging, `__context__` and the docstrings are not modelled.
- `grains.get`, `grains.has_value` and `grains.filter_by` are thin delegations to `salt.utils.data`, which is not part of this model.
- AtSolaris.MatchingJobs, AtSolaris.MatchQueue, AtSolaris.JobCheck, AtSolaris.JobMatchesMeaning, AtSolaris.MatchingSound, AtSolaris.MatchingComplete: these use the corrected year filter (see Findings). With a truthy non-text year, the code as written passes no job at all; AtSolaris.AsWrittenDiffersOnlyOnNonTextYear states that this is the only difference.
- Grains.Sanitize: a non-text serial number is modelled as raising TypeError. For a list, Python would instead mask its `str()` slice by slice; only text serial numbers are modelled exactly.
- NetworkInfo.Beacon and SaltProxy.Beacon require the configuration their `validate` accepted. Salt's beacon loader runs a beacon only after that. A beacon given a configuration its `validate` refuses is not modelled.
- Ipset: the keyword arguments forwarded to `ipset.new_set`, `add` and `delete` are not recorded in the call trace. `absent`'s unused `entries` parameter is not modelled.
- `\w` is ASCII letters, digits and `_`. Python's Unicode word characters are not modelled.
- `str()` of a text that holds quotes or escapes is not modelled character for character.
- `dict.update` from a sequence of pairs is not modelled: a non-map raises TypeError in the model.
- `int()` accepts surrounding whitespace, an optional sign and ASCII digits. Underscores and non-ASCII digits are not modelled.
- Floats are not modelled. The serial mask uses `(3 * n) / 4`, which equals `math.floor(n * 0.75)` for every length.
- `salt_proxy.is_running` is modelled by its boolean `result` only.
- RabbitmqPolicy.Present: the "already in the desired state" comment branch is kept as written. It cannot be reached, because a run with no changes has already returned.

## Findings

| source | as written | input that shows it | evidently intended | confidence | as-written member | corrected member |
|---|---|---|---|---|---|---|
| salt/modules/at_solaris.py:309-314 | the year filter compares the filter value itself with the year text of the job's date | `year=2017`, which the command line delivers as the integer 2017, against a job dated 2017 | compare the text of the filter value, `str(year)`, with the year text, as the two-digit branch at line 258 already does by building a text | not executed | AtSolaris.YearFilterMissesIntegerYear | AtSolaris.YearMatchesMeaning |
