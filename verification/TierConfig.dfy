/** The Odoo configuration of the web, cron and queue tiers: one base, rewritten line by line.

    Three texts come from one: the web tier's is the base, and the other two rewrite some of its lines,
    told by the word they start with. The fields of the environment are written out as they are, newlines
    included, so the lines of a text are those a reader of the whole would see. */
module TierConfig {
  import opened ConfText
  import opened Decimal
  import opened Wrappers

  datatype WebTier = WebTier(replicas: int, workers: Option<int>)
  datatype CronTier = CronTier(replicas: int, threads: int)
  datatype QueueJobTier = QueueJobTier(replicas: int, channels: string)
  datatype WorkloadSplit = WorkloadSplit(web: Option<WebTier>, cron: Option<CronTier>, queueJob: Option<QueueJobTier>)

  /** What the configuration is made from. `paths` is the composed addons path. */
  datatype Env = Env(
    paths: seq<string>, dataDir: string, host: string, port: int, user: string, dbName: string,
    workload: Option<WorkloadSplit>)

  // ------------------------------------------------------------------ the workload accessors

  predicate RunsQueueJob(w: Option<WorkloadSplit>) {
    w.Some? && w.value.queueJob.Some? && w.value.queueJob.value.replicas > 0
  }

  function QueueJobChannels(w: Option<WorkloadSplit>): string {
    if RunsQueueJob(w) then w.value.queueJob.value.channels else ""
  }

  predicate SplitsCrons(w: Option<WorkloadSplit>) {
    w.Some? && w.value.cron.Some? && w.value.cron.value.replicas > 0
  }

  function CronThreadsForWeb(w: Option<WorkloadSplit>): int { if SplitsCrons(w) then 0 else 1 }

  function CronThreads(w: Option<WorkloadSplit>): int {
    if !SplitsCrons(w) || w.value.cron.value.threads <= 0 then 1 else w.value.cron.value.threads
  }

  function Workers(w: Option<WorkloadSplit>): int {
    if w.Some? && w.value.web.Some? && w.value.web.value.workers.Some? then w.value.web.value.workers.value else 2
  }

  // ------------------------------------------------------------------ the base

  function JoinComma(parts: seq<string>): string {
    if parts == [] then ""
    else if |parts| == 1 then parts[0]
    else parts[0] + "," + JoinComma(parts[1..])
  }

  const WORKERS := "workers"
  const THREADS := "max_cron_threads"
  const MODULES := "server_wide_modules"
  const CHANNELS := "channels"

  /** Everything before the two lines the workload split decides. */
  function Preamble(e: Env): seq<string> {
    ["[options]"]
    + (if e.paths == [] then [] else [Setting("addons_path", JoinComma(e.paths))])
    + [Setting("data_dir", e.dataDir), Setting("db_host", e.host), Setting("db_port", IntText(e.port)),
       Setting("db_user", e.user), Setting("db_name", e.dbName), Setting("list_db", "False"), Setting("proxy_mode", "True")]
  }

  function BaseLines(e: Env): seq<string> {
    Preamble(e)
    + [Setting(WORKERS, IntText(Workers(e.workload))), Setting(THREADS, IntText(CronThreadsForWeb(e.workload)))]
  }

  function OdooConf(e: Env): string { Written(BaseLines(e)) }

  // ------------------------------------------------------------------ the rewrites

  function CronLine(line: string, threads: int): string {
    if HasPrefix(line, "workers ") then Setting(WORKERS, "0")
    else if HasPrefix(line, "max_cron_threads ") then Setting(THREADS, IntText(threads))
    else line
  }

  function QueueLine(line: string): string {
    if HasPrefix(line, "workers ") then Setting(WORKERS, "0")
    else if HasPrefix(line, "max_cron_threads ") then Setting(THREADS, "0")
    else if HasPrefix(line, "server_wide_modules ") then WithQueueJob(line)
    else line
  }

  function Map(f: string -> string, lines: seq<string>): seq<string> {
    seq(|lines|, i requires 0 <= i < |lines| => f(lines[i]))
  }

  /** strings.Cut at the first '=': what follows it, or nothing. */
  function AfterEquals(line: string): string {
    if line == "" then "" else if line[0] == '=' then line[1..] else AfterEquals(line[1..])
  }

  const TAIL: set<char> := {' ', ','}

  predicate Mentions(parts: seq<string>) { exists i :: 0 <= i < |parts| && TrimSpace(parts[i]) == "queue_job" }

  /** The modules line with queue_job at its end, unless it is mentioned already. */
  function WithQueueJob(line: string): string {
    if Mentions(Split(AfterEquals(line), ',')) then line else TrimRight(line, TAIL) + ",queue_job"
  }

  method AddQueueJob(line: string) returns (out: string)
    ensures out == WithQueueJob(line)
  {
    var parts := Split(AfterEquals(line), ',');
    for i := 0 to |parts|
      invariant forall j :: 0 <= j < i ==> TrimSpace(parts[j]) != "queue_job"
    {
      if TrimSpace(parts[i]) == "queue_job" { return line; }
    }
    out := TrimRight(line, TAIL) + ",queue_job";
  }

  /** The lines a writer starts from: the base's text, its last newline trimmed, split again. */
  function SplitBase(e: Env): seq<string> { Split(TrimRight(OdooConf(e), {'\n'}), '\n') }

  function CronText(e: Env): string { Written(Map(l => CronLine(l, CronThreads(e.workload)), SplitBase(e))) }

  function QueueText(e: Env): string {
    Written(Map(QueueLine, SplitBase(e)) + QueueExtras(SplitBase(e), QueueJobChannels(e.workload)))
  }

  /** The configuration of the cron tier: the inverse of the web tier. */
  method EnvCronConf(e: Env) returns (text: string)
    ensures text == CronText(e)
  {
    text := RewriteForCron(SplitBase(e), CronThreads(e.workload));
  }

  method RewriteForCron(lines: seq<string>, threads: int) returns (text: string)
    ensures text == Written(Map(l => CronLine(l, threads), lines))
  {
    ghost var f := l => CronLine(l, threads);
    text := "";
    for i := 0 to |lines|
      invariant text == Written(Map(f, lines[..i]))
    {
      MapSnoc(f, lines, i);
      var line := lines[i];
      if HasPrefix(line, "workers ") {
        line := "workers = 0";
      } else if HasPrefix(line, "max_cron_threads ") {
        line := Setting(THREADS, IntText(threads));
      }
      assert line == f(lines[i]);
      text := text + line + "\n";
    }
    assert lines[..|lines|] == lines;
  }

  lemma MapSnoc(f: string -> string, lines: seq<string>, i: nat)
    requires i < |lines|
    ensures Written(Map(f, lines[..i + 1])) == Written(Map(f, lines[..i])) + f(lines[i]) + "\n"
  {
    assert Map(f, lines[..i + 1]) == Map(f, lines[..i]) + [f(lines[i])];
  }

  predicate SawModules(lines: seq<string>) { exists i :: 0 <= i < |lines| && HasPrefix(lines[i], "server_wide_modules ") }

  lemma SawSnoc(lines: seq<string>, line: string)
    ensures SawModules(lines + [line]) <==> SawModules(lines) || HasPrefix(line, "server_wide_modules ")
  {
    var all := lines + [line];
    assert all[|lines|] == line && forall i :: 0 <= i < |lines| ==> all[i] == lines[i];
  }

  function QueueExtras(lines: seq<string>, channels: string): seq<string> {
    (if SawModules(lines) then [] else [Setting(MODULES, "base,web,queue_job")])
    + if channels == "" then [] else [Setting(CHANNELS, channels)]
  }

  /** The configuration of the queue tier. */
  method EnvQueueJobConf(e: Env) returns (text: string)
    ensures text == QueueText(e)
  {
    var saw;
    text, saw := RewriteForQueue(SplitBase(e));
    text := AppendExtras(text, saw, SplitBase(e), QueueJobChannels(e.workload));
  }

  method RewriteForQueue(lines: seq<string>) returns (text: string, saw: bool)
    ensures text == Written(Map(QueueLine, lines)) && saw == SawModules(lines)
  {
    text, saw := "", false;
    for i := 0 to |lines|
      invariant text == Written(Map(QueueLine, lines[..i]))
      invariant saw == SawModules(lines[..i])
    {
      MapSnoc(QueueLine, lines, i);
      SawSnoc(lines[..i], lines[i]);
      assert lines[..i + 1] == lines[..i] + [lines[i]];
      var line, isModules := RewriteQueueLine(lines[i]);
      saw := saw || isModules;
      text := text + line + "\n";
    }
    assert lines[..|lines|] == lines;
  }

  method RewriteQueueLine(line: string) returns (out: string, isModules: bool)
    ensures out == QueueLine(line) && isModules == HasPrefix(line, "server_wide_modules ")
  {
    OtherKeyOtherPrefix(line);
    if HasPrefix(line, "workers ") {
      return "workers = 0", false;
    } else if HasPrefix(line, "max_cron_threads ") {
      return "max_cron_threads = 0", false;
    } else if HasPrefix(line, "server_wide_modules ") {
      out := AddQueueJob(line);
      return out, true;
    } else {
      return line, false;
    }
  }

  lemma OtherKeyOtherPrefix(line: string)
    ensures HasPrefix(line, "server_wide_modules ") ==> !HasPrefix(line, "workers ") && !HasPrefix(line, "max_cron_threads ")
    ensures HasPrefix(line, "max_cron_threads ") ==> !HasPrefix(line, "workers ")
  {
    if HasPrefix(line, "server_wide_modules ") { assert line[0] == "server_wide_modules "[0] == 's'; }
    if HasPrefix(line, "workers ") { assert line[0] == "workers "[0] == 'w'; }
    if HasPrefix(line, "max_cron_threads ") { assert line[0] == "max_cron_threads "[0] == 'm'; }
  }

  method AppendExtras(start: string, saw: bool, ghost lines: seq<string>, channels: string) returns (text: string)
    requires start == Written(Map(QueueLine, lines)) && saw == SawModules(lines)
    ensures text == Written(Map(QueueLine, lines) + QueueExtras(lines, channels))
  {
    ghost var done := Map(QueueLine, lines);
    ghost var extras: seq<string> := [];
    assert done + extras == done;
    text := start;
    if !saw {
      WrittenSnoc(done, extras, Setting(MODULES, "base,web,queue_job"));
      extras := extras + [Setting(MODULES, "base,web,queue_job")];
      text := text + Setting(MODULES, "base,web,queue_job") + "\n";
    }
    if channels != "" {
      WrittenSnoc(done, extras, Setting(CHANNELS, channels));
      extras := extras + [Setting(CHANNELS, channels)];
      text := text + Setting(CHANNELS, channels) + "\n";
    }
    assert extras == QueueExtras(lines, channels);
  }

  lemma WrittenSnoc(done: seq<string>, extras: seq<string>, line: string)
    ensures Written(done + (extras + [line])) == Written(done + extras) + line + "\n"
  {
    assert done + (extras + [line]) == (done + extras) + [line];
  }
}
