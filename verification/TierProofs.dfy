/** What the three configurations say when they are read back, whatever their fields hold. */
module TierProofs {
  import opened ConfText
  import opened Decimal
  import opened TierConfig
  import opened Wrappers

  // ------------------------------------------------------------------ lines smuggled in by a field

  /** A line after the first of a value passes a test. */
  predicate InnerLine(value: string, p: LineTest) { SomeLine(Split(value, '\n')[1..], p) }

  /** The values of the base configuration that come from outside. */
  function Fields(e: Env): seq<string> { [JoinComma(e.paths), e.dataDir, e.host, e.user, e.dbName] }

  predicate Injects(e: Env, p: LineTest) { exists v :: v in Fields(e) && InnerLine(v, p) }

  /** The test passes no line that starts with a character of the set. */
  ghost predicate NeverStarts(p: LineTest, cs: set<char>) { forall line :: p(line) ==> line != "" && line[0] !in cs }

  /** How the lines of the preamble start. */
  const OWN: set<char> := {'[', 'a', 'd', 'l', 'p'}

  lemma PlainHasNoInnerLine(value: string, p: LineTest)
    requires '\n' !in value
    ensures !InnerLine(value, p)
  {
    PlainIsOnePart(value, '\n');
  }

  /** A setting's own line starts with its key; only inner lines of its value can start otherwise. */
  lemma SettingHas(key: string, value: string, p: LineTest)
    requires key != "" && '\n' !in key && NeverStarts(p, {key[0]})
    ensures SomeLine(Split(Setting(key, value), '\n'), p) <==> InnerLine(value, p)
  {
    var a, parts := key + " = ", Split(value, '\n');
    assert Setting(key, value) == a + value && a[0] == key[0];
    SplitAfterPlain(a, value, '\n');
    assert (a + parts[0])[0] == key[0];
  }

  lemma FlatHas(lines: seq<string>, key: string, value: string, p: LineTest)
    requires key != "" && '\n' !in key && NeverStarts(p, OWN) && key[0] in OWN
    ensures SomeLine(Flat(lines + [Setting(key, value)]), p) <==> SomeLine(Flat(lines), p) || InnerLine(value, p)
  {
    FlatOneMore(lines, Setting(key, value));
    SettingHas(key, value, p);
  }

  /** The first lines of the preamble: its heading, and the addons path when there is one. */
  function Opening(e: Env): seq<string> {
    ["[options]"] + if e.paths == [] then [] else [Setting("addons_path", JoinComma(e.paths))]
  }

  lemma HeadingSilent(p: LineTest)
    requires NeverStarts(p, OWN)
    ensures !SomeLine(Flat(["[options]"]), p)
  {
    FlatPlain(["[options]"]);
    assert "[options]"[0] == '[';
  }

  lemma OpeningHas(e: Env, p: LineTest)
    requires NeverStarts(p, OWN)
    ensures SomeLine(Flat(Opening(e)), p) <==> InnerLine(JoinComma(e.paths), p)
  {
    HeadingSilent(p);
    if e.paths == [] {
      PlainHasNoInnerLine(JoinComma(e.paths), p);
      assert Opening(e) == ["[options]"];
    } else {
      FlatHas(["[options]"], "addons_path", JoinComma(e.paths), p);
    }
  }

  function Connection(e: Env): seq<string> {
    Opening(e) + [Setting("data_dir", e.dataDir)] + [Setting("db_host", e.host)] + [Setting("db_port", IntText(e.port))]
    + [Setting("db_user", e.user)]
  }

  lemma ConnectionHas(e: Env, p: LineTest)
    requires NeverStarts(p, OWN)
    ensures SomeLine(Flat(Connection(e)), p) <==>
            InnerLine(JoinComma(e.paths), p) || InnerLine(e.dataDir, p) || InnerLine(e.host, p) || InnerLine(e.user, p)
  {
    var a := Opening(e);
    var b := a + [Setting("data_dir", e.dataDir)];
    var c := b + [Setting("db_host", e.host)];
    OpeningHas(e, p);
    FlatHas(a, "data_dir", e.dataDir, p);
    FlatHas(b, "db_host", e.host, p);
    FixedLine(c, "db_port", IntText(e.port), p);
    FlatHas(c + [Setting("db_port", IntText(e.port))], "db_user", e.user, p);
  }

  lemma FixedLine(lines: seq<string>, key: string, value: string, p: LineTest)
    requires key != "" && '\n' !in key && NeverStarts(p, OWN) && key[0] in OWN && '\n' !in value
    ensures SomeLine(Flat(lines + [Setting(key, value)]), p) <==> SomeLine(Flat(lines), p)
  {
    FlatHas(lines, key, value, p);
    PlainHasNoInnerLine(value, p);
  }

  /** A reader of the preamble sees a line of another kind than its own just when a field brings it. */
  lemma PreambleHas(e: Env, p: LineTest)
    requires NeverStarts(p, OWN)
    ensures SomeLine(Flat(Preamble(e)), p) <==> Injects(e, p)
  {
    var a := Connection(e);
    var b := a + [Setting("db_name", e.dbName)];
    var c := b + [Setting("list_db", "False")];
    PreambleEnds(e);
    ConnectionHas(e, p);
    FlatHas(a, "db_name", e.dbName, p);
    FixedLine(b, "list_db", "False", p);
    FixedLine(c, "proxy_mode", "True", p);
    AnyField(e, p);
  }

  lemma PreambleEnds(e: Env)
    ensures Preamble(e) ==
            Connection(e) + [Setting("db_name", e.dbName)] + [Setting("list_db", "False")] + [Setting("proxy_mode", "True")]
  {
  }

  lemma AnyField(e: Env, p: LineTest)
    ensures Injects(e, p) <==>
            InnerLine(JoinComma(e.paths), p) || InnerLine(e.dataDir, p) || InnerLine(e.host, p)
            || InnerLine(e.user, p) || InnerLine(e.dbName, p)
  {
    var s := Fields(e);
    assert s[0] in s && s[1] in s && s[2] in s && s[3] in s && s[4] in s;
  }

  // ------------------------------------------------------------------ the keys

  /** A line that names a key, or that the tiers take for one of its lines and rewrite. */
  function Touching(key: string): LineTest { line => Names(line, key) || HasPrefix(line, key + " ") }

  lemma KeysAreLower()
    ensures Lower(WORKERS) == WORKERS && Lower(THREADS) == THREADS && Lower(MODULES) == MODULES && Lower(CHANNELS) == CHANNELS
    ensures WORKERS[0] == 'w' && THREADS[0] == 'm' && MODULES[0] == 's' && CHANNELS[0] == 'c'
  {
  }

  lemma KeyStart(key: string, cs: set<char>)
    requires key != "" && key[0] !in cs && 'a' <= key[0] <= 'z' && forall c :: c in cs ==> LowerChar(c) != key[0]
    ensures NeverStarts(Naming(key), cs) && NeverStarts(Touching(key), cs)
  {
    forall line | Touching(key)(line) ensures line != "" && line[0] !in cs {
      if Names(line, key) { NamesStart(line, key); } else { assert line[0] == key[0]; }
    }
  }

  // ------------------------------------------------------------------ the lines of each tier

  function Tail(workers: string, threads: string): seq<string> { [Setting(WORKERS, workers), Setting(THREADS, threads)] }

  /** Splitting the base again: the preamble as a reader sees it, then the two lines of the split. */
  lemma BaseReadsBack(e: Env)
    ensures SplitBase(e) == Flat(Preamble(e)) + Tail(IntText(Workers(e.workload)), IntText(CronThreadsForWeb(e.workload)))
  {
    var w, t := Setting(WORKERS, IntText(Workers(e.workload))), Setting(THREADS, IntText(CronThreadsForWeb(e.workload)));
    assert BaseLines(e) == (Preamble(e) + [w]) + [t];
    TwoLinesReadBack(Preamble(e), w, t);
  }

  lemma TwoLinesReadBack(lines: seq<string>, w: string, t: string)
    requires '\n' !in w && '\n' !in t && t != ""
    ensures Split(TrimRight(Written((lines + [w]) + [t]), {'\n'}), '\n') == Flat(lines) + [w, t]
  {
    LinesReadBack(lines + [w], t);
    FlatOneMore(lines, w);
    PlainIsOnePart(w, '\n');
  }

  lemma MapInTwo(f: string -> string, a: seq<string>, b: seq<string>)
    ensures Map(f, a + b) == Map(f, a) + Map(f, b)
  {
  }

  lemma TailRewritten(workers: string, threads: string, n: int)
    ensures Map(l => CronLine(l, n), Tail(workers, threads)) == Tail("0", IntText(n))
    ensures Map(QueueLine, Tail(workers, threads)) == Tail("0", "0")
  {
    var w, t := Setting(WORKERS, workers), Setting(THREADS, threads);
    assert HasPrefix(w, "workers ") && HasPrefix(t, "max_cron_threads ");
    assert t[0] == 'm' && "workers "[0] == 'w';
    assert CronLine(w, n) == Setting(WORKERS, "0") == QueueLine(w);
    assert CronLine(t, n) == Setting(THREADS, IntText(n)) && QueueLine(t) == Setting(THREADS, "0");
    assert |Map(QueueLine, [w, t])| == 2 && Map(QueueLine, [w, t])[0] == QueueLine(w) && Map(QueueLine, [w, t])[1] == QueueLine(t);
  }

  /** The cron configuration is what the base says with its two last values replaced, and nothing else,
      just when no field brings a line of one of the two kinds that the tier would write otherwise. */
  lemma CronLines(e: Env)
    ensures var n := CronThreads(e.workload);
            Map(l => CronLine(l, n), SplitBase(e)) == Flat(Preamble(e)) + Tail("0", IntText(n)) <==>
            forall line :: line in Flat(Preamble(e)) ==>
              && (HasPrefix(line, "workers ") ==> line == Setting(WORKERS, "0"))
              && (HasPrefix(line, "max_cron_threads ") ==> line == Setting(THREADS, IntText(n)))
  {
    var n := CronThreads(e.workload);
    var f, lines := l => CronLine(l, n), Flat(Preamble(e));
    var w, t := IntText(Workers(e.workload)), IntText(CronThreadsForWeb(e.workload));
    BaseReadsBack(e);
    TailRewritten(w, t, n);
    MapInTwo(f, lines, Tail(w, t));
    SameTail(Map(f, lines), lines, Tail("0", IntText(n)));
    UntouchedIff(f, lines);
    assert "workers "[0] == 'w' && "max_cron_threads "[0] == 'm';
  }

  lemma SameTail(a: seq<string>, b: seq<string>, tail: seq<string>)
    requires |a| == |b|
    ensures a + tail == b + tail <==> a == b
  {
    assert (a + tail)[..|a|] == a && (b + tail)[..|b|] == b;
  }

  lemma UntouchedIff(f: string -> string, lines: seq<string>)
    ensures Map(f, lines) == lines <==> forall line :: line in lines ==> f(line) == line
  {
    if Map(f, lines) == lines {
      forall line | line in lines ensures f(line) == line {
        var i :| 0 <= i < |lines| && lines[i] == line;
        assert Map(f, lines)[i] == lines[i];
      }
    }
  }

  // ------------------------------------------------------------------ the addons path

  lemma {:induction false} JoinedSplits(paths: seq<string>)
    requires paths != [] && NoneHas(paths, ',')
    ensures Split(JoinComma(paths), ',') == paths
  {
    assert paths[0] in paths;
    PlainIsOnePart(paths[0], ',');
    if |paths| == 1 {
      assert paths == [paths[0]];
    } else {
      var rest := paths[1..];
      assert forall p :: p in rest ==> p in paths;
      JoinedSplits(rest);
      SplitAcross(paths[0], JoinComma(rest), ',');
      assert paths[0] + "," + JoinComma(rest) == paths[0] + [','] + JoinComma(rest);
    }
  }

  ghost predicate NoneHas(paths: seq<string>, c: char) { forall p :: p in paths ==> c !in p }

  /** Splitting the addons path at its commas gives the paths back, in order, just when none has a comma. */
  lemma PathsReadBackIff(paths: seq<string>)
    requires paths != []
    ensures Split(JoinComma(paths), ',') == paths <==> NoneHas(paths, ',')
  {
    PartsPlain(JoinComma(paths), ',');
    if NoneHas(paths, ',') { JoinedSplits(paths); }
  }

  // ------------------------------------------------------------------ reading back

  lemma RewritesStayPlain(lines: seq<string>, n: int)
    requires NoNewlines(lines)
    ensures NoNewlines(Map(l => CronLine(l, n), lines)) && NoNewlines(Map(QueueLine, lines))
  {
    forall i | 0 <= i < |lines| ensures '\n' !in CronLine(lines[i], n) { assert lines[i] in lines; CronLinePlain(lines[i], n); }
    forall i | 0 <= i < |lines| ensures '\n' !in QueueLine(lines[i]) { assert lines[i] in lines; }
  }

  lemma CronLinePlain(line: string, n: int)
    requires '\n' !in line
    ensures '\n' !in CronLine(line, n)
  {
  }

  /** A rewritten line names max_cron_threads just when the line did, or was taken for one that does. */
  lemma RewrittenLine(line: string, n: int)
    ensures Names(CronLine(line, n), THREADS) <==> Touching(THREADS)(line)
    ensures Names(QueueLine(line), THREADS) <==> Touching(THREADS)(line)
  {
    SettingNamed(THREADS, IntText(n));
    SettingNamed(THREADS, "0");
    assert THREADS + " " == "max_cron_threads ";
    OtherKeyOtherPrefix(line);
    NoOtherNames(line, THREADS);
  }

  lemma SettingNamed(key: string, value: string)
    requires key in {THREADS, MODULES, CHANNELS}
    ensures Names(Setting(key, value), key)
  {
    KeysAreLower();
    SettingNames(key, value);
  }

  /** The lines the tiers write in place of others name nothing but what they are for. */
  lemma NoOtherNames(line: string, key: string)
    requires key in {THREADS, MODULES, CHANNELS}
    ensures !Names(Setting(WORKERS, "0"), key)
    ensures HasPrefix(line, "workers ") ==> !Names(line, key)
    ensures HasPrefix(line, "max_cron_threads ") && key != THREADS ==> !Names(line, key)
    ensures HasPrefix(line, "server_wide_modules ") && key != MODULES ==> !Names(line, key) && !Names(WithQueueJob(line), key)
    ensures key != THREADS ==> !Names(Setting(THREADS, "0"), key)
  {
    KeysAreLower();
    OtherKeyOtherPrefix(line);
    if HasPrefix(line, "server_wide_modules ") { ModulesLineStart(line); StartsElsewhere(WithQueueJob(line), key); }
    StartsElsewhere(line, key);
    StartsElsewhere(Setting(WORKERS, "0"), key);
    StartsElsewhere(Setting(THREADS, "0"), key);
    assert Setting(WORKERS, "0")[0] == 'w' && Setting(THREADS, "0")[0] == 'm';
    assert "workers "[0] == 'w' && "max_cron_threads "[0] == 'm' && "server_wide_modules "[0] == 's';
  }

  lemma StartsElsewhere(line: string, key: string)
    requires key != ""
    ensures line != "" && LowerChar(line[0]) != key[0] ==> !Names(line, key)
  {
    if Names(line, key) { NamesStart(line, key); }
  }

  lemma MappedSilentIff(lines: seq<string>, f: string -> string, key: string, p: LineTest)
    requires forall line :: line in lines ==> (Names(f(line), key) <==> p(line))
    ensures Values(Map(f, lines), key) == [] <==> !SomeLine(lines, p)
  {
    SilentIff(Map(f, lines), key);
    if line :| line in lines && p(line) {
      var i :| 0 <= i < |lines| && lines[i] == line;
      assert Map(f, lines)[i] == f(line);
    }
    if line :| line in Map(f, lines) && Names(line, key) {
      var i :| 0 <= i < |lines| && Map(f, lines)[i] == line;
      assert lines[i] in lines;
    }
  }

  lemma ModulesLineStart(line: string)
    requires HasPrefix(line, "server_wide_modules ")
    ensures WithQueueJob(line) != "" && WithQueueJob(line)[0] == 's'
  {
    assert line[0] == 's' && 's' !in TAIL;
  }

  lemma TailRead(workers: string, threads: string, key: string)
    requires key in {THREADS, MODULES, CHANNELS}
    ensures Values(Tail(workers, threads), key) == if key == THREADS then [TrimSpace(threads)] else []
  {
    KeysAreLower();
    var w, t := [Setting(WORKERS, workers)], [Setting(THREADS, threads)];
    assert Tail(workers, threads) == w + t && w[0][0] == 'w' && t[0][0] == 'm';
    ValuesOfConcat(w, t, key);
    OtherLinesSilent(w, key);
    if key == THREADS { OneSetting(THREADS, threads); } else { OtherLinesSilent(t, key); }
  }

  lemma NumberTrimmed(n: int)
    ensures TrimSpace(IntText(n)) == IntText(n)
  {
    var body := PaddedBody(n, 0);
    var s := IntText(n);
    assert body[|body| - 1] == s[|s| - 1];
    assert IsDigit(s[|s| - 1]) && (IsDigit(s[0]) || s[0] == '-');
  }

  /** Three pieces of a configuration, the middle one the two lines of the split. */
  lemma ThreePieces(first: seq<string>, workers: string, n: int, third: seq<string>)
    ensures Values(first + Tail(workers, IntText(n)) + third, THREADS) ==
            Values(first, THREADS) + [IntText(n)] + Values(third, THREADS)
  {
    NumberTrimmed(n);
    ValuesOfConcat(first + Tail(workers, IntText(n)), third, THREADS);
    ValuesOfConcat(first, Tail(workers, IntText(n)), THREADS);
    TailRead(workers, IntText(n), THREADS);
  }

  lemma WebThreads(e: Env)
    ensures Read(OdooConf(e), THREADS) == Values(Flat(Preamble(e)), THREADS) + [IntText(CronThreadsForWeb(e.workload))]
  {
    BaseReadsBack(e);
    var w, t := IntText(Workers(e.workload)), IntText(CronThreadsForWeb(e.workload));
    ThreePieces(Flat(Preamble(e)), w, CronThreadsForWeb(e.workload), []);
    assert Flat(Preamble(e)) + Tail(w, t) + [] == Flat(Preamble(e)) + Tail(w, t);
    assert Values([], THREADS) == [];
  }

  lemma CronThreadsRead(e: Env)
    ensures var n := CronThreads(e.workload);
            Read(CronText(e), THREADS) == Values(Map(l => CronLine(l, n), Flat(Preamble(e))), THREADS) + [IntText(n)]
  {
    var n := CronThreads(e.workload);
    var f, lines := l => CronLine(l, n), Flat(Preamble(e));
    var w, t := IntText(Workers(e.workload)), IntText(CronThreadsForWeb(e.workload));
    BaseReadsBack(e);
    TailRewritten(w, t, n);
    MapInTwo(f, lines, Tail(w, t));
    var all := Map(f, lines) + Tail("0", IntText(n));
    ReadWritten(all, THREADS);
    FlatHasNoNewlines(Preamble(e));
    RewritesStayPlain(lines, n);
    TailPlain("0", IntText(n), n);
    FlatPlain(all);
    ThreePieces(Map(f, lines), "0", n, []);
    assert all + [] == all && Values([], THREADS) == [];
  }

  lemma TailPlain(workers: string, threads: string, n: int)
    requires '\n' !in workers && threads == IntText(n)
    ensures NoNewlines(Tail(workers, threads))
  {
    assert '\n' !in Setting(WORKERS, workers) && '\n' !in Setting(THREADS, threads);
  }

  /** What a reader of the queue file sees. */
  lemma QueueFlat(e: Env)
    ensures var extras := QueueExtras(SplitBase(e), QueueJobChannels(e.workload));
            Flat(Map(QueueLine, SplitBase(e)) + extras) == Map(QueueLine, Flat(Preamble(e))) + Tail("0", "0") + Flat(extras)
  {
    var lines, extras := Flat(Preamble(e)), QueueExtras(SplitBase(e), QueueJobChannels(e.workload));
    var w, t := IntText(Workers(e.workload)), IntText(CronThreadsForWeb(e.workload));
    BaseReadsBack(e);
    TailRewritten(w, t, 0);
    MapInTwo(QueueLine, lines, Tail(w, t));
    var body := Map(QueueLine, lines) + Tail("0", "0");
    FlatHasNoNewlines(Preamble(e));
    RewritesStayPlain(lines, 0);
    ZeroText();
    TailPlain("0", "0", 0);
    FlatPlain(body);
    FlatOfConcat(body, extras);
  }

  lemma QueueThreadsRead(e: Env)
    ensures Read(QueueText(e), THREADS) ==
            Values(Map(QueueLine, Flat(Preamble(e))), THREADS) + ["0"]
            + Values(Flat(QueueExtras(SplitBase(e), QueueJobChannels(e.workload))), THREADS)
  {
    var extras := QueueExtras(SplitBase(e), QueueJobChannels(e.workload));
    ReadWritten(Map(QueueLine, SplitBase(e)) + extras, THREADS);
    QueueFlat(e);
    ZeroText();
    ThreePieces(Map(QueueLine, Flat(Preamble(e))), "0", 0, Flat(extras));
  }

  predicate AllStart(lines: seq<string>, c: char) { forall i :: 0 <= i < |lines| ==> lines[i] != "" && lines[i][0] == c }

  function ChannelParts(ch: string): seq<string> { if ch == "" then [] else Split(Setting(CHANNELS, ch), '\n') }

  function ModulesExtra(saw: bool): seq<string> { if saw then [] else [Setting(MODULES, "base,web,queue_job")] }

  lemma ModulesExtraRead(saw: bool)
    ensures NoNewlines(ModulesExtra(saw)) && AllStart(ModulesExtra(saw), 's')
    ensures !saw ==> Values(ModulesExtra(saw), MODULES) == ["base,web,queue_job"]
  {
    var value := "base,web,queue_job";
    assert Setting(MODULES, value)[0] == 's';
    assert '\n' !in MODULES && '\n' !in " = " && '\n' !in value;
    assert TrimSpace(value) == value by { assert value[0] == 'b' && value[|value| - 1] == 'b' && 'b' !in SPACE; }
    assert Lower(MODULES) == MODULES by { KeysAreLower(); }
    OneSetting(MODULES, value);
  }

  /** The extra lines as a reader sees them: perhaps the modules line, then those of the channels. */
  lemma ExtrasFlat(lines: seq<string>, ch: string) returns (modules: seq<string>)
    ensures Flat(QueueExtras(lines, ch)) == modules + ChannelParts(ch)
    ensures AllStart(modules, 's')
    ensures !SawModules(lines) ==> Values(modules, MODULES) == ["base,web,queue_job"]
  {
    var saw := SawModules(lines);
    modules := ModulesExtra(saw);
    ModulesExtraRead(saw);
    FlatPlain(modules);
    FlatOfConcat(modules, if ch == "" then [] else [Setting(CHANNELS, ch)]);
  }

  lemma ChannelsSilentIff(ch: string, key: string)
    requires key in {THREADS, MODULES}
    ensures Values(ChannelParts(ch), key) == [] <==> !InnerLine(ch, Naming(key))
  {
    SilentIff(ChannelParts(ch), key);
    if ch == "" {
      PlainHasNoInnerLine(ch, Naming(key));
    } else {
      assert NeverStarts(Naming(key), {'c'}) by { KeysAreLower(); KeyStart(key, {'c'}); }
      assert CHANNELS[0] == 'c';
      SettingHas(CHANNELS, ch, Naming(key));
    }
  }

  lemma ExtrasSilentIff(lines: seq<string>, ch: string)
    ensures Values(Flat(QueueExtras(lines, ch)), THREADS) == [] <==> !InnerLine(ch, Naming(THREADS))
  {
    KeysAreLower();
    var modules := ExtrasFlat(lines, ch);
    OtherLinesSilent(modules, THREADS);
    ValuesOfConcat(modules, ChannelParts(ch), THREADS);
    ChannelsSilentIff(ch, THREADS);
  }

  // ------------------------------------------------------------------ one scheduler

  /** No field brings a line of its own that names max_cron_threads. The channels are only ever written
      out; the rest is looked through for lines to rewrite, so a line taken for one counts too. */
  predicate NoSecondScheduler(e: Env) {
    !Injects(e, Touching(THREADS)) && !InnerLine(QueueJobChannels(e.workload), Naming(THREADS))
  }

  /** The number a configuration gives for a key, when it gives exactly one. */
  function ReadNumber(text: string, key: string): Option<int> {
    var values := Read(text, key);
    if |values| == 1 then ReadInt(values[0]) else None
  }

  lemma WebOnceIff(e: Env)
    ensures |Read(OdooConf(e), THREADS)| == 1 <==> !SomeLine(Flat(Preamble(e)), Naming(THREADS))
    ensures |Read(OdooConf(e), THREADS)| == 1 ==> Read(OdooConf(e), THREADS) == [IntText(CronThreadsForWeb(e.workload))]
  {
    WebThreads(e);
    SilentIff(Flat(Preamble(e)), THREADS);
  }

  lemma RewrittenSilentIff(lines: seq<string>, n: int)
    ensures Values(Map(l => CronLine(l, n), lines), THREADS) == [] <==> !SomeLine(lines, Touching(THREADS))
    ensures Values(Map(QueueLine, lines), THREADS) == [] <==> !SomeLine(lines, Touching(THREADS))
  {
    forall line
      ensures Names(CronLine(line, n), THREADS) <==> Touching(THREADS)(line)
      ensures Names(QueueLine(line), THREADS) <==> Touching(THREADS)(line)
    {
      RewrittenLine(line, n);
    }
    MappedSilentIff(lines, l => CronLine(l, n), THREADS, Touching(THREADS));
    MappedSilentIff(lines, QueueLine, THREADS, Touching(THREADS));
  }

  lemma CronOnceIff(e: Env)
    ensures |Read(CronText(e), THREADS)| == 1 <==> !SomeLine(Flat(Preamble(e)), Touching(THREADS))
    ensures |Read(CronText(e), THREADS)| == 1 ==> Read(CronText(e), THREADS) == [IntText(CronThreads(e.workload))]
  {
    CronThreadsRead(e);
    RewrittenSilentIff(Flat(Preamble(e)), CronThreads(e.workload));
  }

  lemma QueueOnceIff(e: Env)
    ensures |Read(QueueText(e), THREADS)| == 1 <==>
            !SomeLine(Flat(Preamble(e)), Touching(THREADS)) && !InnerLine(QueueJobChannels(e.workload), Naming(THREADS))
    ensures |Read(QueueText(e), THREADS)| == 1 ==> Read(QueueText(e), THREADS) == ["0"]
  {
    QueueThreadsRead(e);
    RewrittenSilentIff(Flat(Preamble(e)), 0);
    ExtrasSilentIff(SplitBase(e), QueueJobChannels(e.workload));
  }

  lemma NoSecondSchedulerIff(e: Env)
    ensures NoSecondScheduler(e) <==>
            && !SomeLine(Flat(Preamble(e)), Naming(THREADS)) && !SomeLine(Flat(Preamble(e)), Touching(THREADS))
            && !InnerLine(QueueJobChannels(e.workload), Naming(THREADS))
  {
    KeysAreLower();
    KeyStart(THREADS, OWN);
    PreambleHas(e, Touching(THREADS));
  }

  /** Each of the three files names max_cron_threads exactly once, whatever the workload split, just when
      no field brings a line that names it. */
  lemma EachFileNamesItOnceIff(e: Env)
    ensures |Read(OdooConf(e), THREADS)| == |Read(CronText(e), THREADS)| == |Read(QueueText(e), THREADS)| == 1 <==>
            NoSecondScheduler(e)
    ensures NoSecondScheduler(e) ==>
              && Read(OdooConf(e), THREADS) == [IntText(CronThreadsForWeb(e.workload))]
              && Read(CronText(e), THREADS) == [IntText(CronThreads(e.workload))]
              && Read(QueueText(e), THREADS) == ["0"]
  {
    WebOnceIff(e);
    CronOnceIff(e);
    QueueOnceIff(e);
    NoSecondSchedulerIff(e);
  }

  /** No replica of a cron tier is asked for: there is no split, it has no cron tier, or none of its replicas. */
  predicate NoCronReplica(w: Option<WorkloadSplit>) {
    match w
    case None => true
    case Some(WorkloadSplit(_, None, _)) => true
    case Some(WorkloadSplit(_, Some(CronTier(replicas, _)), _)) => replicas <= 0
  }

  /** The threads the cron tier declares, or 1 when there is no such tier or it declares none. */
  function DeclaredThreads(w: Option<WorkloadSplit>): int {
    match w
    case Some(WorkloadSplit(_, Some(CronTier(replicas, threads)), _)) => if replicas > 0 && threads > 0 then threads else 1
    case _ => 1
  }

  /** And then crons are scheduled in exactly one place: the queue tier's number is 0; the cron tier's is
      the one declared; and the web tier's is 0 when a replica of the cron tier is asked for, and otherwise 1. */
  lemma ExactlyOneTierSchedules(e: Env)
    ensures var web, cron, queue :=
              ReadNumber(OdooConf(e), THREADS), ReadNumber(CronText(e), THREADS), ReadNumber(QueueText(e), THREADS);
            && (web.Some? && cron.Some? && queue.Some? <==> NoSecondScheduler(e))
            && (NoSecondScheduler(e) ==>
                  && queue.value == 0
                  && cron.value == DeclaredThreads(e.workload) > 0
                  && web.value == if NoCronReplica(e.workload) then 1 else 0)
  {
    EachFileNamesItOnceIff(e);
    AccessorsMean(e.workload);
    OneNumber(OdooConf(e), CronThreadsForWeb(e.workload));
    OneNumber(CronText(e), CronThreads(e.workload));
    OneNumber(QueueText(e), 0);
    ZeroText();
  }

  /** A file that gives one text for the threads gives a number when the text is a number's. */
  lemma OneNumber(text: string, n: int)
    ensures |Read(text, THREADS)| != 1 ==> ReadNumber(text, THREADS).None?
    ensures Read(text, THREADS) == [IntText(n)] ==> ReadNumber(text, THREADS) == Some(n)
  {
    PaddedReadsBack(n, 0);
  }

  /** The workers the web tier declares, or 2. */
  function DeclaredWorkers(w: Option<WorkloadSplit>): int {
    match w
    case Some(WorkloadSplit(Some(WebTier(_, Some(workers))), _, _)) => workers
    case _ => 2
  }

  /** The channels of a queue tier of which a replica is asked for. */
  function DeclaredChannels(w: Option<WorkloadSplit>): string {
    match w
    case Some(WorkloadSplit(_, _, Some(QueueJobTier(replicas, channels)))) => if replicas > 0 then channels else ""
    case _ => ""
  }

  /** What the accessors of the workload split come to, field by field. */
  lemma AccessorsMean(w: Option<WorkloadSplit>)
    ensures CronThreadsForWeb(w) == if NoCronReplica(w) then 1 else 0
    ensures CronThreads(w) == DeclaredThreads(w) > 0
    ensures Workers(w) == DeclaredWorkers(w)
    ensures QueueJobChannels(w) == DeclaredChannels(w)
  {
  }

  /** The last two lines of the web tier's file, whatever the fields hold. */
  lemma WebTierEnds(e: Env)
    ensures var lines, one := SplitBase(e), if NoCronReplica(e.workload) then 1 else 0;
            |lines| >= 2 && lines[|lines| - 2..] ==
              ["workers = " + IntText(DeclaredWorkers(e.workload)), "max_cron_threads = " + IntText(one)]
  {
    BaseReadsBack(e);
    AccessorsMean(e.workload);
    assert WORKERS + " = " == "workers = " && THREADS + " = " == "max_cron_threads = ";
  }

  lemma ZeroText()
    ensures IntText(0) == "0"
  {
    assert IntText(0) == "" + Zeros(0) + "0" == "0";
  }

  lemma TwoLineChannels(a: string, b: string)
    requires '\n' !in a && '\n' !in b
    ensures ChannelParts(a + ['\n'] + b) == [Setting(CHANNELS, a)] + [b]
  {
    var first := Setting(CHANNELS, a);
    assert Setting(CHANNELS, a + ['\n'] + b) == first + ['\n'] + b;
    SplitAcross(first, b, '\n');
    PlainIsOnePart(first, '\n');
    PlainIsOnePart(b, '\n');
  }

  /** A channels value whose second line names another key adds that line's value to what the extra
      lines give for the key. */
  lemma TwoLineExtras(lines: seq<string>, channels: string, line: string, key: string) returns (modules: seq<string>)
    requires '\n' !in channels && '\n' !in line && key in {THREADS, MODULES} && Names(line, key)
    ensures Values(Flat(QueueExtras(lines, channels + ['\n'] + line)), key) == Values(modules, key) + [ValueOf(line, key)]
    ensures AllStart(modules, 's') && (!SawModules(lines) ==> Values(modules, MODULES) == ["base,web,queue_job"])
  {
    KeysAreLower();
    modules := ExtrasFlat(lines, channels + ['\n'] + line);
    TwoLineChannels(channels, line);
    var first := [Setting(CHANNELS, channels)];
    assert first[0][0] == 'c';
    ValuesOfConcat(modules, first + [line], key);
    ValuesOfConcat(first, [line], key);
    OtherLinesSilent(first, key);
    OneLine(line, key);
  }

  lemma TwoLineThreads(lines: seq<string>, channels: string, line: string)
    requires '\n' !in channels && '\n' !in line && Names(line, THREADS)
    ensures Values(Flat(QueueExtras(lines, channels + ['\n'] + line)), THREADS) == [ValueOf(line, THREADS)]
  {
    var modules := TwoLineExtras(lines, channels, line, THREADS);
    assert THREADS[0] == 'm';
    OtherLinesSilent(modules, THREADS);
  }

  /** A channels value of two lines can give the queue file a second value for max_cron_threads, however
      the line is spelled. Which of two values counts is the parser's affair. */
  lemma ChannelsCanSchedule(e: Env, channels: string, line: string)
    requires QueueJobChannels(e.workload) == channels + ['\n'] + line
    requires '\n' !in channels && '\n' !in line && Names(line, THREADS) && !Injects(e, Touching(THREADS))
    ensures Read(QueueText(e), THREADS) == ["0", ValueOf(line, THREADS)]
  {
    TwoLineThreads(SplitBase(e), channels, line);
    QueueThreadsRead(e);
    NoSecondInBase(e);
  }

  lemma NoSecondInBase(e: Env)
    requires !Injects(e, Touching(THREADS))
    ensures Values(Map(QueueLine, Flat(Preamble(e))), THREADS) == []
  {
    KeysAreLower();
    KeyStart(THREADS, OWN);
    PreambleHas(e, Touching(THREADS));
    RewrittenSilentIff(Flat(Preamble(e)), 0);
  }

  /** Such as these, which the schema admits. */
  lemma SuchChannelsValues()
    ensures Names("max_cron_threads = 4", THREADS) && ValueOf("max_cron_threads = 4", THREADS) == "4"
    ensures Names("max_cron_threads=4", THREADS) && ValueOf("max_cron_threads=4", THREADS) == "4"
    ensures Names("server_wide_modules = web", MODULES) && ValueOf("server_wide_modules = web", MODULES) == "web"
  {
    KeysAreLower();
    SettingNames(THREADS, "4");
    SettingNames(MODULES, "web");
    assert Setting(THREADS, "4") == "max_cron_threads = 4" && Setting(MODULES, "web") == "server_wide_modules = web";
    assert TrimSpace("4") == "4" && TrimSpace("web") == "web";
    var line := "max_cron_threads=4";
    assert line[..|THREADS|] == THREADS && line[|THREADS|..] == "=4" && "=4"[1..] == "4";
  }

  // ------------------------------------------------------------------ the runner

  lemma QueueReads(e: Env, key: string)
    requires key in {MODULES, CHANNELS}
    ensures Read(QueueText(e), key) ==
            Values(Map(QueueLine, Flat(Preamble(e))), key)
            + Values(Flat(QueueExtras(SplitBase(e), QueueJobChannels(e.workload))), key)
  {
    KeysAreLower();
    var lines, extras := Map(QueueLine, Flat(Preamble(e))), QueueExtras(SplitBase(e), QueueJobChannels(e.workload));
    ReadWritten(Map(QueueLine, SplitBase(e)) + extras, key);
    QueueFlat(e);
    ValuesOfConcat(lines + Tail("0", "0"), Flat(extras), key);
    ValuesOfConcat(lines, Tail("0", "0"), key);
    TailRead("0", "0", key);
    assert Values(lines, key) + [] == Values(lines, key);
  }

  /** The queue file gives the channels back unread, exactly when there are any, just when they are one
      line with no space around it and no field of the base brings a channels line. */
  lemma ChannelsReadBackIff(e: Env)
    ensures var ch := DeclaredChannels(e.workload);
            Read(QueueText(e), CHANNELS) == (if ch == "" then [] else [ch]) <==>
            '\n' !in ch && TrimSpace(ch) == ch && !Injects(e, Naming(CHANNELS))
  {
    AccessorsMean(e.workload);
    WrittenChannelsReadBackIff(e);
  }

  lemma WrittenChannelsReadBackIff(e: Env)
    ensures var ch := QueueJobChannels(e.workload);
            Read(QueueText(e), CHANNELS) == (if ch == "" then [] else [ch]) <==>
            '\n' !in ch && TrimSpace(ch) == ch && !Injects(e, Naming(CHANNELS))
  {
    var ch, lines := QueueJobChannels(e.workload), Flat(Preamble(e));
    QueueReads(e, CHANNELS);
    BaseChannelsIff(e);
    ChannelLines(SplitBase(e), ch);
    JoinedIff(Values(Map(QueueLine, lines), CHANNELS), Values(Flat(QueueExtras(SplitBase(e), ch)), CHANNELS), ch);
  }

  lemma ChannelsUntouched(lines: seq<string>)
    ensures Values(Map(QueueLine, lines), CHANNELS) == [] <==> !SomeLine(lines, Naming(CHANNELS))
  {
    forall line ensures Names(QueueLine(line), CHANNELS) <==> Naming(CHANNELS)(line) {
      KeysAreLower();
      NoOtherNames(line, CHANNELS);
    }
    MappedSilentIff(lines, QueueLine, CHANNELS, Naming(CHANNELS));
  }

  lemma BaseChannelsIff(e: Env)
    ensures Values(Map(QueueLine, Flat(Preamble(e))), CHANNELS) == [] <==> !Injects(e, Naming(CHANNELS))
  {
    KeysAreLower();
    KeyStart(CHANNELS, OWN);
    PreambleHas(e, Naming(CHANNELS));
    ChannelsUntouched(Flat(Preamble(e)));
  }

  lemma JoinedIff(a: seq<string>, b: seq<string>, ch: string)
    requires NoNewlines(b) && (ch == "" ==> b == []) && (ch != "" ==> b != [] && ('\n' !in ch ==> b == [TrimSpace(ch)]))
    ensures a + b == (if ch == "" then [] else [ch]) <==> '\n' !in ch && TrimSpace(ch) == ch && a == []
  {
    if ch != "" && a + b == [ch] {
      assert |a| == 0 && b == [ch];
      assert ch in b;
    }
  }

  /** The channels line is there, and gives the value back when it is the only one. */
  lemma ChannelLines(lines: seq<string>, ch: string)
    ensures var read := Values(Flat(QueueExtras(lines, ch)), CHANNELS);
            && NoNewlines(read)
            && (ch == "" ==> read == [])
            && (ch != "" ==> read != [] && ('\n' !in ch ==> read == [TrimSpace(ch)]))
  {
    KeysAreLower();
    FlatHasNoNewlines(QueueExtras(lines, ch));
    ValuesPlain(Flat(QueueExtras(lines, ch)), CHANNELS);
    var modules := ExtrasFlat(lines, ch);
    OtherLinesSilent(modules, CHANNELS);
    ValuesOfConcat(modules, ChannelParts(ch), CHANNELS);
    if ch != "" { ChannelLineRead(ch); }
  }

  lemma ChannelLineRead(ch: string)
    ensures Values(Split(Setting(CHANNELS, ch), '\n'), CHANNELS) != []
    ensures '\n' !in ch ==> Values(Split(Setting(CHANNELS, ch), '\n'), CHANNELS) == [TrimSpace(ch)]
  {
    KeysAreLower();
    var a, line, first := CHANNELS + " = ", Setting(CHANNELS, ch), Split(ch, '\n')[0];
    assert line == a + ch;
    SplitAfterPlain(a, ch, '\n');
    var parts := Split(line, '\n');
    SettingNames(CHANNELS, first);
    assert parts[0] in parts && parts[0] == Setting(CHANNELS, first);
    SilentIff(parts, CHANNELS);
    if '\n' !in ch { PlainIsOnePart(line, '\n'); OneSetting(CHANNELS, ch); }
  }

  /** When no field of the base brings a modules line, the queue file loads queue_job beside what an Odoo
      loads anyway, and says so once, just when the channels bring none either. */
  lemma QueueTierLoadsTheRunner(e: Env)
    requires !Injects(e, Touching(MODULES))
    ensures Read(QueueText(e), MODULES) == ["base,web,queue_job"] <==>
            !InnerLine(QueueJobChannels(e.workload), Naming(MODULES))
  {
    QueueReads(e, MODULES);
    NoModulesInBase(e);
    var modules := ExtrasFlat(SplitBase(e), QueueJobChannels(e.workload));
    ValuesOfConcat(modules, ChannelParts(QueueJobChannels(e.workload)), MODULES);
    ChannelsSilentIff(QueueJobChannels(e.workload), MODULES);
  }

  /** A channels value of two lines can give the queue file a second modules line. */
  lemma ChannelsCanNameModules(e: Env, channels: string, line: string)
    requires QueueJobChannels(e.workload) == channels + ['\n'] + line
    requires '\n' !in channels && '\n' !in line && Names(line, MODULES) && !Injects(e, Touching(MODULES))
    ensures Read(QueueText(e), MODULES) == ["base,web,queue_job", ValueOf(line, MODULES)]
  {
    QueueReads(e, MODULES);
    NoModulesInBase(e);
    var modules := TwoLineExtras(SplitBase(e), channels, line, MODULES);
  }

  lemma NoModulesInBase(e: Env)
    requires !Injects(e, Touching(MODULES))
    ensures !SawModules(SplitBase(e)) && Values(Map(QueueLine, Flat(Preamble(e))), MODULES) == []
  {
    KeysAreLower();
    KeyStart(MODULES, OWN);
    PreambleHas(e, Touching(MODULES));
    NoModulesSeen(e);
    NoModulesWritten(Flat(Preamble(e)));
  }

  lemma NoModulesSeen(e: Env)
    requires !SomeLine(Flat(Preamble(e)), Touching(MODULES))
    ensures !SawModules(SplitBase(e))
  {
    var w, t := IntText(Workers(e.workload)), IntText(CronThreadsForWeb(e.workload));
    BaseReadsBack(e);
    forall line | line in SplitBase(e) ensures !HasPrefix(line, "server_wide_modules ") {
      if line in Tail(w, t) {
        TailIsOther(line, w, t);
      } else {
        assert line in Flat(Preamble(e)) && !Touching(MODULES)(line) && MODULES + " " == "server_wide_modules ";
      }
    }
  }

  lemma TailIsOther(line: string, workers: string, threads: string)
    requires line in Tail(workers, threads)
    ensures !HasPrefix(line, "server_wide_modules ")
  {
    assert Setting(WORKERS, workers)[0] == 'w' && Setting(THREADS, threads)[0] == 'm' && "server_wide_modules "[0] == 's';
  }

  lemma NoModulesWritten(lines: seq<string>)
    requires !SomeLine(lines, Touching(MODULES))
    ensures Values(Map(QueueLine, lines), MODULES) == []
  {
    forall line | line in lines ensures !Names(QueueLine(line), MODULES) {
      assert !Touching(MODULES)(line) && MODULES + " " == "server_wide_modules ";
      NoOtherNames(line, MODULES);
    }
    MappedSilentIff(lines, QueueLine, MODULES, line => false);
  }
}
