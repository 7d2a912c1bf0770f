/** The update script with rollback, as a state machine over a server's databases. Every command may fail,
    leaving anything in its own target, and the container may be killed in any state, half way through a
    copy or an update included. */
module UpdateRollback {
  import opened Wrappers

  /** What a database holds. Only equality matters. */
  type Content = int

  type Databases = map<string, Content>

  function CopyName(db: string): string { db + "_before_update" }

  /** What the script says as it exits. */
  datatype Note = NotTried | Updated | PutBack | KeepTheCopy

  datatype Pc =
    | Preflight | DropStale | Copy | Copying | Update | DropCopy
    | DropBroken | Restore | Restoring | DropRestored
    | Exit(code: int, note: Note)

  /** `rc` is the update's exit status, `updated` whether it was zero. */
  datatype State = State(pc: Pc, dbs: Databases, rc: int, updated: bool)

  ghost predicate Holds(dbs: Databases, name: string, c: Content) { name in dbs && dbs[name] == c }

  /** The two databases agree except, possibly, on one name. */
  ghost predicate OnlyChanges(name: string, before: Databases, after: Databases) {
    before - {name} == after - {name}
  }

  /** dropdb --if-exists: all or nothing. */
  ghost predicate Drops(name: string, before: Databases, after: Databases, ok: bool) {
    after == if ok then before - {name} else before
  }

  // ------------------------------------------------------------------ the steps

  ghost predicate Next(db: string, s: State, t: State) {
    var safe := CopyName(db);
    match s.pc
    case Preflight =>
      && t.dbs == s.dbs && t.rc == s.rc && t.updated == s.updated
      && (t.pc == DropStale || t.pc == Exit(1, NotTried))
    case DropStale =>
      && t == s.(pc := Copy, dbs := t.dbs)
      && (Drops(safe, s.dbs, t.dbs, true) || Drops(safe, s.dbs, t.dbs, false))
    case Copy =>
      // CREATE DATABASE refuses a name that is taken and a source that is not there.
      || t == s.(pc := Exit(1, NotTried))
      || (safe !in s.dbs && db in s.dbs && t == s.(pc := Copying))
    case Copying =>
      && OnlyChanges(safe, s.dbs, t.dbs) && t.rc == s.rc && t.updated == s.updated
      && (|| t.pc == Copying
          || t.pc == Exit(1, NotTried)
          || (t.pc == Update && db in s.dbs && Holds(t.dbs, safe, s.dbs[db])))
    case Update =>
      && OnlyChanges(db, s.dbs, t.dbs)
      && (|| (t.pc == Update && t.rc == s.rc && t.updated == s.updated)
          || (t.pc == DropCopy && t.rc == 0 && t.updated)
          || (t.pc == DropBroken && t.rc != 0 && t.updated == s.updated))
    case DropCopy =>
      && t == s.(pc := Exit(0, Updated), dbs := t.dbs)
      && (Drops(safe, s.dbs, t.dbs, true) || Drops(safe, s.dbs, t.dbs, false))
    case DropBroken =>
      || (t == s.(pc := Restore, dbs := t.dbs) && Drops(db, s.dbs, t.dbs, true))
      || t == s.(pc := Exit(s.rc, KeepTheCopy))
    case Restore =>
      || t == s.(pc := Exit(s.rc, KeepTheCopy))
      || (db !in s.dbs && safe in s.dbs && t == s.(pc := Restoring))
    case Restoring =>
      && OnlyChanges(db, s.dbs, t.dbs) && t.rc == s.rc && t.updated == s.updated
      && (|| t.pc == Restoring
          || t.pc == Exit(s.rc, KeepTheCopy)
          || (t.pc == DropRestored && safe in s.dbs && Holds(t.dbs, db, s.dbs[safe])))
    case DropRestored =>
      && t == s.(pc := Exit(s.rc, PutBack), dbs := t.dbs)
      && (Drops(safe, s.dbs, t.dbs, true) || Drops(safe, s.dbs, t.dbs, false))
    case Exit(_, _) => false
  }

  function Start(dbs: Databases): State { State(Preflight, dbs, 0, false) }

  ghost predicate IsRun(db: string, dbs: Databases, run: seq<State>) {
    && run != [] && run[0] == Start(dbs)
    && forall i :: 0 < i < |run| ==> Next(db, run[i - 1], run[i])
  }

  // ------------------------------------------------------------------ one run

  /** What a run that began with `db` holding `original` has established at each point. */
  ghost predicate Established(db: string, original: Content, first: Databases, s: State) {
    var safe := CopyName(db);
    && s.dbs - {db} - {safe} == first - {db} - {safe}
    && match s.pc
       case Preflight | DropStale | Copy | Copying => Holds(s.dbs, db, original) && !s.updated
       case Update => Holds(s.dbs, safe, original) && !s.updated
       case DropCopy => s.updated
       case DropBroken | Restore | Restoring => Holds(s.dbs, safe, original) && !s.updated && s.rc != 0
       case DropRestored => Holds(s.dbs, db, original) && !s.updated && s.rc != 0
       case Exit(code, note) =>
         match note
         case NotTried => code == 1 && !s.updated && Holds(s.dbs, db, original)
         case Updated => code == 0 && s.updated
         case PutBack => code != 0 && !s.updated && Holds(s.dbs, db, original)
         case KeepTheCopy => code != 0 && !s.updated && Holds(s.dbs, safe, original)
  }

  lemma OtherNameKept(name: string, other: string, before: Databases, after: Databases)
    requires OnlyChanges(name, before, after) && name != other
    ensures other in before <==> other in after
    ensures other in before ==> before[other] == after[other]
  {
    assert other in before - {name} <==> other in after - {name};
    if other in before { assert (before - {name})[other] == (after - {name})[other]; }
  }

  lemma StepEstablishes(db: string, original: Content, first: Databases, s: State, t: State)
    requires Established(db, original, first, s) && Next(db, s, t)
    ensures Established(db, original, first, t)
  {
    var safe := CopyName(db);
    RestUntouched(db, s, t);
    match s.pc
    case Copying => OtherNameKept(safe, db, s.dbs, t.dbs);
    case Update => OtherNameKept(db, safe, s.dbs, t.dbs);
    case Restoring => OtherNameKept(db, safe, s.dbs, t.dbs);
    case _ =>
  }

  lemma RestUntouched(db: string, s: State, t: State)
    requires Next(db, s, t)
    ensures s.dbs - {db} - {CopyName(db)} == t.dbs - {db} - {CopyName(db)}
  {
    var safe := CopyName(db);
    if OnlyChanges(safe, s.dbs, t.dbs) {
      assert s.dbs - {db} - {safe} == (s.dbs - {safe}) - {db};
      assert t.dbs - {db} - {safe} == (t.dbs - {safe}) - {db};
    }
  }

  lemma {:induction false} RunEstablishes(db: string, original: Content, first: Databases, run: seq<State>, i: nat)
    requires IsRun(db, first, run) && i < |run| && Holds(first, db, original)
    ensures Established(db, original, first, run[i])
  {
    if i > 0 {
      RunEstablishes(db, original, first, run, i - 1);
      StepEstablishes(db, original, first, run[i - 1], run[i]);
    }
  }

  /** The original is in one of the two names, or the update completed. */
  ghost predicate NotLost(db: string, original: Content, s: State) {
    Holds(s.dbs, db, original) || Holds(s.dbs, CopyName(db), original) || s.updated
  }

  /** In every state of every run that starts with the database holding the original, the data is
      not lost, no third database is touched, and at exit the status and the note tell the truth:
      0 exactly when the update succeeded, otherwise the original is where the note says. */
  lemma UpdateNeverLosesTheData(db: string, original: Content, first: Databases, run: seq<State>, i: nat)
    requires IsRun(db, first, run) && i < |run| && Holds(first, db, original)
    ensures NotLost(db, original, run[i])
    ensures forall name :: name != db && name != CopyName(db) ==>
              (name in run[i].dbs <==> name in first) && (name in first ==> run[i].dbs[name] == first[name])
    ensures run[i].pc.Exit? ==>
              && (run[i].pc.code == 0 <==> run[i].updated)
              && (run[i].pc.code != 0 ==>
                    if run[i].pc.note == KeepTheCopy then Holds(run[i].dbs, CopyName(db), original)
                    else Holds(run[i].dbs, db, original))
  {
    RunEstablishes(db, original, first, run, i);
    var mine, theirs := run[i].dbs - {db} - {CopyName(db)}, first - {db} - {CopyName(db)};
    forall name | name != db && name != CopyName(db)
      ensures (name in run[i].dbs <==> name in first) && (name in first ==> run[i].dbs[name] == first[name])
    {
      assert name in mine <==> name in theirs;
      if name in first { assert mine[name] == theirs[name]; }
    }
  }

  // ------------------------------------------------------------------ restarts

  /** Every run from these databases keeps the original. */
  ghost predicate AlwaysSafe(db: string, original: Content, dbs: Databases) {
    forall run, i :: IsRun(db, dbs, run) && 0 <= i < |run| ==> NotLost(db, original, run[i])
  }

  /** The guarantee is about one run. A run can rely on it exactly when it starts with the original
      under the database's own name; an original that is only in the copy may be dropped by the
      first command. */
  lemma SafeToStartIff(db: string, original: Content, dbs: Databases)
    ensures AlwaysSafe(db, original, dbs) <==> Holds(dbs, db, original)
  {
    if Holds(dbs, db, original) {
      forall run, i | IsRun(db, dbs, run) && 0 <= i < |run| ensures NotLost(db, original, run[i]) {
        UpdateNeverLosesTheData(db, original, dbs, run, i);
      }
    } else {
      var s0 := Start(dbs);
      var s1 := s0.(pc := DropStale);
      var s2 := s1.(pc := Copy, dbs := dbs - {CopyName(db)});
      var run := [s0, s1, s2];
      assert Next(db, s0, s1) && Next(db, s1, s2);
      assert IsRun(db, dbs, run);
      assert !NotLost(db, original, run[2]);
    }
  }

  /** A run whose rollback fails says "do not delete the copy", and running the script again, which
      is what a restarted init container does, can delete it and with it the last original. */
  lemma RestartAfterFailedRollbackCanLose(db: string, original: Content, broken: Content, first: Databases)
    returns (run: seq<State>, again: seq<State>)
    requires Holds(first, db, original) && broken != original && CopyName(db) !in first
    ensures IsRun(db, first, run) && run[|run| - 1].pc == Exit(1, KeepTheCopy)
    ensures NotLost(db, original, run[|run| - 1])
    ensures IsRun(db, run[|run| - 1].dbs, again) && !NotLost(db, original, again[|again| - 1])
  {
    var safe := CopyName(db);
    var s0 := Start(first);
    var s1 := s0.(pc := DropStale);
    var s2 := s1.(pc := Copy);
    var s3 := s2.(pc := Copying);
    var s4 := s3.(pc := Update, dbs := first[safe := original]);
    var s5 := s4.(pc := DropBroken, dbs := s4.dbs[db := broken], rc := 1);
    var s6 := s5.(pc := Exit(1, KeepTheCopy));
    assert first - {safe} == s4.dbs - {safe};
    assert s4.dbs - {db} == s5.dbs - {db};
    run := [s0, s1, s2, s3, s4, s5, s6];
    var t0 := Start(s6.dbs);
    var t1 := t0.(pc := DropStale);
    var t2 := t1.(pc := Copy, dbs := s6.dbs - {safe});
    again := [t0, t1, t2];
  }

  // ------------------------------------------------------------------ the script

  /** How the commands turn out; `None` as a leftover means the target does not exist. */
  datatype CopyOutcome = CopyOk | CopyFailed(left: Option<Content>)
  type FailureStatus = i: int | i != 0 witness 1
  datatype UpdateOutcome = UpdateOk(c: Content) | UpdateFailed(status: FailureStatus, left: Content)
  datatype Outcomes = Outcomes(
    tools: bool, dropStale: bool, copy: CopyOutcome, update: UpdateOutcome,
    dropBroken: bool, restore: CopyOutcome, dropCopy: bool)

  /** The tools are there, the database too, and a copy could be made beside it. */
  predicate CopyTaken(db: string, o: Outcomes, dbs: Databases) {
    o.tools && db in dbs && (o.dropStale || CopyName(db) !in dbs) && o.copy.CopyOk?
  }

  /** What a run that did not get its copy leaves: without the tools, everything as it was, an earlier copy
      included; otherwise only the copy's name may have changed, and not even that when the stale copy could
      not be dropped. */
  ghost predicate LeftAlone(db: string, o: Outcomes, before: Databases, after: Databases) {
    && (!o.tools ==> after == before)
    && (!o.dropStale && CopyName(db) in before ==> after == before)
    && (o.tools && o.dropStale && db !in before ==> after == before - {CopyName(db)})
    && OnlyChanges(CopyName(db), before, after)
  }

  /** The databases once the copy has served: it is gone, or still there when it could not be dropped. */
  function Ended(db: string, o: Outcomes, before: Databases, original: Content): Databases {
    if o.dropCopy then before - {CopyName(db)} else before[CopyName(db) := original]
  }

  /** What a failed update leaves: the databases as they were when the rollback's two commands work,
      otherwise the original in the copy and nothing else changed but the database itself, which is as the
      update left it when it could not even be dropped. */
  ghost predicate RolledBack(db: string, o: Outcomes, before: Databases, after: Databases, original: Content) {
    if o.dropBroken && o.restore.CopyOk? then after == Ended(db, o, before, original)
    else
      && OnlyChanges(db, before[CopyName(db) := original], after)
      && (!o.dropBroken && o.update.UpdateFailed? ==> Holds(after, db, o.update.left))
  }

  class Server {
    var dbs: Databases

    method DropIfExists(name: string, works: bool) returns (ok: bool)
      modifies this
      ensures ok == works && Drops(name, old(dbs), dbs, ok)
    {
      if works { dbs := dbs - {name}; }
      ok := works;
    }

    method CopyDb(from: string, to: string, o: CopyOutcome) returns (ok: bool)
      requires from != to
      modifies this
      ensures ok == (o == CopyOk && to !in old(dbs) && from in old(dbs))
      ensures ok ==> dbs == old(dbs)[to := old(dbs)[from]]
      ensures !ok && (to in old(dbs) || from !in old(dbs)) ==> dbs == old(dbs)
      ensures OnlyChanges(to, old(dbs), dbs)
    {
      if to in dbs || from !in dbs {
        return false;
      }
      match o {
        case CopyOk => dbs := dbs[to := dbs[from]];
        case CopyFailed(None) =>
        case CopyFailed(Some(c)) => dbs := dbs[to := c];
      }
      ok := o == CopyOk;
    }

    /** The script itself: its database states and its exit are a run of the state machine, and given
        how each command turns out it does exactly this. */
    method UpdateWithRollback(db: string, o: Outcomes) returns (rc: int, ghost run: seq<State>)
      modifies this
      ensures rc == 0 <==> CopyTaken(db, o, old(dbs)) && o.update.UpdateOk?
      ensures !CopyTaken(db, o, old(dbs)) ==> rc == 1 && LeftAlone(db, o, old(dbs), dbs)
      ensures CopyTaken(db, o, old(dbs)) && o.update.UpdateOk? ==>
                rc == 0 && dbs == Ended(db, o, old(dbs), old(dbs)[db])[db := o.update.c]
      ensures CopyTaken(db, o, old(dbs)) && o.update.UpdateFailed? ==>
                rc == o.update.status && RolledBack(db, o, old(dbs), dbs, old(dbs)[db])
      ensures IsRun(db, old(dbs), run)
      ensures run[|run| - 1].pc.Exit? && run[|run| - 1].pc.code == rc && run[|run| - 1].dbs == dbs
    {
      var safe := CopyName(db);
      ghost var first, s := dbs, Start(dbs);
      var copied;
      copied, run, s := CopyBeforeUpdate(db, safe, o);
      if !copied {
        return 1, run;
      }
      if o.update.UpdateOk? {
        dbs := dbs[db := o.update.c];
        assert OnlyChanges(db, s.dbs, dbs);
        run, s := Extended(db, first, run, s.(pc := DropCopy, dbs := dbs, rc := 0, updated := true));
        var _ := DropIfExists(safe, o.dropCopy);
        run, s := Extended(db, first, run, s.(pc := Exit(0, Updated), dbs := dbs));
        return 0, run;
      }
      rc := o.update.status;
      dbs := dbs[db := o.update.left];
      assert OnlyChanges(db, s.dbs, dbs);
      run, s := Extended(db, first, run, s.(pc := DropBroken, dbs := dbs, rc := rc));
      run := RollBack(db, safe, o, first[db], first, run, s);
    }

    /** Everything before the update: the tools, the stale copy, the copy. */
    method CopyBeforeUpdate(db: string, safe: string, o: Outcomes)
      returns (copied: bool, ghost run: seq<State>, ghost s: State)
      requires safe == CopyName(db)
      modifies this
      ensures copied == CopyTaken(db, o, old(dbs))
      ensures IsRun(db, old(dbs), run) && run[|run| - 1] == s && s.dbs == dbs
      ensures copied ==> s.pc == Update && dbs == old(dbs)[safe := old(dbs)[db]] && !s.updated
      ensures !copied ==> s.pc == Exit(1, NotTried) && LeftAlone(db, o, old(dbs), dbs)
    {
      ghost var first := dbs;
      s := Start(dbs);
      run := [s];
      if !o.tools {
        run, s := Extended(db, first, run, s.(pc := Exit(1, NotTried)));
        return false, run, s;
      }
      run, s := Extended(db, first, run, s.(pc := DropStale));
      var _ := DropIfExists(safe, o.dropStale);
      run, s := Extended(db, first, run, s.(pc := Copy, dbs := dbs));
      if db in dbs && safe !in dbs {
        run, s := Extended(db, first, run, s.(pc := Copying));
      }
      copied := CopyDb(db, safe, o.copy);
      run, s := Extended(db, first, run, s.(pc := if copied then Update else Exit(1, NotTried), dbs := dbs));
    }

    /** The failure branch: the broken database goes first, then the copy takes its name. */
    method RollBack(
      db: string, safe: string, o: Outcomes, ghost original: Content, ghost first: Databases,
      ghost run: seq<State>, ghost s: State) returns (ghost all: seq<State>)
      requires safe == CopyName(db)
      requires IsRun(db, first, run) && run[|run| - 1] == s && s.pc == DropBroken && s.dbs == dbs
      modifies this
      ensures Holds(old(dbs), safe, original) && o.dropBroken && o.restore.CopyOk? ==>
                dbs == (if o.dropCopy then old(dbs) - {safe} else old(dbs))[db := original]
      ensures !(o.dropBroken && o.restore.CopyOk?) ==> OnlyChanges(db, old(dbs), dbs)
      ensures !o.dropBroken ==> dbs == old(dbs)
      ensures IsRun(db, first, all)
      ensures all[|all| - 1].pc.Exit? && all[|all| - 1].pc.code == s.rc && all[|all| - 1].dbs == dbs
    {
      ghost var t := s;
      all := run;
      var dropped := DropIfExists(db, o.dropBroken);
      if dropped {
        all, t := Extended(db, first, all, t.(pc := Restore, dbs := dbs));
        all := RestoreCopy(db, safe, o, first, all, t);
      } else {
        all, t := Extended(db, first, all, t.(pc := Exit(s.rc, KeepTheCopy)));
      }
    }

    /** The rest of it, once the broken database is gone: the copy is copied back and dropped. */
    method RestoreCopy(
      db: string, safe: string, o: Outcomes, ghost first: Databases, ghost run: seq<State>, ghost s: State)
      returns (ghost all: seq<State>)
      requires safe == CopyName(db) && db !in dbs
      requires IsRun(db, first, run) && run[|run| - 1] == s && s.pc == Restore && s.dbs == dbs
      modifies this
      ensures safe in old(dbs) && o.restore.CopyOk? ==>
                dbs == (if o.dropCopy then old(dbs) - {safe} else old(dbs))[db := old(dbs)[safe]]
      ensures !o.restore.CopyOk? ==> OnlyChanges(db, old(dbs), dbs)
      ensures IsRun(db, first, all)
      ensures all[|all| - 1].pc.Exit? && all[|all| - 1].pc.code == s.rc && all[|all| - 1].dbs == dbs
    {
      ghost var t := s;
      all := run;
      if safe in dbs {
        all, t := Extended(db, first, all, t.(pc := Restoring));
      }
      var restored := CopyDb(safe, db, o.restore);
      if restored {
        all, t := Extended(db, first, all, t.(pc := DropRestored, dbs := dbs));
        var _ := DropIfExists(safe, o.dropCopy);
        all, t := Extended(db, first, all, t.(pc := Exit(s.rc, PutBack), dbs := dbs));
      } else {
        all, t := Extended(db, first, all, t.(pc := Exit(s.rc, KeepTheCopy), dbs := dbs));
      }
    }
  }

  ghost method Extended(db: string, first: Databases, run: seq<State>, t: State) returns (longer: seq<State>, last: State)
    requires IsRun(db, first, run) && Next(db, run[|run| - 1], t)
    ensures IsRun(db, first, longer) && longer[|longer| - 1] == last == t
  {
    longer, last := run + [t], t;
  }
}
