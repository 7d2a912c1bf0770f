/** Image studies over whole runs: any number of reconcilers, each between its calls, interleaved
    with everything else that happens to Jobs, pods and the tenant, in any order. */
module StudyRuns {
  import opened ImageStudy
  import opened Wrappers

  datatype Step =
    // a reconciler: read the status, look an entry's Job up, make the second call, write the status back
    | Begin(who: nat)
    | Get(who: nat, entry: string, image: string, why: string, fails: bool)
    | Act(who: nat, now: int, fails: bool)
    | Save(who: nat)
    | Lose(who: nat)
    // the cluster
    | TenantTouched
    | ForeignJob(job: string, jobImage: string)
    | JobGone(job: string)
    | PodStarts(job: string)
    | PodWaits(pod: nat, reason: string, detail: string)
    | PodTerminates(pod: nat, message: string)
    | PodGone(pod: nat)
    | JobFinishes(job: string, succeeded: bool)

  predicate By(s: Step, r: nat) { (s.Begin? || s.Get? || s.Act? || s.Save? || s.Lose?) && s.who == r }

  function Seen(w: World, image: string, e: Evidence): set<(string, Evidence)> { w.seen + {(image, e)} }

  function Apply(tenant: string, w: World, s: Step): World {
    match s
    case Begin(r) => With(w, r, Reconciler(w.stored, w.version, Idle))
    case Get(r, entry, image, why, fails) =>
      if r in w.reconcilers && w.reconcilers[r].phase.Idle? then Found(w, tenant, r, entry, image, why, fails) else w
    case Act(r, now, fails) => if r in w.reconcilers then Acted(w, tenant, r, now, fails) else w
    case Save(r) => if r in w.reconcilers && w.reconcilers[r].phase.Idle? then Saved(w, r) else w
    case Lose(r) => w.(reconcilers := w.reconcilers - {r})
    case TenantTouched => w.(version := w.version + 1)
    case ForeignJob(job, image) => if job in w.jobs then w else NewJob(w, job, image)
    case JobGone(job) => w.(jobs := w.jobs - {job})
    case PodStarts(job) =>
      if job !in w.jobs then w
      else w.(pods := w.pods + [Pod(job, w.jobs[job].uid, w.jobs[job].image, None, "")])
    case PodWaits(i, reason, detail) =>
      if i >= |w.pods| then w
      else w.(pods := w.pods[i := w.pods[i].(waiting := Some((reason, detail)))],
              seen := Seen(w, w.pods[i].image, Waited(reason, detail)))
    case PodTerminates(i, message) =>
      if i >= |w.pods| then w
      else w.(pods := w.pods[i := w.pods[i].(waiting := None, message := message)],
              seen := Seen(w, w.pods[i].image, Said(message)))
    case PodGone(i) => if i >= |w.pods| then w else w.(pods := w.pods[..i] + w.pods[i + 1..])
    case JobFinishes(job, ok) =>
      if job !in w.jobs then w
      else
        var j := w.jobs[job];
        w.(jobs := w.jobs[job := if ok then j.(succeeded := j.succeeded + 1) else j.(failed := j.failed + 1)],
           seen := Seen(w, j.image, Finished))
  }

  /** The write at the end of a pass: refused when the tenant has changed since the pass began. */
  function Saved(w: World, r: nat): World
    requires r in w.reconcilers
  {
    var rec, over := w.reconcilers[r], w.(reconcilers := w.reconcilers - {r});
    if rec.version == w.version then over.(stored := rec.work, version := w.version + 1) else over
  }

  function After(tenant: string, w: World, steps: seq<Step>): World {
    if steps == [] then w
    else Apply(tenant, After(tenant, w, steps[..|steps| - 1]), steps[|steps| - 1])
  }

  const EMPTY: World := World(map[], [], 0, [], 0, map[], {}, [], map[])

  lemma AfterOneMore(tenant: string, w: World, steps: seq<Step>, s: Step)
    ensures After(tenant, w, steps + [s]) == Apply(tenant, After(tenant, w, steps), s)
  {
    assert (steps + [s])[..|steps|] == steps;
  }

  lemma {:induction false} AfterInTwo(tenant: string, w: World, a: seq<Step>, b: seq<Step>)
    ensures After(tenant, w, a + b) == After(tenant, After(tenant, w, a), b)
    decreases |b|
  {
    if b == [] {
      assert a + b == a;
    } else {
      assert (a + b)[..|a + b| - 1] == a + b[..|b| - 1];
      AfterInTwo(tenant, w, a, b[..|b| - 1]);
    }
  }

  // ------------------------------------------------------------------ provenance

  /** The study is about what a Job running exactly the recorded image was seen to do. */
  ghost predicate Backed(seen: set<(string, Evidence)>, s: Study) {
    s.studiedAt.Some? ==>
      match s.body
      case Report(m) => (s.image, Said(m)) in seen
      case CouldNotPull(r, d) => exists whole :: (s.image, Waited(r, whole)) in seen && d == FirstLine(whole)
      case NoReport => (s.image, Finished) in seen
      case Nothing => false
  }

  ghost predicate NamesUnique(studies: seq<Study>) {
    forall i, j :: 0 <= i < j < |studies| ==> studies[i].name != studies[j].name
  }

  ghost predicate StudiesSound(seen: set<(string, Evidence)>, studies: seq<Study>) {
    NamesUnique(studies) && forall s :: s in studies ==> Backed(seen, s)
  }

  ghost predicate Ran(w: World, uid: nat, image: string) { uid in w.ran && w.ran[uid] == image }

  ghost predicate PodSound(w: World, p: Pod) {
    && Ran(w, p.jobUid, p.image)
    && (p.waiting.Some? ==> (p.image, Waited(p.waiting.value.0, p.waiting.value.1)) in w.seen)
    && (p.message != "" ==> (p.image, Said(p.message)) in w.seen)
  }

  ghost predicate JobSound(w: World, j: Job) {
    && Ran(w, j.uid, j.image) && j.annotation == j.image
    && (IsFinished(j) ==> (j.image, Finished) in w.seen)
  }

  ghost predicate ReconcilerSound(w: World, rec: Reconciler) {
    && StudiesSound(w.seen, rec.work)
    && (rec.phase.Reading? ==>
          Ran(w, rec.phase.uid, rec.phase.image) && (rec.phase.finished ==> (rec.phase.image, Finished) in w.seen))
  }

  ghost predicate Inv(w: World) {
    && (forall uid :: uid in w.ran ==> uid < w.nextUid)
    && (forall name :: name in w.jobs ==> JobSound(w, w.jobs[name]))
    && (forall p :: p in w.pods ==> PodSound(w, p))
    && (forall r :: r in w.reconcilers ==> ReconcilerSound(w, w.reconcilers[r]))
    && StudiesSound(w.seen, w.stored)
  }

  /** The pods listed carry the uid of the Job that was read. */
  ghost predicate CleanRead(tenant: string, w: World, r: nat) {
    r in w.reconcilers && w.reconcilers[r].phase.Reading? ==>
      var phase := w.reconcilers[r].phase;
      forall p :: p in w.pods && p.jobName == StudyJobName(tenant, phase.entry) ==> p.jobUid == phase.uid
  }

  ghost predicate CleanReads(tenant: string, w: World, steps: seq<Step>) {
    forall k :: 0 <= k < |steps| && steps[k].Act? ==> CleanRead(tenant, After(tenant, w, steps[..k]), steps[k].who)
  }

  /** More is known than before, and nothing known is lost. */
  ghost predicate Grows(w: World, t: World) {
    w.seen <= t.seen && forall uid :: uid in w.ran ==> uid in t.ran && t.ran[uid] == w.ran[uid]
  }

  /** What a reconciler holds stays sound while others move. */
  lemma ReconcilersStaySound(w: World, t: World)
    requires Grows(w, t) && t.reconcilers.Keys <= w.reconcilers.Keys
    requires forall r :: r in t.reconcilers ==> t.reconcilers[r] == w.reconcilers[r]
    requires forall r :: r in w.reconcilers ==> ReconcilerSound(w, w.reconcilers[r])
    ensures forall r :: r in t.reconcilers ==> ReconcilerSound(t, t.reconcilers[r])
  {
    forall r | r in t.reconcilers ensures ReconcilerSound(t, t.reconcilers[r]) {
    }
  }

  /** What is read off the pods was said by a pod of that Job name. */
  lemma {:induction false} MessageFrom(pods: seq<Pod>, job: string)
    requires StudyMessage(pods, job) != ""
    ensures exists p :: p in pods && p.jobName == job && p.message == StudyMessage(pods, job)
  {
    var n := |pods| - 1;
    if StudyMessage(pods[..n], job) != "" {
      MessageFrom(pods[..n], job);
      var p :| p in pods[..n] && p.jobName == job && p.message == StudyMessage(pods[..n], job);
      assert p in pods;
    } else {
      assert pods[n] in pods;
    }
  }

  lemma {:induction false} ProblemFrom(pods: seq<Pod>, job: string)
    requires PullProblem(pods, job).Some?
    ensures exists p :: p in pods && p.jobName == job && p.waiting.Some?
                        && PullProblem(pods, job) == Some((p.waiting.value.0, FirstLine(p.waiting.value.1)))
  {
    var n := |pods| - 1;
    if PullProblem(pods[..n], job).Some? {
      ProblemFrom(pods[..n], job);
      var p :| p in pods[..n] && p.jobName == job && p.waiting.Some?
               && PullProblem(pods[..n], job) == Some((p.waiting.value.0, FirstLine(p.waiting.value.1)));
      assert p in pods;
    } else {
      assert pods[n] in pods;
    }
  }

  /** The record a reconciler makes of a clean read is about its own Job. */
  lemma RecordIsBacked(tenant: string, w: World, r: nat, now: int, fails: bool)
    requires Inv(w) && CleanRead(tenant, w, r) && r in w.reconcilers && w.reconcilers[r].phase.Reading?
    ensures ReconcilerSound(w, Acted(w, tenant, r, now, fails).reconcilers[r])
  {
    var rec := w.reconcilers[r];
    var name, image := StudyJobName(tenant, rec.phase.entry), rec.phase.image;
    var body := if rec.phase.finished then ReadBack(w.pods, name, fails) else Stuck(w.pods, name, fails);
    assert ReconcilerSound(w, rec);
    if body.Report? {
      MessageFrom(w.pods, name);
      var p :| p in w.pods && p.jobName == name && p.message == body.message;
      assert PodSound(w, p) && p.image == image;
    } else if body.CouldNotPull? {
      ProblemFrom(w.pods, name);
      var p :| p in w.pods && p.jobName == name && p.waiting.Some?
               && PullProblem(w.pods, name) == Some((p.waiting.value.0, FirstLine(p.waiting.value.1)));
      assert PodSound(w, p) && p.image == image;
    }
  }

  lemma NewJobKeepsInv(w: World, name: string, image: string)
    requires Inv(w)
    ensures Inv(NewJob(w, name, image)) && Grows(w, NewJob(w, name, image))
  {
    var t := NewJob(w, name, image);
    ReconcilersStaySound(w, t);
    forall p | p in t.pods ensures PodSound(t, p) { assert PodSound(w, p); }
    forall n | n in t.jobs ensures JobSound(t, t.jobs[n]) { assert n != name ==> JobSound(w, w.jobs[n]); }
  }

  /** Only one reconciler moves, and the store at most loses Jobs. */
  lemma OneReconcilerMoves(w: World, t: World, r: nat)
    requires Inv(w) && t.seen == w.seen && t.ran == w.ran && t.nextUid == w.nextUid && t.pods == w.pods
    requires t.stored == w.stored && t.jobs.Keys <= w.jobs.Keys
    requires forall n :: n in t.jobs ==> t.jobs[n] == w.jobs[n]
    requires t.reconcilers.Keys <= w.reconcilers.Keys + {r}
    requires forall q :: q in t.reconcilers && q != r ==> t.reconcilers[q] == w.reconcilers[q]
    requires r in t.reconcilers ==> ReconcilerSound(w, t.reconcilers[r])
    ensures Inv(t)
  {
    forall q | q in t.reconcilers ensures ReconcilerSound(t, t.reconcilers[q]) {
      assert q != r ==> ReconcilerSound(w, w.reconcilers[q]);
    }
    forall p | p in t.pods ensures PodSound(t, p) { assert PodSound(w, p); }
    forall n | n in t.jobs ensures JobSound(t, t.jobs[n]) { assert JobSound(w, w.jobs[n]); }
  }

  lemma FoundKeepsInv(tenant: string, w: World, r: nat, entry: string, image: string, why: string, fails: bool)
    requires Inv(w) && r in w.reconcilers && w.reconcilers[r].phase.Idle?
    ensures Inv(Found(w, tenant, r, entry, image, why, fails))
  {
    var rec, name := w.reconcilers[r], StudyJobName(tenant, entry);
    var t := Found(w, tenant, r, entry, image, why, fails);
    assert ReconcilerSound(w, rec);
    if image == "" {
      var i := IndexOf(rec.work, entry);
    } else if name in w.jobs {
      assert JobSound(w, w.jobs[name]);
    }
    OneReconcilerMoves(w, t, r);
  }

  lemma ActedKeepsInv(tenant: string, w: World, r: nat, now: int, fails: bool)
    requires Inv(w) && CleanRead(tenant, w, r) && r in w.reconcilers
    ensures Inv(Acted(w, tenant, r, now, fails))
  {
    var rec := w.reconcilers[r];
    var t := Acted(w, tenant, r, now, fails);
    assert ReconcilerSound(w, rec);
    match rec.phase
    case Creating(entry, image) =>
      var name := StudyJobName(tenant, entry);
      if !fails && name !in w.jobs {
        NewJobKeepsInv(w, name, image);
        var u := NewJob(w, name, image);
        assert ReconcilerSound(u, u.reconcilers[r]);
        OneReconcilerMoves(u, t, r);
      } else {
        OneReconcilerMoves(w, t, r);
      }
    case Reading(_, _, _, _) =>
      RecordIsBacked(tenant, w, r, now, fails);
      OneReconcilerMoves(w, t, r);
    case _ => OneReconcilerMoves(w, t, r);
  }

  lemma PassStepKeepsInv(tenant: string, w: World, s: Step)
    requires Inv(w) && (s.Begin? || s.Get? || s.Act? || s.Save? || s.Lose?)
    requires s.Act? ==> CleanRead(tenant, w, s.who)
    ensures Inv(Apply(tenant, w, s))
  {
    var r := s.who;
    match s
    case Begin(_) => OneReconcilerMoves(w, Apply(tenant, w, s), r);
    case Get(_, entry, image, why, fails) =>
      if r in w.reconcilers && w.reconcilers[r].phase.Idle? {
        FoundKeepsInv(tenant, w, r, entry, image, why, fails);
      }
    case Act(_, now, fails) => if r in w.reconcilers { ActedKeepsInv(tenant, w, r, now, fails); }
    case Save(_) =>
      if r in w.reconcilers {
        assert ReconcilerSound(w, w.reconcilers[r]);
        OneReconcilerMoves(w, w.(reconcilers := w.reconcilers - {r}), r);
      }
    case Lose(_) => OneReconcilerMoves(w, Apply(tenant, w, s), r);
  }

  lemma ClusterStepKeepsInv(tenant: string, w: World, s: Step)
    requires Inv(w) && !(s.Begin? || s.Get? || s.Act? || s.Save? || s.Lose?)
    ensures Inv(Apply(tenant, w, s))
  {
    if s.ForeignJob? {
      if s.job !in w.jobs { NewJobKeepsInv(w, s.job, s.jobImage); }
    } else {
      var t := Apply(tenant, w, s);
      ReconcilersStaySound(w, t);
      forall p | p in t.pods ensures PodSound(t, p) { PodOrigin(tenant, w, s, p); }
    }
  }

  /** A pod after a step that is not a reconciler's: one there was, possibly moved on, or a new one. */
  lemma PodOrigin(tenant: string, w: World, s: Step, p: Pod)
    requires Inv(w) && p in Apply(tenant, w, s).pods && !s.ForeignJob?
    requires !(s.Begin? || s.Get? || s.Act? || s.Save? || s.Lose?)
    ensures PodSound(Apply(tenant, w, s), p)
  {
    if p in w.pods {
      assert PodSound(w, p);
    } else if s.PodStarts? {
      assert JobSound(w, w.jobs[s.job]);
    } else {
      assert w.pods[s.pod] in w.pods && PodSound(w, w.pods[s.pod]);
    }
  }

  lemma {:induction false} RunKeepsInv(tenant: string, steps: seq<Step>)
    requires CleanReads(tenant, EMPTY, steps)
    ensures Inv(After(tenant, EMPTY, steps))
  {
    if steps != [] {
      var before, last := steps[..|steps| - 1], steps[|steps| - 1];
      forall k | 0 <= k < |before| && before[k].Act?
        ensures CleanRead(tenant, After(tenant, EMPTY, before[..k]), before[k].who)
      {
        assert before[..k] == steps[..k] && steps[k].Act?;
      }
      RunKeepsInv(tenant, before);
      if last.Begin? || last.Get? || last.Act? || last.Save? || last.Lose? {
        PassStepKeepsInv(tenant, After(tenant, EMPTY, before), last);
      } else {
        ClusterStepKeepsInv(tenant, After(tenant, EMPTY, before), last);
      }
    }
  }

  /** Provenance: in any interleaving of any number of reconcilers whose reads are clean, every study
      with a date describes what a Job running exactly the recorded image was seen to do, and no entry
      has two studies. */
  lemma {:induction false} StudiesDescribeTheirImage(tenant: string, steps: seq<Step>)
    requires CleanReads(tenant, EMPTY, steps)
    ensures var w := After(tenant, EMPTY, steps);
            && (forall s :: s in w.stored ==> Backed(w.seen, s))
            && NamesUnique(w.stored)
  {
    RunKeepsInv(tenant, steps);
  }

  // ------------------------------------------------------------------ when the reads are not clean

  /** One whole pass over one entry. */
  function Pass(r: nat, entry: string, image: string, now: int): seq<Step> {
    [Begin(r), Get(r, entry, image, "", false), Act(r, now, false), Save(r)]
  }

  lemma {:induction false} Unfolded(tenant: string, w: World, s: seq<Step>)
    requires s != []
    ensures After(tenant, w, s) == After(tenant, Apply(tenant, w, s[0]), s[1..])
    decreases |s|
  {
    if |s| == 1 {
      assert s[..0] == [] && s[1..] == [];
    } else {
      Unfolded(tenant, w, s[..|s| - 1]);
      assert s[..|s| - 1][1..] == s[1..][..|s| - 2];
    }
  }

  lemma Unfold4(tenant: string, w: World, a: Step, b: Step, c: Step, d: Step)
    ensures After(tenant, w, [a, b, c, d]) ==
            Apply(tenant, Apply(tenant, Apply(tenant, Apply(tenant, w, a), b), c), d)
  {
    Unfolded(tenant, w, [a, b, c, d]);
    Unfolded(tenant, Apply(tenant, w, a), [b, c, d]);
    Unfolded(tenant, Apply(tenant, Apply(tenant, w, a), b), [c, d]);
    Unfolded(tenant, Apply(tenant, Apply(tenant, Apply(tenant, w, a), b), c), [d]);
    assert [a, b, c, d][1..] == [b, c, d] && [b, c, d][1..] == [c, d] && [c, d][1..] == [d] && [d][1..] == [];
  }

  /** The parts of a world that reads depend on. */
  datatype View = View(objects: Objects, stored: seq<Study>, seen: set<(string, Evidence)>)

  function ViewOf(w: World): View { View(ObjectsOf(w), w.stored, w.seen) }

  lemma PassUnfolds(tenant: string, w: World, r: nat, entry: string, image: string, now: int)
    ensures var t := Apply(tenant, Apply(tenant, w, Begin(r)), Get(r, entry, image, "", false));
            After(tenant, w, Pass(r, entry, image, now)) == Apply(tenant, Apply(tenant, t, Act(r, now, false)), Save(r))
  {
    Unfold4(tenant, w, Begin(r), Get(r, entry, image, "", false), Act(r, now, false), Save(r));
  }

  lemma PassCreates(tenant: string, w: World, r: nat, entry: string, image: string, now: int)
    requires image != "" && !Answered(w.stored, entry, image) && StudyJobName(tenant, entry) !in w.jobs
    ensures ViewOf(After(tenant, w, Pass(r, entry, image, now))) == ViewOf(NewJob(w, StudyJobName(tenant, entry), image))
  {
    PassUnfolds(tenant, w, r, entry, image, now);
  }

  lemma PassDeletes(tenant: string, w: World, r: nat, entry: string, image: string, now: int)
    requires var name := StudyJobName(tenant, entry);
             image != "" && !Answered(w.stored, entry, image) && name in w.jobs && w.jobs[name].annotation != image
    ensures ViewOf(After(tenant, w, Pass(r, entry, image, now))) == ViewOf(w.(jobs := w.jobs - {StudyJobName(tenant, entry)}))
  {
    PassUnfolds(tenant, w, r, entry, image, now);
  }

  lemma PassReads(tenant: string, w: World, r: nat, entry: string, image: string, now: int)
    requires var name := StudyJobName(tenant, entry);
             && image != "" && !Answered(w.stored, entry, image)
             && name in w.jobs && w.jobs[name].annotation == image && IsFinished(w.jobs[name])
    ensures ViewOf(After(tenant, w, Pass(r, entry, image, now))) ==
            ViewOf(w).(stored := Upsert(w.stored,
              Outcome(entry, image, now, ReadBack(w.pods, StudyJobName(tenant, entry), false))))
  {
    PassUnfolds(tenant, w, r, entry, image, now);
  }

  lemma OnlyPod(p: Pod)
    ensures StudyMessage([p], p.jobName) == p.message
  {
    assert [p][..0] == [];
  }

  /** The pod of a deleted Job answers for its successor. One reconciler is enough. */
  lemma OrphanedPodAnswersForItsSuccessor(tenant: string, entry: string) returns (steps: seq<Step>)
    ensures var w := After(tenant, EMPTY, steps);
            w.stored == [Outcome(entry, "new", 1, Report("about old"))] && !Backed(w.seen, w.stored[0])
  {
    var first, again := Pass(0, entry, "old", 1), Pass(0, entry, "new", 1);
    var w1 := After(tenant, EMPTY, first);
    PassCreates(tenant, EMPTY, 0, entry, "old", 1);
    var pod, w2 := OldPodSpeaks(tenant, w1, entry);
    var w3 := After(tenant, w2, again);
    PassDeletes(tenant, w2, 0, entry, "new", 1);
    var w4 := After(tenant, w3, again);
    PassCreates(tenant, w3, 0, entry, "new", 1);
    var end, w5 := NewJobIsReadWithOldPod(tenant, w4, entry);
    AfterInTwo(tenant, EMPTY, first, pod);
    AfterInTwo(tenant, EMPTY, first + pod, again);
    AfterInTwo(tenant, EMPTY, first + pod + again, again);
    AfterInTwo(tenant, EMPTY, first + pod + again + again, end);
    steps := first + pod + again + again + end;
  }

  lemma OldPodSpeaks(tenant: string, w: World, entry: string) returns (steps: seq<Step>, t: World)
    requires var name := StudyJobName(tenant, entry);
             ViewOf(w) == View(Objects(map[name := Job(0, "old", "old", 0, 0)], [], 1), [], {})
    ensures t == After(tenant, w, steps)
    ensures var name := StudyJobName(tenant, entry);
            ViewOf(t) == ViewOf(w).(objects := ObjectsOf(w).(pods := [Pod(name, 0, "old", None, "about old")]),
                                    seen := {("old", Said("about old"))})
  {
    var name := StudyJobName(tenant, entry);
    steps := [PodStarts(name)] + [PodTerminates(0, "about old")];
    t := After(tenant, w, steps);
    AfterOneMore(tenant, w, [], PodStarts(name));
    AfterOneMore(tenant, w, [PodStarts(name)], PodTerminates(0, "about old"));
    assert Apply(tenant, w, PodStarts(name)).pods == [Pod(name, 0, "old", None, "")];
  }

  lemma NewJobIsReadWithOldPod(tenant: string, w: World, entry: string) returns (steps: seq<Step>, t: World)
    requires var name := StudyJobName(tenant, entry);
             ViewOf(w) == View(Objects(map[name := Job(1, "new", "new", 0, 0)], [Pod(name, 0, "old", None, "about old")], 2),
                               [], {("old", Said("about old"))})
    ensures t == After(tenant, w, steps)
    ensures t.stored == [Outcome(entry, "new", 1, Report("about old"))] && !Backed(t.seen, t.stored[0])
  {
    var name := StudyJobName(tenant, entry);
    var u := Apply(tenant, w, JobFinishes(name, true));
    PassReads(tenant, u, 0, entry, "new", 1);
    OnlyPod(u.pods[0]);
    steps := [JobFinishes(name, true)] + Pass(0, entry, "new", 1);
    t := After(tenant, w, steps);
    AfterOneMore(tenant, w, [], JobFinishes(name, true));
    AfterInTwo(tenant, w, [JobFinishes(name, true)], Pass(0, entry, "new", 1));
  }

  /** The pod of a successor answers for the Job that was read: a second reconciler, which sees the
      entry resolve to a newer build, replaces the Job between the first one's two calls. At both calls
      the pods and the Job in the store belong together. */
  lemma SuccessorsPodAnswersForThePredecessor(tenant: string, entry: string) returns (steps: seq<Step>)
    ensures var w := After(tenant, EMPTY, steps);
            w.stored == [Outcome(entry, "old", 1, Report("about new"))] && !Backed(w.seen, w.stored[0])
  {
    var first := Pass(0, entry, "old", 1);
    var w1 := After(tenant, EMPTY, first);
    PassCreates(tenant, EMPTY, 0, entry, "old", 1);
    var read, w2 := JobIsReadAndGoes(tenant, w1, entry);
    var other, w3 := AnotherTakesOver(tenant, w2, entry);
    var end, w4 := ItsPodIsRead(tenant, w3, entry);
    AfterInTwo(tenant, EMPTY, first, read);
    AfterInTwo(tenant, EMPTY, first + read, other);
    AfterInTwo(tenant, EMPTY, first + read + other, end);
    steps := first + read + other + end;
  }

  ghost predicate HasReadTheOldJob(w: World, entry: string) {
    0 in w.reconcilers && w.reconcilers[0] == Reconciler([], w.version, Reading(entry, "old", 0, true))
  }

  lemma JobIsReadAndGoes(tenant: string, w: World, entry: string) returns (steps: seq<Step>, t: World)
    requires var name := StudyJobName(tenant, entry);
             ViewOf(w) == View(Objects(map[name := Job(0, "old", "old", 0, 0)], [], 1), [], {})
    ensures t == After(tenant, w, steps) && HasReadTheOldJob(t, entry)
    ensures ViewOf(t) == View(Objects(map[], [], 1), [], {("old", Finished)})
  {
    var name := StudyJobName(tenant, entry);
    steps := [JobFinishes(name, true), Begin(0), Get(0, entry, "old", "", false), JobGone(name)];
    t := After(tenant, w, steps);
    Unfold4(tenant, w, steps[0], steps[1], steps[2], steps[3]);
  }

  lemma AnotherTakesOver(tenant: string, w: World, entry: string) returns (steps: seq<Step>, t: World)
    requires HasReadTheOldJob(w, entry) && ViewOf(w) == View(Objects(map[], [], 1), [], {("old", Finished)})
    ensures t == After(tenant, w, steps) && HasReadTheOldJob(t, entry)
    ensures t.pods == [Pod(StudyJobName(tenant, entry), 1, "new", None, "")] && t.seen == w.seen
  {
    var name := StudyJobName(tenant, entry);
    steps := [Begin(1), Get(1, entry, "new", "", false), Act(1, 1, false), PodStarts(name)];
    t := After(tenant, w, steps);
    Unfold4(tenant, w, steps[0], steps[1], steps[2], steps[3]);
  }

  lemma ItsPodIsRead(tenant: string, w: World, entry: string) returns (steps: seq<Step>, t: World)
    requires HasReadTheOldJob(w, entry) && w.seen == {("old", Finished)}
    requires w.pods == [Pod(StudyJobName(tenant, entry), 1, "new", None, "")]
    ensures t == After(tenant, w, steps)
    ensures t.stored == [Outcome(entry, "old", 1, Report("about new"))] && !Backed(t.seen, t.stored[0])
  {
    steps := [PodTerminates(0, "about new"), Act(0, 1, false), Save(0)];
    t := After(tenant, w, steps);
    var u := Apply(tenant, w, steps[0]);
    OnlyPod(u.pods[0]);
    Unfolded(tenant, w, steps);
    Unfolded(tenant, u, steps[1..]);
    Unfolded(tenant, Apply(tenant, u, steps[1]), steps[2..]);
    assert steps[1..][1..] == steps[2..] && steps[2..][1..] == [];
  }
}
