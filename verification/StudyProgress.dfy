/** What the image studies get done: an answered entry is left alone, an unanswered one is answered. */
module StudyProgress {
  import opened ImageStudy
  import opened StudyRuns
  import opened Wrappers

  // ------------------------------------------------------------------ one entry among the others

  lemma JobNameIsTheEntrys(tenant: string, e: string, f: string)
    ensures StudyJobName(tenant, e) == StudyJobName(tenant, f) <==> e == f
  {
    var p := "study-" + tenant + "-";
    assert StudyJobName(tenant, e)[|p|..] == e && StudyJobName(tenant, f)[|p|..] == f;
  }

  /** The one study of the entry, in a list without duplicate names. */
  ghost predicate HasStudy(studies: seq<Study>, s: Study) {
    IndexOf(studies, s.name).Some? && studies[IndexOf(studies, s.name).value] == s
  }

  ghost predicate NotRepointed(steps: seq<Step>, entry: string, image: string) {
    forall s :: s in steps ==> StaysAt(s, entry, image)
  }

  predicate StaysAt(s: Step, entry: string, image: string) { s.Get? && s.entry == entry ==> s.image == image }

  function CreatedFor(created: seq<(string, string)>, entry: string): nat {
    if created == [] then 0
    else CreatedFor(created[..|created| - 1], entry) + if created[|created| - 1].0 == entry then 1 else 0
  }

  lemma OneMoreCreated(created: seq<(string, string)>, e: string, image: string, entry: string)
    ensures CreatedFor(created + [(e, image)], entry) == CreatedFor(created, entry) + if e == entry then 1 else 0
  {
    assert (created + [(e, image)])[..|created|] == created;
  }

  lemma FirstIs(studies: seq<Study>, name: string, i: nat)
    requires i < |studies| && studies[i].name == name
    requires forall j :: 0 <= j < i ==> studies[j].name != name
    ensures IndexOf(studies, name) == Some(i)
  {
  }

  lemma UpsertHas(studies: seq<Study>, s: Study)
    ensures HasStudy(Upsert(studies, s), s)
  {
    var i := IndexOf(studies, s.name);
    FirstIs(Upsert(studies, s), s.name, if i.Some? then i.value else |studies|);
  }

  lemma OtherEntriesLeaveStudy(studies: seq<Study>, s: Study, other: Study)
    requires HasStudy(studies, s) && other.name != s.name
    ensures HasStudy(Upsert(studies, other), s)
  {
    var t := Upsert(studies, other);
    var i := IndexOf(studies, s.name).value;
    assert t[i] == s;
    FirstIs(t, s.name, i);
  }

  lemma UpsertAnswers(studies: seq<Study>, s: Study)
    requires s.studiedAt.Some?
    ensures Answered(Upsert(studies, s), s.name, s.image)
  {
    var i := IndexOf(studies, s.name);
    assert Answers(Upsert(studies, s)[if i.Some? then i.value else |studies|], s.name, s.image);
  }

  lemma OtherEntriesLeaveAnswer(studies: seq<Study>, name: string, image: string, other: Study)
    requires other.name != name
    ensures Answered(Upsert(studies, other), name, image) <==> Answered(studies, name, image)
  {
    var t := Upsert(studies, other);
    if Answered(studies, name, image) {
      var i :| 0 <= i < |studies| && Answers(studies[i], name, image);
      assert Answers(t[i], name, image);
    }
    if Answered(t, name, image) {
      var i :| 0 <= i < |t| && Answers(t[i], name, image);
      assert i < |studies| && Answers(studies[i], name, image);
    }
  }

  // ------------------------------------------------------------------ an answer is final

  predicate About(p: Phase, name: string) {
    (p.Creating? && p.entry == name) || (p.Deleting? && p.entry == name) || (p.Reading? && p.entry == name)
  }

  /** A reconciler that will create no Job for the entry as long as it resolves to this image. */
  predicate Knows(rec: Reconciler, name: string, image: string) {
    match rec.phase
    case Creating(e, _) => e != name && Answered(rec.work, name, image)
    case Reading(e, i, _, finished) =>
      if e == name then i == image && (finished || Answered(rec.work, name, image)) else Answered(rec.work, name, image)
    case _ => Answered(rec.work, name, image)
  }

  ghost predicate AllKnow(w: World, name: string, image: string) {
    && Answered(w.stored, name, image)
    && forall r :: r in w.reconcilers ==> Knows(w.reconcilers[r], name, image)
  }

  lemma ActKnows(tenant: string, w: World, r: nat, now: int, fails: bool, name: string, image: string)
    requires r in w.reconcilers && Knows(w.reconcilers[r], name, image)
    ensures var t := Acted(w, tenant, r, now, fails);
            && Knows(t.reconcilers[r], name, image)
            && CreatedFor(t.created, name) == CreatedFor(w.created, name)
  {
    var rec := w.reconcilers[r];
    match rec.phase
    case Creating(e, i) => OneMoreCreated(w.created, e, i, name);
    case Reading(e, i, _, finished) =>
      var job := StudyJobName(tenant, e);
      var body := if finished then ReadBack(w.pods, job, fails) else Stuck(w.pods, job, fails);
      var s := Outcome(e, i, now, body);
      if e == name { UpsertAnswers(rec.work, s); } else { OtherEntriesLeaveAnswer(rec.work, name, image, s); }
    case _ =>
  }

  lemma GetKnows(tenant: string, w: World, r: nat, e: string, i: string, why: string, fails: bool, name: string, image: string)
    requires r in w.reconcilers && w.reconcilers[r].phase.Idle? && Knows(w.reconcilers[r], name, image)
    requires image != "" && (e == name ==> i == image)
    ensures Knows(Found(w, tenant, r, e, i, why, fails).reconcilers[r], name, image)
  {
    var rec := w.reconcilers[r];
    if i == "" {
      var at := IndexOf(rec.work, e);
      OtherEntriesLeaveAnswer(rec.work, name, image,
        Study(e, "", None, if at.Some? then rec.work[at.value].body else Nothing, Some(why)));
    }
  }

  /** Only what reconciler r holds has changed. */
  lemma OneMovesAndKnows(w: World, t: World, r: nat, name: string, image: string)
    requires AllKnow(w, name, image) && r in t.reconcilers && t.stored == w.stored
    requires t.reconcilers == w.reconcilers[r := t.reconcilers[r]] && Knows(t.reconcilers[r], name, image)
    ensures AllKnow(t, name, image)
  {
  }

  lemma SaveKnows(w: World, r: nat, name: string, image: string)
    requires AllKnow(w, name, image) && r in w.reconcilers && w.reconcilers[r].phase.Idle?
    ensures AllKnow(Saved(w, r), name, image)
  {
    assert Knows(w.reconcilers[r], name, image);
  }

  lemma OthersKnow(w: World, t: World, name: string, image: string)
    requires AllKnow(w, name, image) && t.stored == w.stored
    requires forall r :: r in t.reconcilers ==>
               (r in w.reconcilers && t.reconcilers[r] == w.reconcilers[r])
               || t.reconcilers[r] == Reconciler(w.stored, w.version, Idle)
    ensures AllKnow(t, name, image)
  {
  }

  lemma GetKeepsKnowing(
    tenant: string, w: World, r: nat, e: string, i: string, why: string, fails: bool, name: string, image: string)
    requires AllKnow(w, name, image) && r in w.reconcilers && w.reconcilers[r].phase.Idle?
    requires image != "" && (e == name ==> i == image)
    ensures var t := Found(w, tenant, r, e, i, why, fails); AllKnow(t, name, image) && t.created == w.created
  {
    GetKnows(tenant, w, r, e, i, why, fails, name, image);
    OneMovesAndKnows(w, Found(w, tenant, r, e, i, why, fails), r, name, image);
  }

  lemma ActKeepsKnowing(tenant: string, w: World, r: nat, now: int, fails: bool, name: string, image: string)
    requires AllKnow(w, name, image) && r in w.reconcilers
    ensures var t := Acted(w, tenant, r, now, fails);
            AllKnow(t, name, image) && CreatedFor(t.created, name) == CreatedFor(w.created, name)
  {
    ActKnows(tenant, w, r, now, fails, name, image);
    OneMovesAndKnows(w, Acted(w, tenant, r, now, fails), r, name, image);
  }

  lemma StepKeepsKnowing(tenant: string, w: World, s: Step, name: string, image: string)
    requires AllKnow(w, name, image) && image != "" && StaysAt(s, name, image)
    ensures AllKnow(Apply(tenant, w, s), name, image)
    ensures CreatedFor(Apply(tenant, w, s).created, name) == CreatedFor(w.created, name)
  {
    match s
    case Get(r, e, i, why, fails) =>
      if r in w.reconcilers && w.reconcilers[r].phase.Idle? {
        GetKeepsKnowing(tenant, w, r, e, i, why, fails, name, image);
      }
    case Act(r, now, fails) => if r in w.reconcilers { ActKeepsKnowing(tenant, w, r, now, fails, name, image); }
    case Save(r) => if r in w.reconcilers && w.reconcilers[r].phase.Idle? { SaveKnows(w, r, name, image); }
    case _ => OthersKnow(w, Apply(tenant, w, s), name, image);
  }

  /** An answered entry is not studied again, whatever else happens, until it is repointed: no further
      Job is created for it, provided every pass in flight knows. */
  lemma {:induction false} NoFurtherJob(tenant: string, w: World, steps: seq<Step>, name: string, image: string)
    requires AllKnow(w, name, image) && image != "" && NotRepointed(steps, name, image)
    ensures var t := After(tenant, w, steps);
            AllKnow(t, name, image) && CreatedFor(t.created, name) == CreatedFor(w.created, name)
  {
    if steps != [] {
      var before := steps[..|steps| - 1];
      assert forall s :: s in before ==> s in steps;
      NoFurtherJob(tenant, w, before, name, image);
      StepKeepsKnowing(tenant, After(tenant, w, before), steps[|steps| - 1], name, image);
    }
  }

  /** Names are unique in every list, and no pass read a later version than the present one. */
  ghost predicate WellNamed(w: World) {
    && NamesUnique(w.stored)
    && forall r :: r in w.reconcilers ==> NamesUnique(w.reconcilers[r].work) && w.reconcilers[r].version <= w.version
  }

  lemma UpsertKeepsNames(studies: seq<Study>, s: Study)
    requires NamesUnique(studies)
    ensures NamesUnique(Upsert(studies, s))
  {
  }

  lemma StepKeepsNames(tenant: string, w: World, s: Step)
    requires WellNamed(w)
    ensures WellNamed(Apply(tenant, w, s))
  {
    if s.Act? && s.who in w.reconcilers && w.reconcilers[s.who].phase.Reading? {
      var rec := w.reconcilers[s.who];
      var job := StudyJobName(tenant, rec.phase.entry);
      var body := if rec.phase.finished then ReadBack(w.pods, job, s.fails) else Stuck(w.pods, job, s.fails);
      UpsertKeepsNames(rec.work, Outcome(rec.phase.entry, rec.phase.image, s.now, body));
    } else if s.Get? && s.who in w.reconcilers && s.image == "" {
      var work := w.reconcilers[s.who].work;
      var i := IndexOf(work, s.entry);
      UpsertKeepsNames(work, Study(s.entry, "", None, if i.Some? then work[i.value].body else Nothing, Some(s.why)));
    }
  }

  /** In every run, whatever is read, no entry has two studies. */
  lemma {:induction false} OneStudyPerEntry(tenant: string, steps: seq<Step>)
    ensures WellNamed(After(tenant, EMPTY, steps))
  {
    if steps != [] {
      OneStudyPerEntry(tenant, steps[..|steps| - 1]);
      StepKeepsNames(tenant, After(tenant, EMPTY, steps[..|steps| - 1]), steps[|steps| - 1]);
    }
  }

  ghost predicate StudiesAgain(tenant: string, w: World, steps: seq<Step>, name: string, image: string) {
    NotRepointed(steps, name, image) && CreatedFor(After(tenant, w, steps).created, name) > CreatedFor(w.created, name)
  }

  /** A pass at rest that does not know looks the Job up, and creates one if it is gone. */
  lemma IdleStudiesAgain(tenant: string, w: World, r: nat, name: string, image: string) returns (steps: seq<Step>)
    requires r in w.reconcilers && w.reconcilers[r].phase.Idle? && !Answered(w.reconcilers[r].work, name, image)
    requires image != ""
    ensures StudiesAgain(tenant, w, steps, name, image)
  {
    var job := StudyJobName(tenant, name);
    steps := [JobGone(job), Get(r, name, image, "", false), Act(r, 0, false), TenantTouched];
    Unfold4(tenant, w, steps[0], steps[1], steps[2], steps[3]);
    OneMoreCreated(w.created, name, image, name);
  }

  lemma CreatingStudiesAgain(tenant: string, w: World, r: nat, name: string, image: string) returns (steps: seq<Step>)
    requires r in w.reconcilers && w.reconcilers[r].phase.Creating? && w.reconcilers[r].phase.entry == name
    ensures StudiesAgain(tenant, w, steps, name, image)
  {
    steps := [JobGone(StudyJobName(tenant, name)), Act(r, 0, false), TenantTouched, TenantTouched];
    Unfold4(tenant, w, steps[0], steps[1], steps[2], steps[3]);
    OneMoreCreated(w.created, name, w.reconcilers[r].phase.image, name);
  }

  /** Any other pass that does not know comes to rest without knowing. */
  lemma ComesToRest(tenant: string, w: World, r: nat, name: string, image: string) returns (steps: seq<Step>)
    requires r in w.reconcilers && !Knows(w.reconcilers[r], name, image) && WellNamed(w)
    requires !(w.reconcilers[r].phase.Creating? && w.reconcilers[r].phase.entry == name)
    ensures NotRepointed(steps, name, image)
    ensures var t := After(tenant, w, steps);
            && t.created == w.created && r in t.reconcilers && t.reconcilers[r].phase.Idle?
            && !Answered(t.reconcilers[r].work, name, image)
  {
    var rec := w.reconcilers[r];
    if rec.phase.Reading? && rec.phase.entry == name && rec.phase.image != image && !rec.phase.finished {
      var body;
      steps, body := PullFails(tenant, w, r, 0);
      ReplacedNotAnswered(rec.work, Outcome(name, rec.phase.image, 0, body), image);
    } else {
      FailedActForgets(tenant, w, r, name, image);
      steps := FailsOnce(tenant, w, r, name, image);
    }
  }

  lemma FailsOnce(tenant: string, w: World, r: nat, name: string, image: string) returns (steps: seq<Step>)
    requires r in w.reconcilers
    ensures NotRepointed(steps, name, image) && After(tenant, w, steps) == Acted(w, tenant, r, 0, true)
  {
    steps := [Act(r, 0, true)];
    AfterOneMore(tenant, w, [], Act(r, 0, true));
  }

  lemma FailedActForgets(tenant: string, w: World, r: nat, name: string, image: string)
    requires r in w.reconcilers && !Knows(w.reconcilers[r], name, image) && WellNamed(w)
    requires var p := w.reconcilers[r].phase;
             !(p.Creating? && p.entry == name) && !(p.Reading? && p.entry == name && p.image != image && !p.finished)
    ensures var t := Acted(w, tenant, r, 0, true);
            && t.created == w.created && t.reconcilers[r].phase.Idle? && !Answered(t.reconcilers[r].work, name, image)
  {
    var rec := w.reconcilers[r];
    if rec.phase.Reading? && rec.phase.finished {
      var s := Outcome(rec.phase.entry, rec.phase.image, 0, NoReport);
      if rec.phase.entry == name { ReplacedNotAnswered(rec.work, s, image); }
      else { OtherEntriesLeaveAnswer(rec.work, name, image, s); }
    }
  }

  lemma ReplacedNotAnswered(studies: seq<Study>, s: Study, image: string)
    requires NamesUnique(studies) && s.image != image
    ensures !Answered(Upsert(studies, s), s.name, image)
  {
    var t := Upsert(studies, s);
    var at := IndexOf(studies, s.name);
    forall i | 0 <= i < |t| ensures !Answers(t[i], s.name, image) {
      if i != if at.Some? then at.value else |studies| { assert t[i] == studies[i] && studies[i].name != s.name; }
    }
  }

  /** The Job that was read turns out not to pull, and that is what the pass records. */
  lemma PullFails(tenant: string, w: World, r: nat, now: int) returns (steps: seq<Step>, body: Body)
    requires r in w.reconcilers && w.reconcilers[r].phase.Reading? && !w.reconcilers[r].phase.finished
    ensures forall s :: s in steps ==> !s.Get?
    ensures var rec, t := w.reconcilers[r], After(tenant, w, steps);
            && t.created == w.created && t.stored == w.stored && t.version == w.version && r in t.reconcilers
            && t.reconcilers[r] == rec.(phase := Idle,
                 work := Upsert(rec.work, Outcome(rec.phase.entry, rec.phase.image, now, body)))
  {
    var job := StudyJobName(tenant, w.reconcilers[r].phase.entry);
    steps := [ForeignJob(job, ""), PodStarts(job), PodWaits(|w.pods|, "ErrImagePull", ""), Act(r, now, false)];
    Unfold4(tenant, w, steps[0], steps[1], steps[2], steps[3]);
    var w3 := Apply(tenant, Apply(tenant, Apply(tenant, w, steps[0]), steps[1]), steps[2]);
    AStuckPod(tenant, w, job);
    ProblemIsSeen(w3.pods, |w.pods|, job);
    body := Stuck(w3.pods, job, false);
  }

  lemma AStuckPod(tenant: string, w: World, job: string)
    ensures var t := Apply(tenant, Apply(tenant, Apply(tenant, w, ForeignJob(job, "")), PodStarts(job)),
                           PodWaits(|w.pods|, "ErrImagePull", ""));
            && t.created == w.created && t.reconcilers == w.reconcilers && t.stored == w.stored && t.version == w.version
            && |t.pods| == |w.pods| + 1 && ShowsPullFailure(t.pods[|w.pods|], job)
  {
    var u := Apply(tenant, w, ForeignJob(job, ""));
    assert Apply(tenant, u, PodStarts(job)).pods == w.pods + [Pod(job, u.jobs[job].uid, u.jobs[job].image, None, "")];
  }

  lemma ProblemIsSeen(pods: seq<Pod>, i: nat, job: string)
    requires |pods| == i + 1 && ShowsPullFailure(pods[i], job)
    ensures PullProblem(pods, job).Some?
  {
  }

  /** The exact condition: an answered entry can be studied again, without being repointed, just when
      some pass in flight does not know. */
  lemma NoFurtherJobIff(tenant: string, w: World, name: string, image: string)
    requires image != "" && Answered(w.stored, name, image) && WellNamed(w)
    ensures (exists steps :: StudiesAgain(tenant, w, steps, name, image)) <==>
            exists r :: r in w.reconcilers && !Knows(w.reconcilers[r], name, image)
  {
    if r :| r in w.reconcilers && !Knows(w.reconcilers[r], name, image) {
      if w.reconcilers[r].phase.Creating? && w.reconcilers[r].phase.entry == name {
        var steps := CreatingStudiesAgain(tenant, w, r, name, image);
      } else {
        var first := ComesToRest(tenant, w, r, name, image);
        var next := IdleStudiesAgain(tenant, After(tenant, w, first), r, name, image);
        AfterInTwo(tenant, w, first, next);
        assert StudiesAgain(tenant, w, first + next, name, image);
      }
    } else {
      forall steps | NotRepointed(steps, name, image) ensures !StudiesAgain(tenant, w, steps, name, image) {
        NoFurtherJob(tenant, w, steps, name, image);
      }
    }
  }

  /** A pass that read the status as it is now stored, and is not about to record something else. */
  ghost predicate Holds(rec: Reconciler, study: Study) {
    HasStudy(rec.work, study) && !(rec.phase.Reading? && rec.phase.entry == study.name)
  }

  /** Passes of an older version do not matter: their write is refused. */
  ghost predicate CurrentOnesHold(w: World, study: Study) {
    && HasStudy(w.stored, study)
    && forall r :: r in w.reconcilers ==>
         w.reconcilers[r].version <= w.version
         && (w.reconcilers[r].version == w.version ==> Holds(w.reconcilers[r], study))
  }

  lemma GetHolds(tenant: string, w: World, r: nat, e: string, i: string, why: string, fails: bool, study: Study)
    requires r in w.reconcilers && w.reconcilers[r].phase.Idle? && HasStudy(w.reconcilers[r].work, study)
    requires study.studiedAt.Some? && study.image != "" && (e == study.name ==> i == study.image)
    ensures Holds(Found(w, tenant, r, e, i, why, fails).reconcilers[r], study)
  {
    var rec := w.reconcilers[r];
    if e == study.name {
      assert Answers(rec.work[IndexOf(rec.work, e).value], e, i);
    } else if i == "" {
      var at := IndexOf(rec.work, e);
      OtherEntriesLeaveStudy(rec.work, study,
        Study(e, "", None, if at.Some? then rec.work[at.value].body else Nothing, Some(why)));
    }
  }

  lemma ActHolds(tenant: string, w: World, r: nat, now: int, fails: bool, study: Study)
    requires r in w.reconcilers && Holds(w.reconcilers[r], study)
    ensures Holds(Acted(w, tenant, r, now, fails).reconcilers[r], study)
  {
    var rec := w.reconcilers[r];
    if rec.phase.Reading? {
      var job := StudyJobName(tenant, rec.phase.entry);
      var body := if rec.phase.finished then ReadBack(w.pods, job, fails) else Stuck(w.pods, job, fails);
      OtherEntriesLeaveStudy(rec.work, study, Outcome(rec.phase.entry, rec.phase.image, now, body));
    }
  }

  /** Only what reconciler r holds has changed. */
  lemma OneMovesAndHolds(w: World, t: World, r: nat, study: Study)
    requires CurrentOnesHold(w, study) && r in w.reconcilers && r in t.reconcilers
    requires t.stored == w.stored && t.version == w.version && t.reconcilers == w.reconcilers[r := t.reconcilers[r]]
    requires t.reconcilers[r].version == w.reconcilers[r].version
    requires t.reconcilers[r].version == t.version ==> Holds(t.reconcilers[r], study)
    ensures CurrentOnesHold(t, study)
  {
  }

  lemma GetKeepsStudy(tenant: string, w: World, r: nat, e: string, i: string, why: string, fails: bool, study: Study)
    requires CurrentOnesHold(w, study) && r in w.reconcilers && w.reconcilers[r].phase.Idle?
    requires study.studiedAt.Some? && study.image != "" && (e == study.name ==> i == study.image)
    ensures CurrentOnesHold(Found(w, tenant, r, e, i, why, fails), study)
  {
    if w.reconcilers[r].version == w.version { GetHolds(tenant, w, r, e, i, why, fails, study); }
    OneMovesAndHolds(w, Found(w, tenant, r, e, i, why, fails), r, study);
  }

  lemma ActKeepsStudy(tenant: string, w: World, r: nat, now: int, fails: bool, study: Study)
    requires CurrentOnesHold(w, study) && r in w.reconcilers
    ensures CurrentOnesHold(Acted(w, tenant, r, now, fails), study)
  {
    if w.reconcilers[r].version == w.version { ActHolds(tenant, w, r, now, fails, study); }
    OneMovesAndHolds(w, Acted(w, tenant, r, now, fails), r, study);
  }

  lemma StepKeepsStudy(tenant: string, w: World, s: Step, study: Study)
    requires CurrentOnesHold(w, study) && study.studiedAt.Some? && study.image != "" && StaysAt(s, study.name, study.image)
    ensures CurrentOnesHold(Apply(tenant, w, s), study)
  {
    match s
    case Get(r, e, i, why, fails) =>
      if r in w.reconcilers && w.reconcilers[r].phase.Idle? { GetKeepsStudy(tenant, w, r, e, i, why, fails, study); }
    case Act(r, now, fails) => if r in w.reconcilers { ActKeepsStudy(tenant, w, r, now, fails, study); }
    case Save(r) => if r in w.reconcilers && w.reconcilers[r].phase.Idle? { SaveHolds(w, r, study); }
    case _ => OthersHold(w, Apply(tenant, w, s), study);
  }

  lemma SaveHolds(w: World, r: nat, study: Study)
    requires CurrentOnesHold(w, study) && r in w.reconcilers
    ensures CurrentOnesHold(Saved(w, r), study)
  {
  }

  lemma OthersHold(w: World, t: World, study: Study)
    requires CurrentOnesHold(w, study) && t.stored == w.stored && t.version >= w.version
    requires forall r :: r in t.reconcilers ==>
               (r in w.reconcilers && t.reconcilers[r] == w.reconcilers[r])
               || t.reconcilers[r] == Reconciler(w.stored, w.version, Idle)
    ensures CurrentOnesHold(t, study)
  {
  }

  /** And its stored study stays exactly as it is, whatever passes of older versions are in flight. */
  lemma {:induction false} AnsweredUntilRepointed(tenant: string, w: World, steps: seq<Step>, study: Study)
    requires CurrentOnesHold(w, study) && study.studiedAt.Some? && study.image != ""
    requires NotRepointed(steps, study.name, study.image)
    ensures HasStudy(After(tenant, w, steps).stored, study)
    ensures CurrentOnesHold(After(tenant, w, steps), study)
  {
    if steps != [] {
      var before := steps[..|steps| - 1];
      assert forall s :: s in before ==> s in steps;
      AnsweredUntilRepointed(tenant, w, before, study);
      StepKeepsStudy(tenant, After(tenant, w, before), steps[|steps| - 1], study);
    }
  }

  ghost predicate Overwrites(tenant: string, w: World, steps: seq<Step>, study: Study) {
    NotRepointed(steps, study.name, study.image) && !HasStudy(After(tenant, w, steps).stored, study)
  }

  lemma OneStudyPerName(studies: seq<Study>, s: Study, other: Study)
    requires other.name == s.name && other != s
    ensures !HasStudy(Upsert(studies, other), s)
  {
    UpsertHas(studies, other);
  }

  lemma OtherEntriesBringNoStudy(studies: seq<Study>, s: Study, other: Study)
    requires !HasStudy(studies, s) && other.name != s.name
    ensures !HasStudy(Upsert(studies, other), s)
  {
    var t, i := Upsert(studies, other), IndexOf(studies, s.name);
    if HasStudy(t, s) {
      var k := IndexOf(t, s.name).value;
      assert k < |studies| && t[k] == studies[k];
      forall j | 0 <= j < k ensures studies[j].name != s.name { assert t[j].name == studies[j].name; }
      FirstIs(studies, s.name, k);
    }
  }

  /** A pass that does not hold the study comes to rest without it. */
  lemma RestsWithoutIt(tenant: string, w: World, r: nat, study: Study) returns (steps: seq<Step>)
    requires r in w.reconcilers && !Holds(w.reconcilers[r], study) && study.studiedAt.Some?
    ensures forall s :: s in steps ==> !s.Get?
    ensures var t := After(tenant, w, steps);
            && t.version == w.version && r in t.reconcilers && t.reconcilers[r].phase.Idle?
            && t.reconcilers[r].version == w.reconcilers[r].version && !HasStudy(t.reconcilers[r].work, study)
  {
    var rec, now := w.reconcilers[r], study.studiedAt.value + 1;
    if rec.phase.Reading? && rec.phase.entry == study.name && !rec.phase.finished {
      var body;
      steps, body := PullFails(tenant, w, r, now);
      OneStudyPerName(rec.work, study, Outcome(study.name, rec.phase.image, now, body));
    } else {
      steps := [Act(r, now, true)];
      AfterOneMore(tenant, w, [], Act(r, now, true));
      FailedActLoses(tenant, w, r, now, study);
    }
  }

  lemma FailedActLoses(tenant: string, w: World, r: nat, now: int, study: Study)
    requires r in w.reconcilers && !Holds(w.reconcilers[r], study) && study.studiedAt.Some? && now != study.studiedAt.value
    requires !(w.reconcilers[r].phase.Reading? && w.reconcilers[r].phase.entry == study.name && !w.reconcilers[r].phase.finished)
    ensures var t := Acted(w, tenant, r, now, true);
            && t.version == w.version && t.reconcilers[r].phase.Idle?
            && t.reconcilers[r].version == w.reconcilers[r].version && !HasStudy(t.reconcilers[r].work, study)
  {
    var rec := w.reconcilers[r];
    if rec.phase.Reading? && rec.phase.finished {
      var other := Outcome(rec.phase.entry, rec.phase.image, now, NoReport);
      if rec.phase.entry == study.name { OneStudyPerName(rec.work, study, other); }
      else { OtherEntriesBringNoStudy(rec.work, study, other); }
    }
  }

  /** The exact condition: an answered entry's stored study can change, without the entry being repointed,
      just when some pass in flight that read the present version does not hold it. */
  lemma StudyStandsIff(tenant: string, w: World, study: Study)
    requires study.studiedAt.Some? && study.image != "" && HasStudy(w.stored, study) && WellNamed(w)
    ensures (exists steps :: Overwrites(tenant, w, steps, study)) <==>
            exists r :: r in w.reconcilers && w.reconcilers[r].version == w.version && !Holds(w.reconcilers[r], study)
  {
    if r :| r in w.reconcilers && w.reconcilers[r].version == w.version && !Holds(w.reconcilers[r], study) {
      var first := RestsWithoutIt(tenant, w, r, study);
      AfterOneMore(tenant, w, first, Save(r));
      assert Overwrites(tenant, w, first + [Save(r)], study);
    } else {
      forall steps | NotRepointed(steps, study.name, study.image) ensures !Overwrites(tenant, w, steps, study) {
        AnsweredUntilRepointed(tenant, w, steps, study);
      }
    }
  }

  // ------------------------------------------------------------------ and it does get studied

  /** Nothing fails, and nobody but reconciler r handles the entry or its Job. */
  predicate Calm(tenant: string, s: Step, r: nat, entry: string, image: string) {
    match s
    case Get(q, e, i, _, fails) => e == entry ==> q == r && i == image && !fails
    case Act(q, _, fails) => q == r ==> !fails
    case ForeignJob(job, _) => job != StudyJobName(tenant, entry)
    case JobGone(job) => job != StudyJobName(tenant, entry)
    case _ => true
  }

  ghost predicate AllCalm(tenant: string, steps: seq<Step>, r: nat, entry: string, image: string) {
    forall s :: s in steps ==> Calm(tenant, s, r, entry, image)
  }

  /** How far the entry's Job has got: one of another image, none, under way, finished. */
  function Stage(tenant: string, w: World, entry: string, image: string): nat {
    var name := StudyJobName(tenant, entry);
    if name !in w.jobs then 1
    else if w.jobs[name].annotation != image then 0
    else if !IsFinished(w.jobs[name]) then 2
    else 3
  }

  /** What r found of the entry's Job is still so, and nobody else is about to touch it. */
  ghost predicate Undisturbed(tenant: string, w: World, r: nat, entry: string, image: string) {
    forall q :: q in w.reconcilers && About(w.reconcilers[q].phase, entry) ==>
      q == r && match w.reconcilers[q].phase
                case Creating(_, i) => i == image && Stage(tenant, w, entry, image) == 1
                case Deleting(_) => Stage(tenant, w, entry, image) == 0
                case Reading(_, i, _, finished) =>
                  i == image && Stage(tenant, w, entry, image) >= if finished then 3 else 2
                case Idle => true
  }

  function Counted(tenant: string, w: World, entry: string, image: string): int {
    CreatedFor(w.created, entry) - if Stage(tenant, w, entry, image) >= 2 then 1 else 0
  }

  lemma CalmCreates(tenant: string, w: World, q: nat, fails: bool, r: nat, entry: string, image: string)
    requires Undisturbed(tenant, w, r, entry, image) && q in w.reconcilers && w.reconcilers[q].phase.Creating?
    ensures var t := Acted(w, tenant, q, 0, fails);
            && Undisturbed(tenant, t, r, entry, image)
            && Stage(tenant, t, entry, image) >= Stage(tenant, w, entry, image)
            && Counted(tenant, t, entry, image) <= Counted(tenant, w, entry, image)
  {
    var p := w.reconcilers[q].phase;
    JobNameIsTheEntrys(tenant, p.entry, entry);
    OneMoreCreated(w.created, p.entry, p.image, entry);
    if p.entry != entry { CalmOtherStep(tenant, w, Acted(w, tenant, q, 0, fails), r, entry, image); }
  }

  lemma CalmDeletes(tenant: string, w: World, q: nat, fails: bool, r: nat, entry: string, image: string)
    requires Undisturbed(tenant, w, r, entry, image) && q in w.reconcilers && w.reconcilers[q].phase.Deleting?
    ensures var t := Acted(w, tenant, q, 0, fails);
            && Undisturbed(tenant, t, r, entry, image)
            && Stage(tenant, t, entry, image) >= Stage(tenant, w, entry, image)
            && Counted(tenant, t, entry, image) <= Counted(tenant, w, entry, image)
  {
    JobNameIsTheEntrys(tenant, w.reconcilers[q].phase.entry, entry);
    if w.reconcilers[q].phase.entry != entry {
      CalmOtherStep(tenant, w, Acted(w, tenant, q, 0, fails), r, entry, image);
    }
  }

  lemma CalmActStep(tenant: string, w: World, q: nat, now: int, fails: bool, r: nat, entry: string, image: string)
    requires Undisturbed(tenant, w, r, entry, image) && q in w.reconcilers
    ensures var t := Acted(w, tenant, q, now, fails);
            && Undisturbed(tenant, t, r, entry, image)
            && Stage(tenant, t, entry, image) >= Stage(tenant, w, entry, image)
            && Counted(tenant, t, entry, image) <= Counted(tenant, w, entry, image)
  {
    match w.reconcilers[q].phase
    case Creating(_, _) => CalmCreates(tenant, w, q, fails, r, entry, image);
    case Deleting(_) => CalmDeletes(tenant, w, q, fails, r, entry, image);
    case Reading(_, _, _, _) => CalmOtherStep(tenant, w, Acted(w, tenant, q, now, fails), r, entry, image);
    case Idle =>
  }

  /** Reconcilers come to rest or leave, and the entry's Job is untouched or finishes. */
  lemma CalmOtherStep(tenant: string, w: World, t: World, r: nat, entry: string, image: string)
    requires Undisturbed(tenant, w, r, entry, image)
    requires forall q :: q in t.reconcilers && t.reconcilers[q].phase != Idle ==>
               q in w.reconcilers && t.reconcilers[q].phase == w.reconcilers[q].phase
    requires CreatedFor(t.created, entry) == CreatedFor(w.created, entry)
    requires var name := StudyJobName(tenant, entry);
             && (name in t.jobs <==> name in w.jobs)
             && (name in t.jobs ==> t.jobs[name].annotation == w.jobs[name].annotation
                                    && (IsFinished(w.jobs[name]) ==> IsFinished(t.jobs[name])))
    ensures Undisturbed(tenant, t, r, entry, image)
    ensures Stage(tenant, t, entry, image) >= Stage(tenant, w, entry, image)
    ensures Counted(tenant, t, entry, image) <= Counted(tenant, w, entry, image)
  {
  }

  lemma CalmStepOfNoPass(tenant: string, w: World, s: Step, r: nat, entry: string, image: string)
    requires Undisturbed(tenant, w, r, entry, image) && Calm(tenant, s, r, entry, image)
    requires !(s.Act? || s.Get?)
    ensures var t := Apply(tenant, w, s);
            && Undisturbed(tenant, t, r, entry, image)
            && Stage(tenant, t, entry, image) >= Stage(tenant, w, entry, image)
            && Counted(tenant, t, entry, image) <= Counted(tenant, w, entry, image)
  {
    CalmOtherStep(tenant, w, Apply(tenant, w, s), r, entry, image);
  }

  lemma CalmStep(tenant: string, w: World, s: Step, r: nat, entry: string, image: string)
    requires Undisturbed(tenant, w, r, entry, image) && Calm(tenant, s, r, entry, image)
    ensures var t := Apply(tenant, w, s);
            && Undisturbed(tenant, t, r, entry, image)
            && Stage(tenant, t, entry, image) >= Stage(tenant, w, entry, image)
            && Counted(tenant, t, entry, image) <= Counted(tenant, w, entry, image)
  {
    if s.Act? {
      if s.who in w.reconcilers { CalmActStep(tenant, w, s.who, s.now, s.fails, r, entry, image); }
    } else if s.Get? {
      if s.who in w.reconcilers && w.reconcilers[s.who].phase.Idle? {
      }
    } else {
      CalmStepOfNoPass(tenant, w, s, r, entry, image);
    }
  }

  lemma {:induction false} CalmRun(tenant: string, w: World, steps: seq<Step>, r: nat, entry: string, image: string)
    requires Undisturbed(tenant, w, r, entry, image) && AllCalm(tenant, steps, r, entry, image)
    ensures var t := After(tenant, w, steps);
            && Undisturbed(tenant, t, r, entry, image)
            && Stage(tenant, t, entry, image) >= Stage(tenant, w, entry, image)
            && Counted(tenant, t, entry, image) <= Counted(tenant, w, entry, image)
  {
    if steps != [] {
      var before := steps[..|steps| - 1];
      assert forall s :: s in before ==> s in steps;
      CalmRun(tenant, w, before, r, entry, image);
      CalmStep(tenant, After(tenant, w, before), steps[|steps| - 1], r, entry, image);
    }
  }

  ghost predicate NoneBy(steps: seq<Step>, r: nat) { forall s :: s in steps ==> !By(s, r) }

  lemma {:induction false} OthersLeaveReconciler(tenant: string, w: World, steps: seq<Step>, r: nat)
    requires NoneBy(steps, r)
    ensures var t := After(tenant, w, steps);
            (r in t.reconcilers <==> r in w.reconcilers) && (r in w.reconcilers ==> t.reconcilers[r] == w.reconcilers[r])
  {
    if steps != [] {
      var before := steps[..|steps| - 1];
      assert forall s :: s in before ==> s in steps;
      OthersLeaveReconciler(tenant, w, before, r);
      assert steps[|steps| - 1] in steps;
      StepLeavesReconciler(tenant, After(tenant, w, before), steps[|steps| - 1], r);
    }
  }

  lemma ActLeavesReconciler(tenant: string, w: World, q: nat, now: int, fails: bool, r: nat)
    requires q in w.reconcilers && q != r
    ensures var t := Acted(w, tenant, q, now, fails);
            (r in t.reconcilers <==> r in w.reconcilers) && (r in w.reconcilers ==> t.reconcilers[r] == w.reconcilers[r])
  {
  }

  lemma GetLeavesReconciler(tenant: string, w: World, q: nat, e: string, i: string, why: string, fails: bool, r: nat)
    requires q in w.reconcilers && q != r
    ensures var t := Found(w, tenant, q, e, i, why, fails);
            (r in t.reconcilers <==> r in w.reconcilers) && (r in w.reconcilers ==> t.reconcilers[r] == w.reconcilers[r])
  {
  }

  lemma StepLeavesReconciler(tenant: string, w: World, s: Step, r: nat)
    requires !By(s, r)
    ensures var t := Apply(tenant, w, s);
            (r in t.reconcilers <==> r in w.reconcilers) && (r in w.reconcilers ==> t.reconcilers[r] == w.reconcilers[r])
  {
    match s
    case Act(q, now, fails) => if q in w.reconcilers { ActLeavesReconciler(tenant, w, q, now, fails, r); }
    case Get(q, e, i, why, fails) =>
      if q in w.reconcilers { GetLeavesReconciler(tenant, w, q, e, i, why, fails, r); }
    case _ =>
  }

  /** A pass over the entry, with anything calm happening between its two calls. */
  function Round(r: nat, entry: string, image: string, why: string, mid: seq<Step>, now: int): seq<Step> {
    [Begin(r), Get(r, entry, image, why, false)] + mid + [Act(r, now, false)]
  }

  ghost predicate HasAnswer(w: World, r: nat, entry: string, image: string) {
    r in w.reconcilers && Answered(w.reconcilers[r].work, entry, image)
  }

  /** Every pass brings the entry's Job one stage further, or, once it has finished, the answer. */
  lemma RoundAdvances(
    tenant: string, w: World, r: nat, entry: string, image: string, why: string, mid: seq<Step>, now: int)
    requires Undisturbed(tenant, w, r, entry, image) && image != ""
    requires AllCalm(tenant, mid, r, entry, image) && NoneBy(mid, r)
    ensures var t := After(tenant, w, Round(r, entry, image, why, mid, now));
            && Undisturbed(tenant, t, r, entry, image)
            && Counted(tenant, t, entry, image) <= Counted(tenant, w, entry, image)
            && Stage(tenant, t, entry, image) >= Stage(tenant, w, entry, image)
            && (HasAnswer(t, r, entry, image) || Stage(tenant, w, entry, image) == 2
                || Stage(tenant, t, entry, image) > Stage(tenant, w, entry, image))
  {
    var start: seq<Step> := [Begin(r), Get(r, entry, image, why, false)];
    var w1 := After(tenant, w, start);
    RoundStarts(tenant, w, r, entry, image, why);
    var w2 := After(tenant, w1, mid);
    CalmRun(tenant, w1, mid, r, entry, image);
    OthersLeaveReconciler(tenant, w1, mid, r);
    CalmActStep(tenant, w2, r, now, false, r, entry, image);
    ActAdvances(tenant, w2, r, entry, image, now);
    AfterInTwo(tenant, w, start, mid);
    AfterOneMore(tenant, w, start + mid, Act(r, now, false));
  }

  lemma RoundStarts(tenant: string, w: World, r: nat, entry: string, image: string, why: string)
    requires Undisturbed(tenant, w, r, entry, image) && image != ""
    ensures var t := After(tenant, w, [Begin(r), Get(r, entry, image, why, false)]);
            && Undisturbed(tenant, t, r, entry, image) && r in t.reconcilers
            && t.jobs == w.jobs && t.created == w.created
            && t.reconcilers[r].phase == (if Answered(w.stored, entry, image) then Idle else Looked(tenant, w, entry, image))
            && (Answered(w.stored, entry, image) ==> HasAnswer(t, r, entry, image))
  {
    var u := Apply(tenant, w, Begin(r));
    CalmStep(tenant, w, Begin(r), r, entry, image);
    AfterOneMore(tenant, w, [], Begin(r));
    AfterOneMore(tenant, w, [Begin(r)], Get(r, entry, image, why, false));
    assert [Begin(r), Get(r, entry, image, why, false)] == [Begin(r)] + [Get(r, entry, image, why, false)];
  }

  /** What a look at the entry's Job decides. */
  function Looked(tenant: string, w: World, entry: string, image: string): Phase {
    var name := StudyJobName(tenant, entry);
    if name !in w.jobs then Creating(entry, image)
    else if w.jobs[name].annotation != image then Deleting(entry)
    else Reading(entry, image, w.jobs[name].uid, IsFinished(w.jobs[name]))
  }

  lemma ActAdvances(tenant: string, w: World, r: nat, entry: string, image: string, now: int)
    requires Undisturbed(tenant, w, r, entry, image) && r in w.reconcilers
    requires About(w.reconcilers[r].phase, entry) || (w.reconcilers[r].phase.Idle? && HasAnswer(w, r, entry, image))
    ensures var t := Acted(w, tenant, r, now, false);
            && (HasAnswer(t, r, entry, image)
                || (w.reconcilers[r].phase.Reading? && !w.reconcilers[r].phase.finished)
                || Stage(tenant, t, entry, image) > Stage(tenant, w, entry, image))
  {
    var rec := w.reconcilers[r];
    if rec.phase.Reading? && rec.phase.finished {
      UpsertAnswers(rec.work, Outcome(entry, image, now, ReadBack(w.pods, StudyJobName(tenant, entry), false)));
    }
  }

  /** A round leaves its reconciler at rest, with the version it began at. */
  lemma RoundEnds(tenant: string, w: World, r: nat, entry: string, image: string, why: string, mid: seq<Step>, now: int)
    requires NoneBy(mid, r)
    ensures var t := After(tenant, w, Round(r, entry, image, why, mid, now));
            r in t.reconcilers && t.reconcilers[r].phase.Idle? && t.reconcilers[r].version == w.version
  {
    var start: seq<Step> := [Begin(r), Get(r, entry, image, why, false)];
    var w1 := After(tenant, w, start);
    AfterOneMore(tenant, w, [], Begin(r));
    AfterOneMore(tenant, w, [Begin(r)], Get(r, entry, image, why, false));
    assert start == [Begin(r)] + [Get(r, entry, image, why, false)];
    GetKeepsVersion(tenant, Apply(tenant, w, Begin(r)), r, entry, image, why);
    OthersLeaveReconciler(tenant, w1, mid, r);
    AfterInTwo(tenant, w, start, mid);
    AfterOneMore(tenant, w, start + mid, Act(r, now, false));
    ActRests(tenant, After(tenant, w1, mid), r, now);
  }

  lemma GetKeepsVersion(tenant: string, w: World, r: nat, entry: string, image: string, why: string)
    requires r in w.reconcilers
    ensures var t := Apply(tenant, w, Get(r, entry, image, why, false));
            && t.reconcilers.Keys == w.reconcilers.Keys
            && t.reconcilers[r].version == w.reconcilers[r].version
  {
  }

  lemma ActRests(tenant: string, w: World, r: nat, now: int)
    requires r in w.reconcilers
    ensures var t := Acted(w, tenant, r, now, false);
            && t.reconcilers.Keys == w.reconcilers.Keys
            && t.reconcilers[r].phase.Idle? && t.reconcilers[r].version == w.reconcilers[r].version
  {
  }

  /** A round and the write at its end. */
  function Visit(r: nat, entry: string, image: string, why: string, mid: seq<Step>, now: int): seq<Step> {
    Round(r, entry, image, why, mid, now) + [Save(r)]
  }

  /** The visit finds the answer, or brings it; and it is in the stored status after the visit's write,
      unless somebody has written the tenant during the visit, and the write is refused. */
  ghost predicate Answering(
    tenant: string, w: World, r: nat, entry: string, image: string, why: string, mid: seq<Step>, now: int)
  {
    var t := After(tenant, w, Round(r, entry, image, why, mid, now));
    && HasAnswer(t, r, entry, image)
    && (t.version == w.version ==> Answered(After(tenant, w, Visit(r, entry, image, why, mid, now)).stored, entry, image))
  }

  lemma VisitAdvances(
    tenant: string, w: World, r: nat, entry: string, image: string, why: string, mid: seq<Step>, now: int)
    requires Undisturbed(tenant, w, r, entry, image) && image != ""
    requires AllCalm(tenant, mid, r, entry, image) && NoneBy(mid, r)
    ensures var t := After(tenant, w, Visit(r, entry, image, why, mid, now));
            && Undisturbed(tenant, t, r, entry, image)
            && Counted(tenant, t, entry, image) <= Counted(tenant, w, entry, image)
            && Stage(tenant, t, entry, image) >= Stage(tenant, w, entry, image)
            && (Answering(tenant, w, r, entry, image, why, mid, now) || Stage(tenant, w, entry, image) == 2
                || Stage(tenant, t, entry, image) > Stage(tenant, w, entry, image))
  {
    var round := Round(r, entry, image, why, mid, now);
    var u := After(tenant, w, round);
    RoundAdvances(tenant, w, r, entry, image, why, mid, now);
    RoundEnds(tenant, w, r, entry, image, why, mid, now);
    AfterOneMore(tenant, w, round, Save(r));
    CalmStepOfNoPass(tenant, u, Save(r), r, entry, image);
  }

  /** Whatever the schedule, as long as nothing fails and nobody else handles the entry: two visits, the
      Job finishing at any moment after them, and a third visit. One of the three brings the answer into
      the stored status, unless somebody writes the tenant during that very visit; and at most one Job is
      created for the entry. */
  lemma StudyCompletes(
    tenant: string, w: World, r: nat, entry: string, image: string, why: string, now: int, ok: bool,
    mid1: seq<Step>, between: seq<Step>, mid2: seq<Step>, running: seq<Step>, done: seq<Step>, mid3: seq<Step>)
    requires image != "" && Undisturbed(tenant, w, r, entry, image)
    requires AllCalm(tenant, between, r, entry, image) && AllCalm(tenant, running, r, entry, image)
    requires AllCalm(tenant, done, r, entry, image)
    requires AllCalm(tenant, mid1, r, entry, image) && NoneBy(mid1, r)
    requires AllCalm(tenant, mid2, r, entry, image) && NoneBy(mid2, r)
    requires AllCalm(tenant, mid3, r, entry, image) && NoneBy(mid3, r)
    ensures var before2 := Visit(r, entry, image, why, mid1, now) + between;
            var before3 := before2 + Visit(r, entry, image, why, mid2, now) + running
                           + [JobFinishes(StudyJobName(tenant, entry), ok)] + done;
            var all := before3 + Visit(r, entry, image, why, mid3, now);
            && (Answering(tenant, w, r, entry, image, why, mid1, now)
                || Answering(tenant, After(tenant, w, before2), r, entry, image, why, mid2, now)
                || Answering(tenant, After(tenant, w, before3), r, entry, image, why, mid3, now))
            && CreatedFor(After(tenant, w, all).created, entry) <= CreatedFor(w.created, entry) + 1
  {
    var name := StudyJobName(tenant, entry);
    var v1, v2, v3 := Visit(r, entry, image, why, mid1, now), Visit(r, entry, image, why, mid2, now), Visit(r, entry, image, why, mid3, now);
    var w1 := After(tenant, w, v1);
    VisitAdvances(tenant, w, r, entry, image, why, mid1, now);
    var w2 := After(tenant, w1, between);
    CalmRun(tenant, w1, between, r, entry, image);
    AfterInTwo(tenant, w, v1, between);
    var w3 := After(tenant, w2, v2);
    VisitAdvances(tenant, w2, r, entry, image, why, mid2, now);
    AfterInTwo(tenant, w, v1 + between, v2);
    var w4 := After(tenant, w3, running);
    CalmRun(tenant, w3, running, r, entry, image);
    AfterInTwo(tenant, w, v1 + between + v2, running);
    var w5 := Apply(tenant, w4, JobFinishes(name, ok));
    CalmStep(tenant, w4, JobFinishes(name, ok), r, entry, image);
    AfterOneMore(tenant, w, v1 + between + v2 + running, JobFinishes(name, ok));
    var w6 := After(tenant, w5, done);
    CalmRun(tenant, w5, done, r, entry, image);
    AfterInTwo(tenant, w, v1 + between + v2 + running + [JobFinishes(name, ok)], done);
    VisitAdvances(tenant, w6, r, entry, image, why, mid3, now);
    AfterInTwo(tenant, w, v1 + between + v2 + running + [JobFinishes(name, ok)] + done, v3);
  }

  // ------------------------------------------------------------------ reading the report

  /** A finished Job's report is recorded by the pass that looks the Job up, whatever others do between
      its two calls, just when its list does not fail. */
  lemma ReportIsRecordedIff(
    tenant: string, w: World, r: nat, entry: string, image: string, why: string, mid: seq<Step>, now: int, fails: bool)
    requires r in w.reconcilers && w.reconcilers[r].phase.Idle? && image != "" && NoneBy(mid, r)
    requires !Answered(w.reconcilers[r].work, entry, image) && StudyJobName(tenant, entry) in w.jobs
    requires var job := w.jobs[StudyJobName(tenant, entry)]; job.annotation == image && IsFinished(job)
    requires StudyMessage(After(tenant, Found(w, tenant, r, entry, image, why, false), mid).pods, StudyJobName(tenant, entry)) != ""
    ensures var t := After(tenant, Found(w, tenant, r, entry, image, why, false), mid);
            var m := StudyMessage(t.pods, StudyJobName(tenant, entry));
            r in t.reconcilers &&
            (HasStudy(Acted(t, tenant, r, now, fails).reconcilers[r].work, Outcome(entry, image, now, Report(m))) <==> !fails)
  {
    var u := Found(w, tenant, r, entry, image, why, false);
    var t := After(tenant, u, mid);
    var name, work := StudyJobName(tenant, entry), w.reconcilers[r].work;
    OthersLeaveReconciler(tenant, u, mid, r);
    assert t.reconcilers[r].phase == Reading(entry, image, w.jobs[name].uid, true);
    var body := ReadBack(t.pods, name, fails);
    assert Acted(t, tenant, r, now, fails).reconcilers[r].work == Upsert(work, Outcome(entry, image, now, body));
    RecordedIff(work, entry, image, now, body, Report(StudyMessage(t.pods, name)));
  }

  lemma RecordedIff(work: seq<Study>, entry: string, image: string, now: int, body: Body, other: Body)
    ensures HasStudy(Upsert(work, Outcome(entry, image, now, body)), Outcome(entry, image, now, other)) <==> body == other
  {
    UpsertHas(work, Outcome(entry, image, now, body));
  }

  /** When it does fail, "no report" is recorded, and that answers the entry: the same pass looks no
      further, and once it is stored neither does any other. */
  lemma FailedListIsFinal(tenant: string, w: World, r: nat, now: int, why: string, fails: bool)
    requires r in w.reconcilers && w.reconcilers[r].phase.Reading? && w.reconcilers[r].phase.finished
    requires w.reconcilers[r].phase.image != ""
    ensures var p, t := w.reconcilers[r].phase, Acted(w, tenant, r, now, true);
            && HasStudy(t.reconcilers[r].work, Outcome(p.entry, p.image, now, NoReport))
            && Found(t, tenant, r, p.entry, p.image, why, fails) == t
            && (t.reconcilers[r].version == t.version ==> Answered(Saved(t, r).stored, p.entry, p.image))
  {
    var rec := w.reconcilers[r];
    UpsertHas(rec.work, Outcome(rec.phase.entry, rec.phase.image, now, NoReport));
    UpsertAnswers(rec.work, Outcome(rec.phase.entry, rec.phase.image, now, NoReport));
  }

  // ------------------------------------------------------------------ failures to pull

  /** The pod at i is the first of the Job whose container waits for one of the three reasons that mean
      its image cannot be pulled. */
  ghost predicate FirstUnpullable(pods: seq<Pod>, job: string, i: nat) {
    && i < |pods| && Unpullable(pods[i], job)
    && forall j :: 0 <= j < i ==> !Unpullable(pods[j], job)
  }

  predicate Unpullable(p: Pod, job: string) {
    && p.jobName == job && p.waiting.Some?
    && (|| p.waiting.value.0 == "ImagePullBackOff"
        || p.waiting.value.0 == "ErrImagePull"
        || p.waiting.value.0 == "InvalidImageName")
  }

  /** What is kept of a message: what comes before its first newline, and of that the first 160 and an
      ellipsis when there is more. */
  ghost predicate IsCut(message: string, detail: string) {
    exists n :: 0 <= n <= |message| && '\n' !in message[..n] && (n < |message| ==> message[n] == '\n')
      && detail == if n <= 160 then message[..n] else message[..160] + ['\U{2026}']
  }

  lemma {:induction false} LineEnds(s: string)
    ensures Line(s) <= s && '\n' !in Line(s) && (|Line(s)| < |s| ==> s[|Line(s)|] == '\n')
  {
    if s != "" && s[0] != '\n' { LineEnds(s[1..]); }
  }

  lemma MessagesAreCut(s: string)
    ensures IsCut(s, FirstLine(s))
  {
    LineEnds(s);
    var n := |Line(s)|;
    assert s[..n] == Line(s);
    if n > 160 { assert s[..160] == Line(s)[..160]; }
  }

  lemma {:induction false} ProblemIsTheFirst(pods: seq<Pod>, job: string, i: nat)
    requires FirstUnpullable(pods, job, i)
    ensures PullProblem(pods, job) == Some((pods[i].waiting.value.0, FirstLine(pods[i].waiting.value.1)))
  {
    var n := |pods| - 1;
    if i < n {
      ProblemIsTheFirst(pods[..n], job, i);
    } else {
      NoProblem(pods[..n], job);
    }
  }

  lemma {:induction false} NoProblem(pods: seq<Pod>, job: string)
    requires forall i :: 0 <= i < |pods| ==> !Unpullable(pods[i], job)
    ensures PullProblem(pods, job).None?
  {
    if pods != [] { NoProblem(pods[..|pods| - 1], job); }
  }

  lemma {:induction false} SomeFirst(pods: seq<Pod>, job: string) returns (i: nat)
    requires exists j :: 0 <= j < |pods| && Unpullable(pods[j], job)
    ensures FirstUnpullable(pods, job, i)
  {
    var n := |pods| - 1;
    if j :| 0 <= j < n && Unpullable(pods[j], job) {
      assert pods[..n][j] == pods[j];
      i := SomeFirst(pods[..n], job);
      assert forall j :: 0 <= j < i ==> pods[..n][j] == pods[j];
    } else {
      i := n;
    }
  }

  /** A pass that found its Job still under way records that the image could not be pulled just when its
      list works and some pod of the Job waits for one of the three reasons; it records the reason of the
      first such pod, its message cut, and dates it. Otherwise it records nothing. */
  lemma PullFailureIsRecordedIff(tenant: string, w: World, r: nat, now: int, fails: bool)
    requires r in w.reconcilers && w.reconcilers[r].phase.Reading? && !w.reconcilers[r].phase.finished
    ensures var p, work := w.reconcilers[r].phase, Acted(w, tenant, r, now, fails).reconcilers[r].work;
            var name := StudyJobName(tenant, p.entry);
            if !fails && exists i :: 0 <= i < |w.pods| && Unpullable(w.pods[i], name) then
              exists i: nat, detail :: FirstUnpullable(w.pods, name, i) && IsCut(w.pods[i].waiting.value.1, detail)
                && work == Upsert(w.reconcilers[r].work,
                                  Study(p.entry, p.image, Some(now), CouldNotPull(w.pods[i].waiting.value.0, detail), None))
            else work == w.reconcilers[r].work
  {
    var p := w.reconcilers[r].phase;
    var name := StudyJobName(tenant, p.entry);
    if !fails && exists i :: 0 <= i < |w.pods| && Unpullable(w.pods[i], name) {
      var i := SomeFirst(w.pods, name);
      ProblemIsTheFirst(w.pods, name, i);
      MessagesAreCut(w.pods[i].waiting.value.1);
    } else if !fails {
      NoProblem(w.pods, name);
    }
  }

  // ------------------------------------------------------------------ a failure to pull is final too

  lemma PassLeavesNobody(tenant: string, w: World, r: nat, entry: string, image: string, now: int)
    requires w.reconcilers == map[]
    ensures After(tenant, w, Pass(r, entry, image, now)).reconcilers == map[]
  {
    PassUnfolds(tenant, w, r, entry, image, now);
    var u := Apply(tenant, w, Begin(r));
    GetKeepsVersion(tenant, u, r, entry, image, "");
    var v := Apply(tenant, u, Get(r, entry, image, "", false));
    ActRests(tenant, v, r, now);
    SaveLeavesNobody(Acted(v, tenant, r, now, false), r);
  }

  lemma SaveLeavesNobody(w: World, r: nat)
    requires r in w.reconcilers && w.reconcilers.Keys == {r}
    ensures Saved(w, r).reconcilers == map[]
  {
    assert (w.reconcilers - {r}).Keys == {};
  }

  lemma PassSticks(tenant: string, w: World, r: nat, entry: string, image: string, now: int)
    requires var name := StudyJobName(tenant, entry);
             && image != "" && !Answered(w.stored, entry, image)
             && name in w.jobs && w.jobs[name].annotation == image && !IsFinished(w.jobs[name])
             && PullProblem(w.pods, name).Some?
    ensures var problem := PullProblem(w.pods, StudyJobName(tenant, entry)).value;
            ViewOf(After(tenant, w, Pass(r, entry, image, now))) ==
            ViewOf(w).(stored := Upsert(w.stored, Outcome(entry, image, now, CouldNotPull(problem.0, problem.1))))
  {
    PassUnfolds(tenant, w, r, entry, image, now);
  }

  /** The entry's Job is created, and its pod waits for its image once. */
  lemma PullFailsOnce(tenant: string, entry: string, image: string, now: int) returns (steps: seq<Step>, t: World)
    requires image != ""
    ensures t == After(tenant, EMPTY, steps) && t.reconcilers == map[]
    ensures var name := StudyJobName(tenant, entry);
            ObjectsOf(t) == Objects(map[name := Job(0, image, image, 0, 0)],
                                    [Pod(name, 0, image, Some(("ErrImagePull", "")), "")], 1) && t.stored == []
  {
    var name := StudyJobName(tenant, entry);
    var first := Pass(0, entry, image, now);
    PassCreates(tenant, EMPTY, 0, entry, image, now);
    PassLeavesNobody(tenant, EMPTY, 0, entry, image, now);
    var w := After(tenant, EMPTY, first);
    var u := Apply(tenant, w, PodStarts(name));
    assert u.pods == [Pod(name, 0, image, None, "")];
    AfterOneMore(tenant, EMPTY, first, PodStarts(name));
    AfterOneMore(tenant, EMPTY, first + [PodStarts(name)], PodWaits(0, "ErrImagePull", ""));
    steps := first + [PodStarts(name)] + [PodWaits(0, "ErrImagePull", "")];
    t := After(tenant, EMPTY, steps);
  }

  /** The pass after that failure records it, with a date, and ends. */
  lemma PullFailureIsStored(tenant: string, entry: string, image: string, now: int)
    returns (steps: seq<Step>, t: World)
    requires image != ""
    ensures t == After(tenant, EMPTY, steps) && t.reconcilers == map[]
    ensures var name := StudyJobName(tenant, entry);
            ObjectsOf(t) == Objects(map[name := Job(0, image, image, 0, 0)],
                                    [Pod(name, 0, image, Some(("ErrImagePull", "")), "")], 1)
            && t.stored == [Outcome(entry, image, now, CouldNotPull("ErrImagePull", ""))]
  {
    var first, w := PullFailsOnce(tenant, entry, image, now);
    OnlyStuckPod(w.pods[0]);
    PassSticks(tenant, w, 0, entry, image, now);
    PassLeavesNobody(tenant, w, 0, entry, image, now);
    AfterInTwo(tenant, EMPTY, first, Pass(0, entry, image, now));
    steps := first + Pass(0, entry, image, now);
    t := After(tenant, w, Pass(0, entry, image, now));
  }

  /** One failure to pull, which the kubelet retries, is recorded with a date. The Job then finishes and
      its pod holds a report, and that report is never read: whatever happens next, the entry's study stays
      "could not be pulled" until the entry is repointed. */
  lemma PullFailureIsFinal(tenant: string, entry: string, image: string, now: int, report: string, more: seq<Step>)
    returns (steps: seq<Step>)
    requires image != "" && report != "" && NotRepointed(more, entry, image)
    ensures var name, t := StudyJobName(tenant, entry), After(tenant, EMPTY, steps);
            && name in t.jobs && t.jobs[name].annotation == image && t.jobs[name].succeeded > 0
            && StudyMessage(t.pods, name) == report
            && HasStudy(After(tenant, EMPTY, steps + more).stored, Outcome(entry, image, now, CouldNotPull("ErrImagePull", "")))
  {
    var first, w := PullFailureIsStored(tenant, entry, image, now);
    var rest, t := TheJobFinishesAfterAll(tenant, w, entry, image, report);
    AfterInTwo(tenant, EMPTY, first, rest);
    steps := first + rest;
    AfterInTwo(tenant, EMPTY, steps, more);
    FirstIs(t.stored, entry, 0);
    AnsweredUntilRepointed(tenant, t, more, t.stored[0]);
  }

  lemma TheJobFinishesAfterAll(tenant: string, w: World, entry: string, image: string, report: string)
    returns (steps: seq<Step>, t: World)
    requires var name := StudyJobName(tenant, entry);
             ObjectsOf(w) == Objects(map[name := Job(0, image, image, 0, 0)],
                                     [Pod(name, 0, image, Some(("ErrImagePull", "")), "")], 1)
    ensures t == After(tenant, w, steps) && t.stored == w.stored && t.reconcilers == w.reconcilers
    ensures var name := StudyJobName(tenant, entry);
            && name in t.jobs && t.jobs[name].annotation == image && t.jobs[name].succeeded > 0
            && StudyMessage(t.pods, name) == report
  {
    var name := StudyJobName(tenant, entry);
    var u := Apply(tenant, w, PodTerminates(0, report));
    assert u.pods == [Pod(name, 0, image, None, report)];
    OnlyPod(u.pods[0]);
    AfterOneMore(tenant, w, [], PodTerminates(0, report));
    AfterOneMore(tenant, w, [PodTerminates(0, report)], JobFinishes(name, true));
    steps := [PodTerminates(0, report)] + [JobFinishes(name, true)];
    t := After(tenant, w, steps);
  }

  lemma OnlyStuckPod(p: Pod)
    requires p.waiting == Some(("ErrImagePull", ""))
    ensures PullProblem([p], p.jobName) == Some(("ErrImagePull", ""))
  {
    assert [p][..0] == [];
  }

  /** An entry that resolves to nothing any more loses its study's image, date and findings, and
      keeps the rest of what the earlier image's Job came to, its failure included. */
  lemma PendingKeepsTheOldOutcome(tenant: string, w: World, r: nat, s: Study, why: string, fails: bool)
    requires r in w.reconcilers && HasStudy(w.reconcilers[r].work, s)
    ensures HasStudy(Found(w, tenant, r, s.name, "", why, fails).reconcilers[r].work,
                     Study(s.name, "", None, s.body, Some(why)))
  {
    UpsertHas(w.reconcilers[r].work, Study(s.name, "", None, s.body, Some(why)));
  }

  // ------------------------------------------------------------------ names across tenants

  lemma OverlapSplits(t: string, u: string, e: string, f: string)
    requires StudyJobName(t, e) == StudyJobName(u, f) && |t| < |u|
    ensures t + "-" <= u && e == u[|t| + 1..] + "-" + f
  {
    var n := |"study-"|;
    var s := StudyJobName(t, e);
    assert s[n..] == t + "-" + e == u + "-" + f;
    var p := s[n..];
    assert p[..|t| + 1] == t + "-" && p[..|u|] == u;
    assert p[|t| + 1..] == e && p[|t| + 1..] == u[|t| + 1..] + "-" + f;
  }

  lemma OverlapMeets(t: string, u: string, f: string)
    requires t + "-" <= u
    ensures StudyJobName(t, u[|t| + 1..] + "-" + f) == StudyJobName(u, f)
  {
    assert u == t + "-" + u[|t| + 1..];
  }

  lemma SameLengthSameTenant(t: string, u: string, e: string, f: string)
    requires StudyJobName(t, e) == StudyJobName(u, f) && |t| == |u|
    ensures t == u
  {
    var n := |"study-"|;
    assert StudyJobName(t, e)[n..][..|t|] == t && StudyJobName(u, f)[n..][..|u|] == u;
  }

  /** Two tenants can share a Job name just when one's name goes on from the other's with a dash. */
  lemma JobNamesAcrossTenants(t: string, u: string)
    requires t != u
    ensures (exists e, f :: StudyJobName(t, e) == StudyJobName(u, f)) <==> t + "-" <= u || u + "-" <= t
  {
    if e, f :| StudyJobName(t, e) == StudyJobName(u, f) {
      if |t| < |u| { OverlapSplits(t, u, e, f); }
      else if |u| < |t| { OverlapSplits(u, t, f, e); }
      else { SameLengthSameTenant(t, u, e, f); }
    }
    if t + "-" <= u { OverlapMeets(t, u, "x"); }
    if u + "-" <= t { OverlapMeets(u, t, "x"); }
  }

  predicate LowerAlnum(c: char) { 'a' <= c <= 'z' || '0' <= c <= '9' }

  /** The names the schema admits for a catalogue entry. */
  predicate EntryName(e: string) {
    && 1 <= |e| <= 63 && LowerAlnum(e[0]) && LowerAlnum(e[|e| - 1])
    && forall c :: c in e ==> LowerAlnum(c) || c == '-' || c == '.'
  }

  /** What must follow the dash for an entry name to be able to carry it. */
  predicate EntryHead(s: string) {
    1 <= |s| <= 61 && LowerAlnum(s[0]) && forall c :: c in s ==> LowerAlnum(c) || c == '-' || c == '.'
  }

  predicate RunsInto(t: string, u: string) { t + "-" <= u && EntryHead(u[|t| + 1..]) }

  /** And with names the schema admits, just when what follows the dash can start an entry's name. */
  lemma ValidJobNamesAcrossTenants(t: string, u: string)
    requires t != u
    ensures (exists e, f :: EntryName(e) && EntryName(f) && StudyJobName(t, e) == StudyJobName(u, f)) <==>
            RunsInto(t, u) || RunsInto(u, t)
  {
    if e, f :| EntryName(e) && EntryName(f) && StudyJobName(t, e) == StudyJobName(u, f) {
      if |t| < |u| { OverlapSplits(t, u, e, f); }
      else if |u| < |t| { OverlapSplits(u, t, f, e); }
      else { SameLengthSameTenant(t, u, e, f); }
    }
    if RunsInto(t, u) { RunsIntoMeets(t, u); }
    if RunsInto(u, t) { RunsIntoMeets(u, t); }
  }

  lemma RunsIntoMeets(t: string, u: string)
    requires RunsInto(t, u)
    ensures EntryName(u[|t| + 1..] + "-x") && EntryName("x") && StudyJobName(t, u[|t| + 1..] + "-x") == StudyJobName(u, "x")
  {
    OverlapMeets(t, u, "x");
    assert u[|t| + 1..] + "-" + "x" == u[|t| + 1..] + "-x";
  }

  /** For instance entry b-c of tenant a and entry c of tenant a-b. */
  lemma JobNamesCollide()
    ensures EntryName("b-c") && EntryName("c") && StudyJobName("a", "b-c") == StudyJobName("a-b", "c")
  {
    assert StudyJobName("a", "b-c") == "study-a-b-c" == StudyJobName("a-b", "c");
  }
}
