/** Studying catalogue images: a Job per entry, its report read back off the pod.
    Objects live in a store anybody may change between two calls, other reconcilers included. A pass
    works on a copy of the tenant's status and writes it back at the end; the server refuses the
    write when the tenant has changed since it was read. */
module ImageStudy {
  import opened Wrappers

  /** `annotation` is what the Job says it studies, `image` what its container runs. */
  datatype Job = Job(uid: nat, annotation: string, image: string, succeeded: nat, failed: nat)

  /** A pod is found by the name of its Job; it carries the uid and image of the Job it came from. */
  datatype Pod = Pod(jobName: string, jobUid: nat, image: string, waiting: Option<(string, string)>, message: string)

  /** What a reading of the Job came to. */
  datatype Body = Nothing | Report(message: string) | NoReport | CouldNotPull(reason: string, detail: string)

  /** `pending` is the reason that has replaced the findings while there is nothing to study. */
  datatype Study = Study(name: string, image: string, studiedAt: Option<int>, body: Body, pending: Option<string>)

  /** What a container or Job running an image has been seen to do. */
  datatype Evidence = Said(message: string) | Waited(reason: string, detail: string) | Finished

  // ------------------------------------------------------------------ the status list

  function IndexOf(studies: seq<Study>, name: string): (i: Option<nat>)
    ensures i.Some? ==> i.value < |studies| && studies[i.value].name == name
    ensures i.Some? ==> forall j :: 0 <= j < i.value ==> studies[j].name != name
    ensures i.None? ==> forall j :: 0 <= j < |studies| ==> studies[j].name != name
  {
    if studies == [] then None
    else
      var i := IndexOf(studies[..|studies| - 1], name);
      if i.Some? then i
      else if studies[|studies| - 1].name == name then Some(|studies| - 1)
      else None
  }

  function Upsert(studies: seq<Study>, s: Study): seq<Study> {
    var i := IndexOf(studies, s.name);
    if i.Some? then studies[i.value := s] else studies + [s]
  }

  /** An entry with nothing to study: its image, date and findings go, the rest of its body stays. */
  function SetPending(studies: seq<Study>, name: string, why: string): seq<Study> {
    var i := IndexOf(studies, name);
    Upsert(studies, Study(name, "", None, if i.Some? then studies[i.value].body else Nothing, Some(why)))
  }

  function Outcome(entry: string, image: string, now: int, body: Body): Study {
    Study(entry, image, Some(now), body, None)
  }

  predicate Answers(s: Study, name: string, image: string) {
    s.name == name && s.image == image && s.studiedAt.Some?
  }

  predicate Answered(studies: seq<Study>, name: string, image: string) {
    exists i :: 0 <= i < |studies| && Answers(studies[i], name, image)
  }

  // ------------------------------------------------------------------ reading pods

  predicate IsPullFailure(reason: string) { reason in {"ImagePullBackOff", "ErrImagePull", "InvalidImageName"} }

  predicate ShowsPullFailure(p: Pod, job: string) {
    p.jobName == job && p.waiting.Some? && IsPullFailure(p.waiting.value.0)
  }

  function Line(s: string): string {
    if s == "" || s[0] == '\n' then "" else [s[0]] + Line(s[1..])
  }

  /** The first line of a message, cut at 160. */
  function FirstLine(s: string): string {
    if |Line(s)| > 160 then Line(s)[..160] + ['\U{2026}'] else Line(s)
  }

  function PullProblem(pods: seq<Pod>, job: string): Option<(string, string)> {
    if pods == [] then None
    else
      var before, last := PullProblem(pods[..|pods| - 1], job), pods[|pods| - 1];
      if before.Some? then before
      else if ShowsPullFailure(last, job) then Some((last.waiting.value.0, FirstLine(last.waiting.value.1)))
      else None
  }

  function StudyMessage(pods: seq<Pod>, job: string): string {
    if pods == [] then ""
    else
      var before := StudyMessage(pods[..|pods| - 1], job);
      if before != "" then before
      else if pods[|pods| - 1].jobName == job then pods[|pods| - 1].message
      else ""
  }

  // ------------------------------------------------------------------ one reconcile of one entry

  /** Between its two calls to the API server a reconciler has decided what the second one is for. */
  datatype Phase =
    | Idle
    | Creating(entry: string, image: string)
    | Deleting(entry: string)
    | Reading(entry: string, image: string, uid: nat, finished: bool)

  /** A pass in flight: its copy of the status, the version it was read at, and where it has got to. */
  datatype Reconciler = Reconciler(work: seq<Study>, version: nat, phase: Phase)

  /** The store, the stored status with its version, the reconcilers, and three histories: what was
      seen of each image, which (entry, image) pairs a Job was created for, what each Job has run. */
  datatype World = World(
    jobs: map<string, Job>, pods: seq<Pod>, nextUid: nat,
    stored: seq<Study>, version: nat, reconcilers: map<nat, Reconciler>,
    seen: set<(string, Evidence)>, created: seq<(string, string)>, ran: map<nat, string>)

  function StudyJobName(tenant: string, entry: string): string { "study-" + tenant + "-" + entry }

  predicate IsFinished(job: Job) { job.succeeded != 0 || job.failed != 0 }

  function With(w: World, r: nat, rec: Reconciler): World { w.(reconcilers := w.reconcilers[r := rec]) }

  function NewJob(w: World, name: string, image: string): World {
    w.(jobs := w.jobs[name := Job(w.nextUid, image, image, 0, 0)], nextUid := w.nextUid + 1,
       ran := w.ran[w.nextUid := image])
  }

  /** ensureImageStudy up to the answer of its first call. `image` is what the entry resolves to, or
      "" with the reason `why`. */
  function Found(w: World, tenant: string, r: nat, entry: string, image: string, why: string, fails: bool): World
    requires r in w.reconcilers
  {
    var rec, name := w.reconcilers[r], StudyJobName(tenant, entry);
    if image == "" then With(w, r, rec.(work := SetPending(rec.work, entry, why)))
    else if Answered(rec.work, entry, image) || fails then w
    else if name !in w.jobs then With(w, r, rec.(phase := Creating(entry, image)))
    else
      var job := w.jobs[name];
      With(w, r, rec.(phase := if job.annotation != image then Deleting(entry)
                               else Reading(entry, image, job.uid, IsFinished(job))))
  }

  /** The rest, against whatever the store holds by then: the second call, when there is one. */
  function Acted(w: World, tenant: string, r: nat, now: int, fails: bool): World
    requires r in w.reconcilers
  {
    var rec := w.reconcilers[r];
    var idle := rec.(phase := Idle);
    match rec.phase
    case Idle => w
    case Creating(entry, image) =>
      var name := StudyJobName(tenant, entry);
      if fails || name in w.jobs then With(w, r, idle)
      else With(NewJob(w, name, image), r, idle).(created := w.created + [(entry, image)])
    case Deleting(entry) =>
      if fails then With(w, r, idle) else With(w.(jobs := w.jobs - {StudyJobName(tenant, entry)}), r, idle)
    case Reading(entry, image, _, finished) =>
      var body := if finished then ReadBack(w.pods, StudyJobName(tenant, entry), fails)
                  else Stuck(w.pods, StudyJobName(tenant, entry), fails);
      With(w, r, if body == Nothing then idle else idle.(work := Upsert(rec.work, Outcome(entry, image, now, body))))
  }

  /** What a finished Job's pods say. */
  function ReadBack(pods: seq<Pod>, name: string, fails: bool): Body {
    var msg := if fails then "" else StudyMessage(pods, name);
    if msg == "" then NoReport else Report(msg)
  }

  /** What is wrong with the pods of a Job that is still under way, if anything. */
  function Stuck(pods: seq<Pod>, name: string, fails: bool): Body {
    var problem := if fails then None else PullProblem(pods, name);
    if problem.None? then Nothing else CouldNotPull(problem.value.0, problem.value.1)
  }

  // ------------------------------------------------------------------ the code

  /** The Jobs and pods as the API server has them. */
  datatype Objects = Objects(jobs: map<string, Job>, pods: seq<Pod>, nextUid: nat)

  function ObjectsOf(w: World): Objects { Objects(w.jobs, w.pods, w.nextUid) }

  class Cluster {
    var objects: Objects

    /** Whatever everybody else has done since the last call. */
    method Meanwhile(then_: Objects)
      modifies this
      ensures objects == then_
    {
      objects := then_;
    }

    method Create(name: string, image: string, fails: bool)
      modifies this
      ensures objects == if fails || name in old(objects).jobs then old(objects) else
                           Objects(old(objects).jobs[name := Job(old(objects).nextUid, image, image, 0, 0)],
                                   old(objects).pods, old(objects).nextUid + 1)
    {
      if !fails && name !in objects.jobs {
        objects := objects.(jobs := objects.jobs[name := Job(objects.nextUid, image, image, 0, 0)],
                            nextUid := objects.nextUid + 1);
      }
    }

    /** By name, whichever Job has it by now. */
    method Delete(name: string, fails: bool)
      modifies this
      ensures objects == if fails then old(objects) else old(objects).(jobs := old(objects).jobs - {name})
    {
      if !fails { objects := objects.(jobs := objects.jobs - {name}); }
    }

    method FindPullProblem(job: string, fails: bool) returns (problem: Option<(string, string)>)
      ensures problem == if fails then None else PullProblem(objects.pods, job)
    {
      if fails { return None; }
      var pods := objects.pods;
      for i := 0 to |pods|
        invariant PullProblem(pods[..i], job).None?
      {
        assert pods[..i + 1][..i] == pods[..i];
        if ShowsPullFailure(pods[i], job) {
          FirstProblemStands(pods, i + 1, job);
          return Some((pods[i].waiting.value.0, FirstLine(pods[i].waiting.value.1)));
        }
      }
      assert pods[..|pods|] == pods;
      return None;
    }

    method ReadMessage(job: string, fails: bool) returns (msg: string)
      ensures msg == if fails then "" else StudyMessage(objects.pods, job)
    {
      if fails { return ""; }
      var pods := objects.pods;
      for i := 0 to |pods|
        invariant StudyMessage(pods[..i], job) == ""
      {
        assert pods[..i + 1][..i] == pods[..i];
        if pods[i].jobName == job && pods[i].message != "" {
          FirstMessageStands(pods, i + 1, job);
          return pods[i].message;
        }
      }
      assert pods[..|pods|] == pods;
      return "";
    }
  }

  lemma {:induction false} FirstProblemStands(pods: seq<Pod>, n: nat, job: string)
    requires n <= |pods| && PullProblem(pods[..n], job).Some?
    ensures PullProblem(pods, job) == PullProblem(pods[..n], job)
    decreases |pods|
  {
    if n < |pods| {
      assert pods[..|pods| - 1][..n] == pods[..n];
      FirstProblemStands(pods[..|pods| - 1], n, job);
    } else {
      assert pods[..n] == pods;
    }
  }

  lemma {:induction false} FirstMessageStands(pods: seq<Pod>, n: nat, job: string)
    requires n <= |pods| && StudyMessage(pods[..n], job) != ""
    ensures StudyMessage(pods, job) == StudyMessage(pods[..n], job)
    decreases |pods|
  {
    if n < |pods| {
      assert pods[..|pods| - 1][..n] == pods[..n];
      FirstMessageStands(pods[..|pods| - 1], n, job);
    } else {
      assert pods[..n] == pods;
    }
  }

  /** The tenant status being worked on. */
  class TenantStatus {
    var studies: seq<Study>

    method UpsertStudy(s: Study)
      modifies this
      ensures studies == Upsert(old(studies), s)
    {
      for i := 0 to |studies|
        invariant studies == old(studies)
        invariant forall j :: 0 <= j < i ==> studies[j].name != s.name
      {
        if studies[i].name == s.name {
          studies := studies[i := s];
          return;
        }
      }
      studies := studies + [s];
    }

    method SetStudyPending(name: string, why: string)
      modifies this
      ensures studies == SetPending(old(studies), name, why)
    {
      for i := 0 to |studies|
        invariant studies == old(studies)
        invariant forall j :: 0 <= j < i ==> studies[j].name != name
      {
        if studies[i].name == name {
          studies := studies[i := studies[i].(image := "", studiedAt := None, pending := Some(why))];
          return;
        }
      }
      studies := studies + [Study(name, "", None, Nothing, Some(why))];
    }
  }

  /** One entry of one pass. The store may have become anything, `then_`, between the first call and
      the second; what the method does is the model's two steps with that change in between. */
  method EnsureImageStudy(
    c: Cluster, st: TenantStatus, ghost w: World, ghost r: nat, tenant: string, entry: string, image: string,
    why: string, getFails: bool, then_: Objects, now: int, secondFails: bool)
    requires r in w.reconcilers && w.reconcilers[r].phase.Idle?
    requires c.objects == ObjectsOf(w) && st.studies == w.reconcilers[r].work
    modifies c, st
    ensures var t := Found(w, tenant, r, entry, image, why, getFails);
            if t.reconcilers[r].phase.Idle? then
              c.objects == ObjectsOf(t) && st.studies == t.reconcilers[r].work
            else
              var u := Acted(t.(jobs := then_.jobs, pods := then_.pods, nextUid := then_.nextUid), tenant, r, now, secondFails);
              c.objects == ObjectsOf(u) && st.studies == u.reconcilers[r].work
  {
    if image == "" {
      st.SetStudyPending(entry, why);
      return;
    }
    for i := 0 to |st.studies|
      invariant forall j :: 0 <= j < i ==> !Answers(st.studies[j], entry, image)
    {
      if Answers(st.studies[i], entry, image) { return; }
    }
    var name := StudyJobName(tenant, entry);
    if getFails { return; }
    var found := name in c.objects.jobs;
    var job := if found then c.objects.jobs[name] else Job(0, "", "", 0, 0);
    c.Meanwhile(then_);
    if !found {
      c.Create(name, image, secondFails);
      return;
    }
    if job.annotation != image {
      c.Delete(name, secondFails);
      return;
    }
    if job.succeeded == 0 && job.failed == 0 {
      var problem := c.FindPullProblem(name, secondFails);
      if problem.Some? {
        st.UpsertStudy(Outcome(entry, image, now, CouldNotPull(problem.value.0, problem.value.1)));
      }
      return;
    }
    var msg := c.ReadMessage(name, secondFails);
    if msg == "" {
      st.UpsertStudy(Outcome(entry, image, now, NoReport));
    } else {
      st.UpsertStudy(Outcome(entry, image, now, Report(msg)));
    }
  }
}
