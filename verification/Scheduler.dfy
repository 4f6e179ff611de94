/** The bounded-parallel submit and poll loop that runs a tuning session on a cluster. */
module Scheduler {
  import opened Prelude

  // ---------------------------------------------------------------- jobs and the world

  /** A job line of the plan: `config` may be absent, or present without being a dictionary. */
  datatype Job = Job(id: Option<string>, config: Option<JobConfig>)
  datatype JobConfig = Dict | OtherValue

  /** The error message for a malformed job, None for a valid one. */
  function Validate(job: Job): Option<string> {
    if job.id.None? then Some("Missing required key: job_id")
    else if job.config.None? then Some("Missing required key: config")
    else if job.config.value != Dict then Some("config must be a dict")
    else None
  }

  datatype Status = Succeeded | Failed | OtherStatus | Raised

  type Duration = x: real | x >= 0.0

  /**
   * What the session does not control: the name given to each submitted job (by file position), every status reply
   * (by job name and number of the poll), the logs, and how far the clock moves between two readings.
   */
  datatype World = World(
    submit: nat -> Option<string>,
    status: (string, nat) -> Status,
    logs: string -> string,
    drift: nat -> Duration)
  {
    /** A missing or empty name counts as a failed submission. */
    predicate Accepts(i: nat) { submit(i).Some? && submit(i).value != "" }

    ghost predicate DistinctNames() {
      forall i: nat, j: nat :: i < j && Accepts(i) && Accepts(j) ==> submit(i) != submit(j)
    }
  }

  datatype Settings = Settings(maxParallel: int, timeoutPerJob: real, timeoutSession: real, wait: bool)

  datatype RunResult = RunResult(
    totalJobs: nat, attemptedJobs: nat, successJobs: nat, errorJobs: nat, skippedJobs: nat,
    exitCode: nat, errors: seq<string>, jobIds: seq<string>, podLogs: map<string, string>)

  // ---------------------------------------------------------------- what became of each job

  /** With the poll that decided it, where one did. */
  datatype Fate = Skipped | Rejected | Running | Completed(poll: nat) | Crashed(poll: nat) | Expired(poll: nat, waited: real)
  {
    function Kind(): Kind {
      match this
      case Skipped => KSkipped
      case Rejected => KRejected
      case Running => KRunning
      case Completed(_) => KSucceeded
      case Crashed(_) => KFailed
      case Expired(_, _) => KFailed
    }
  }
  datatype Kind = KSkipped | KRejected | KRunning | KSucceeded | KFailed

  /** Job `i` met this fate for a reason: its own validity, its submission, and the very poll that ended it. */
  predicate Earned(p: Settings, w: World, jobs: seq<Job>, i: nat, f: Fate)
    requires i < |jobs|
  {
    && (f == Skipped <==> Validate(jobs[i]).Some?)
    && (f == Rejected <==> Validate(jobs[i]).None? && !w.Accepts(i))
    && (w.Accepts(i) ==>
          match f
          case Completed(poll) => w.status(w.submit(i).value, poll) == Succeeded
          case Crashed(poll) => w.status(w.submit(i).value, poll) == Failed
          case Expired(poll, waited) =>
            && w.status(w.submit(i).value, poll) in {OtherStatus, Raised}
            && waited > p.timeoutPerJob
          case _ => true)
  }

  function Count(fs: seq<Fate>, kind: Kind): nat {
    if fs == [] then 0
    else Count(fs[..|fs| - 1], kind) + if fs[|fs| - 1].Kind() == kind then 1 else 0
  }

  lemma CountAppend(fs: seq<Fate>, f: Fate, kind: Kind)
    ensures Count(fs + [f], kind) == Count(fs, kind) + if f.Kind() == kind then 1 else 0
  {
    assert (fs + [f])[..|fs|] == fs;
  }

  lemma {:induction false} CountUpdate(fs: seq<Fate>, i: nat, f: Fate, kind: Kind)
    requires i < |fs|
    ensures Count(fs[i := f], kind)
         == Count(fs, kind) - (if fs[i].Kind() == kind then 1 else 0) + if f.Kind() == kind then 1 else 0
  {
    var front, last := fs[..|fs| - 1], |fs| - 1;
    if i < last {
      CountUpdate(front, i, f, kind);
      assert fs[i := f][..last] == front[i := f];
    } else {
      assert fs[i := f][..last] == front;
    }
  }

  /** Every handled job has exactly one fate. */
  lemma {:induction false} KindsPartition(fs: seq<Fate>)
    ensures |fs| == Count(fs, KSkipped) + Count(fs, KRejected) + Count(fs, KRunning) + Count(fs, KSucceeded) + Count(fs, KFailed)
  {
    if fs != [] { KindsPartition(fs[..|fs| - 1]); }
  }

  lemma {:induction false} CountZero(fs: seq<Fate>, kind: Kind)
    ensures Count(fs, kind) == 0 <==> forall i :: 0 <= i < |fs| ==> fs[i].Kind() != kind
  {
    if fs != [] { CountZero(fs[..|fs| - 1], kind); }
  }

  // ---------------------------------------------------------------- what every point of the loop keeps

  /** An entry of `submitted_jobs`: file position and submission time. */
  datatype Entry = Entry(job: nat, since: real)

  datatype Counters = Counters(attempted: nat, success: nat, error: nat, skipped: nat)

  /** What the result hands back: the names of the submitted jobs, the error messages, the collected logs. */
  datatype Papers = Papers(jobIds: seq<string>, errors: seq<string>, podLogs: map<string, string>)

  /** The handled jobs are a prefix of the file, each with an earned fate. */
  ghost predicate Prefix(p: Settings, w: World, jobs: seq<Job>, queue: seq<Job>, fates: seq<Fate>) {
    && |fates| <= |jobs| && queue == jobs[|fates|..]
    && forall i :: 0 <= i < |fates| ==> Earned(p, w, jobs, i, fates[i])
  }

  /** The counters are the counts. */
  predicate Counted(c: Counters, fates: seq<Fate>) {
    && c.skipped == Count(fates, KSkipped)
    && c.error == Count(fates, KRejected) + Count(fates, KFailed)
    && c.success == Count(fates, KSucceeded)
    && c.attempted == Count(fates, KRunning) + Count(fates, KSucceeded) + Count(fates, KFailed)
  }

  ghost predicate Runs(w: World, fates: seq<Fate>, name: string, e: Entry) {
    && e.job < |fates| && fates[e.job] == Running
    && w.Accepts(e.job) && w.submit(e.job).value == name
  }

  /** The dictionary of submitted jobs is the running ones; names of later jobs are free. */
  ghost predicate Tracked(w: World, fates: seq<Fate>, submitted: map<string, Entry>, completed: set<string>) {
    && |submitted| == Count(fates, KRunning)
    && (forall name | name in submitted :: Runs(w, fates, name, submitted[name]))
    && submitted.Keys !! completed
    && (forall i: nat | |fates| <= i && w.Accepts(i) :: w.submit(i).value !in submitted && w.submit(i).value !in completed)
  }

  /** The name of a completed job. */
  ghost predicate CompletedAs(w: World, fates: seq<Fate>, name: string) {
    exists i :: 0 <= i < |fates| && fates[i].Completed? && w.submit(i) == Some(name)
  }

  /** Exactly the succeeded jobs have their logs collected, each its own. */
  ghost predicate LogsOf(w: World, fates: seq<Fate>, podLogs: map<string, string>) {
    && |podLogs| == Count(fates, KSucceeded)
    && (forall i :: 0 <= i < |fates| && fates[i].Completed? ==> w.Accepts(i) && w.submit(i).value in podLogs)
    && (forall name | name in podLogs :: CompletedAs(w, fates, name) && podLogs[name] == w.logs(name))
  }

  ghost predicate Logged(w: World, fates: seq<Fate>, podLogs: map<string, string>, completed: set<string>) {
    podLogs.Keys <= completed && LogsOf(w, fates, podLogs)
  }

  /** A later fate list in which every completed job stays completed names as many. */
  lemma StillCompleted(w: World, fates: seq<Fate>, fates': seq<Fate>, podLogs: map<string, string>)
    requires forall name | name in podLogs :: CompletedAs(w, fates, name)
    requires |fates| <= |fates'| && forall i :: 0 <= i < |fates| && fates[i].Completed? ==> fates'[i] == fates[i]
    ensures forall name | name in podLogs :: CompletedAs(w, fates', name)
  {
    forall name | name in podLogs ensures CompletedAs(w, fates', name) {
      var i :| 0 <= i < |fates| && fates[i].Completed? && w.submit(i) == Some(name);
      assert fates'[i].Completed?;
    }
  }

  /** The names the cluster gave to the valid jobs among the first `n` that it accepted, in file order. */
  function Names(w: World, jobs: seq<Job>, n: nat): seq<string>
    requires n <= |jobs|
  {
    if n == 0 then []
    else Names(w, jobs, n - 1) + if Validate(jobs[n - 1]).None? && w.Accepts(n - 1) then [w.submit(n - 1).value] else []
  }

  /** What is said of a job that left the loop in flight: nothing of a success. */
  function Complaint(w: World, name: string, f: Fate): seq<string> {
    match f
    case Crashed(_) => ["Job failed: " + name]
    case Expired(poll, _) => [(if w.status(name, poll) == Raised then "Job error: " else "Job timeout: ") + name]
    case _ => []
  }

  function IdOf(job: Job): string { if job.id.Some? then job.id.value else "unknown" }

  /** What is said of job `i`. */
  function Message(w: World, jobs: seq<Job>, i: nat, f: Fate): seq<string>
    requires i < |jobs|
  {
    match f
    case Skipped => ["Job " + IdOf(jobs[i]) + ": " + (if Validate(jobs[i]).Some? then Validate(jobs[i]).value else "")]
    case Rejected => ["Failed to submit job " + IdOf(jobs[i])]
    case _ => if w.submit(i).Some? then Complaint(w, w.submit(i).value, f) else []
  }

  /** What is said in all; the polling order decides only the order. */
  ghost function Messages(w: World, jobs: seq<Job>, fates: seq<Fate>): multiset<string>
    requires |fates| <= |jobs|
  {
    if fates == [] then multiset{}
    else Messages(w, jobs, fates[..|fates| - 1]) + multiset(Message(w, jobs, |fates| - 1, fates[|fates| - 1]))
  }

  lemma MessagesAppend(w: World, jobs: seq<Job>, fates: seq<Fate>, f: Fate)
    requires |fates| < |jobs|
    ensures Messages(w, jobs, fates + [f]) == Messages(w, jobs, fates) + multiset(Message(w, jobs, |fates|, f))
  {
    assert (fates + [f])[..|fates|] == fates;
  }

  lemma {:induction false} MessagesUpdate(w: World, jobs: seq<Job>, fates: seq<Fate>, i: nat, f: Fate)
    requires i < |fates| <= |jobs| && fates[i] == Running
    ensures Messages(w, jobs, fates[i := f]) == Messages(w, jobs, fates) + multiset(Message(w, jobs, i, f))
  {
    hide Message;
    var front, last := fates[..|fates| - 1], |fates| - 1;
    if i < last {
      MessagesUpdate(w, jobs, front, i, f);
      assert fates[i := f][..last] == front[i := f];
    } else {
      assert fates[i := f][..last] == front;
      NothingSaid(w, jobs, i);
    }
  }

  lemma NothingSaid(w: World, jobs: seq<Job>, i: nat)
    requires i < |jobs|
    ensures Message(w, jobs, i, Running) == []
  {
  }

  /** Names and messages are those of the handled jobs. */
  ghost predicate Written(w: World, jobs: seq<Job>, fates: seq<Fate>, jobIds: seq<string>, errors: seq<string>) {
    |fates| <= |jobs| && jobIds == Names(w, jobs, |fates|) && multiset(errors) == Messages(w, jobs, fates)
  }

  /** The head of the queue is handled: it is named if it was submitted, and spoken of otherwise. */
  function Handled(w: World, jobs: seq<Job>, papers: Papers, i: nat, f: Fate): Papers
    requires i < |jobs|
  {
    if f == Running && w.submit(i).Some? then papers.(jobIds := papers.jobIds + [w.submit(i).value])
    else papers.(errors := papers.errors + Message(w, jobs, i, f))
  }

  lemma WrittenHandled(p: Settings, w: World, jobs: seq<Job>, fates: seq<Fate>, papers: Papers, f: Fate)
    requires Written(w, jobs, fates, papers.jobIds, papers.errors) && |fates| < |jobs| && f in {Skipped, Rejected, Running}
    requires Earned(p, w, jobs, |fates|, f) && (f == Running ==> w.Accepts(|fates|))
    ensures var papers' := Handled(w, jobs, papers, |fates|, f); Written(w, jobs, fates + [f], papers'.jobIds, papers'.errors)
  {
    var i := |fates|;
    MessagesAppend(w, jobs, fates, f);
    NothingSaid(w, jobs, i);
    NamesGrow(p, w, jobs, i, f);
    hide Messages, Message, Names, Earned;
  }

  lemma NamesGrow(p: Settings, w: World, jobs: seq<Job>, i: nat, f: Fate)
    requires i < |jobs| && f in {Skipped, Rejected, Running} && Earned(p, w, jobs, i, f) && (f == Running ==> w.Accepts(i))
    ensures Names(w, jobs, i + 1) == if f == Running then Names(w, jobs, i) + [w.submit(i).value] else Names(w, jobs, i)
  {
    hide Validate;
    if f != Running { assert Names(w, jobs, i) + [] == Names(w, jobs, i); }
  }

  lemma SkippedSaid(w: World, jobs: seq<Job>, i: nat, problem: string)
    requires i < |jobs| && Validate(jobs[i]) == Some(problem)
    ensures Message(w, jobs, i, Skipped) == ["Job " + IdOf(jobs[i]) + ": " + problem]
  {
  }

  lemma RejectedSaid(w: World, jobs: seq<Job>, i: nat)
    requires i < |jobs|
    ensures Message(w, jobs, i, Rejected) == ["Failed to submit job " + IdOf(jobs[i])]
  {
  }

  lemma WrittenSettled(w: World, jobs: seq<Job>, fates: seq<Fate>, jobIds: seq<string>, errors: seq<string>,
                       i: nat, name: string, f: Fate)
    requires Written(w, jobs, fates, jobIds, errors) && i < |fates| && fates[i] == Running && w.submit(i) == Some(name)
    requires f.Kind() in {KSucceeded, KFailed}
    ensures Written(w, jobs, fates[i := f], jobIds, errors + Complaint(w, name, f))
  {
    MessagesUpdate(w, jobs, fates, i, f);
    assert Message(w, jobs, i, f) == Complaint(w, name, f);
    hide Messages, Message, Complaint, Names;
  }

  /** How far the first `n` readings moved the clock. */
  function Drifted(w: World, n: nat): real { if n == 0 then 0.0 else Drifted(w, n - 1) + w.drift(n - 1) }

  /** A fate tells of a poll that was made, and of no longer wait than the session has lasted. */
  predicate Witnessed(f: Fate, polls: nat, span: real) {
    match f
    case Completed(poll) => poll < polls
    case Crashed(poll) => poll < polls
    case Expired(poll, waited) => poll < polls && waited <= span
    case _ => true
  }

  /** So do all fates; and nothing was submitted before the session started. */
  ghost predicate Told(submitted: map<string, Entry>, fates: seq<Fate>, start: real, polls: nat, clock: real) {
    && (forall name | name in submitted :: start <= submitted[name].since)
    && forall i :: 0 <= i < |fates| ==> Witnessed(fates[i], polls, clock - start)
  }

  lemma WitnessedLater(submitted: map<string, Entry>, fates: seq<Fate>, start: real, polls: nat, clock: real, polls': nat, clock': real)
    requires Told(submitted, fates, start, polls, clock) && polls <= polls' && clock <= clock'
    ensures Told(submitted, fates, start, polls', clock')
  {
  }

  lemma ToldHandled(submitted: map<string, Entry>, fates: seq<Fate>, start: real, polls: nat, clock: real, f: Fate)
    requires Told(submitted, fates, start, polls, clock) && f in {Skipped, Rejected, Running}
    ensures Told(submitted, fates + [f], start, polls, clock)
  {
  }

  lemma ToldSubmitted(submitted: map<string, Entry>, fates: seq<Fate>, start: real, polls: nat, clock: real, name: string, e: Entry)
    requires Told(submitted, fates, start, polls, clock) && start <= e.since
    ensures Told(submitted[name := e], fates, start, polls, clock)
  {
  }

  lemma ToldSettled(submitted: map<string, Entry>, fates: seq<Fate>, start: real, polls: nat, clock: real,
                    name: string, i: nat, f: Fate)
    requires Told(submitted, fates, start, polls, clock) && i < |fates| && Witnessed(f, polls, clock - start)
    ensures Told(submitted - {name}, fates[i := f], start, polls, clock)
  {
  }

  ghost predicate SubmittedBy(submitted: map<string, Entry>, t: real) {
    forall name | name in submitted :: submitted[name].since <= t
  }

  lemma PrefixExtends(p: Settings, w: World, jobs: seq<Job>, queue: seq<Job>, fates: seq<Fate>, f: Fate)
    requires Prefix(p, w, jobs, queue, fates) && queue != [] && Earned(p, w, jobs, |fates|, f)
    ensures Prefix(p, w, jobs, queue[1..], fates + [f])
  {
    hide Earned;
  }

  lemma PrefixSettles(p: Settings, w: World, jobs: seq<Job>, queue: seq<Job>, fates: seq<Fate>, i: nat, f: Fate)
    requires Prefix(p, w, jobs, queue, fates) && i < |fates| && Earned(p, w, jobs, i, f)
    ensures Prefix(p, w, jobs, queue, fates[i := f])
  {
    hide Earned;
  }

  /** A job handled without being submitted leaves the dictionaries alone. */
  lemma UnsubmittedKeeps(w: World, fates: seq<Fate>, f: Fate, submitted: map<string, Entry>, completed: set<string>,
                         podLogs: map<string, string>)
    requires Tracked(w, fates, submitted, completed) && Logged(w, fates, podLogs, completed)
    requires f.Kind() in {KSkipped, KRejected}
    ensures Tracked(w, fates + [f], submitted, completed) && Logged(w, fates + [f], podLogs, completed)
  {
    hide Count, CompletedAs;
    CountAppend(fates, f, KRunning);
    CountAppend(fates, f, KSucceeded);
    StillCompleted(w, fates, fates + [f], podLogs);
    forall name | name in submitted ensures Runs(w, fates + [f], name, submitted[name]) {
      assert Runs(w, fates, name, submitted[name]);
    }
  }

  lemma SubmissionTracked(w: World, fates: seq<Fate>, submitted: map<string, Entry>, completed: set<string>,
                          podLogs: map<string, string>, now: real)
    requires Tracked(w, fates, submitted, completed) && Logged(w, fates, podLogs, completed)
    requires w.DistinctNames() && w.Accepts(|fates|)
    ensures var name, fates' := w.submit(|fates|).value, fates + [Running];
            && Tracked(w, fates', submitted[name := Entry(|fates|, now)], completed)
            && Logged(w, fates', podLogs, completed)
  {
    hide Count, CompletedAs;
    CountAppend(fates, Running, KRunning);
    CountAppend(fates, Running, KSucceeded);
    StillCompleted(w, fates, fates + [Running], podLogs);
    var name, fates' := w.submit(|fates|).value, fates + [Running];
    var submitted' := submitted[name := Entry(|fates|, now)];
    forall other | other in submitted' ensures Runs(w, fates', other, submitted'[other]) {
      if other != name { assert Runs(w, fates, other, submitted[other]); }
    }
  }

  lemma SettlementTracked(w: World, fates: seq<Fate>, submitted: map<string, Entry>, completed: set<string>, name: string, f: Fate)
    requires Tracked(w, fates, submitted, completed) && name in submitted && f.Kind() in {KSucceeded, KFailed}
    ensures submitted[name].job < |fates|
    ensures Tracked(w, fates[submitted[name].job := f], submitted - {name}, completed + {name})
  {
    hide Count;
    assert Runs(w, fates, name, submitted[name]);
    var i := submitted[name].job;
    var fates' := fates[i := f];
    CountUpdate(fates, i, f, KRunning);
    assert (submitted - {name}).Keys == submitted.Keys - {name};
    forall other | other in submitted - {name} ensures Runs(w, fates', other, submitted[other]) {
      assert Runs(w, fates, other, submitted[other]);
    }
  }

  lemma SettlementLogged(w: World, fates: seq<Fate>, podLogs: map<string, string>, completed: set<string>,
                         i: nat, name: string, f: Fate)
    requires Logged(w, fates, podLogs, completed) && name !in completed
    requires i < |fates| && fates[i] == Running && w.Accepts(i) && w.submit(i).value == name
    requires f.Kind() in {KSucceeded, KFailed}
    ensures Logged(w, fates[i := f], if f.Completed? then podLogs[name := w.logs(name)] else podLogs, completed + {name})
  {
    hide Count;
    CountUpdate(fates, i, f, KSucceeded);
    StillCompleted(w, fates, fates[i := f], podLogs);
    if f.Completed? { assert fates[i := f][i].Completed? && CompletedAs(w, fates[i := f], name); }
    hide CompletedAs;
  }

  /** The counters after the head of the queue was skipped, rejected or submitted. */
  function CountHandled(c: Counters, f: Fate): Counters {
    match f
    case Skipped => c.(skipped := c.skipped + 1)
    case Rejected => c.(error := c.error + 1)
    case _ => c.(attempted := c.attempted + 1)
  }

  lemma CountersAppend(c: Counters, fates: seq<Fate>, f: Fate)
    requires Counted(c, fates) && f in {Skipped, Rejected, Running}
    ensures Counted(CountHandled(c, f), fates + [f])
  {
    hide Count;
    forall kind { CountAppend(fates, f, kind); }
  }

  function CountSettled(c: Counters, f: Fate): Counters {
    if f.Completed? then c.(success := c.success + 1) else c.(error := c.error + 1)
  }

  lemma CountersSettle(c: Counters, fates: seq<Fate>, i: nat, f: Fate)
    requires Counted(c, fates) && i < |fates| && fates[i] == Running && f.Kind() in {KSucceeded, KFailed}
    ensures Counted(CountSettled(c, f), fates[i := f])
  {
    hide Count;
    forall kind { CountUpdate(fates, i, f, kind); }
  }

  /** The loop's variables, at one point. */
  datatype Books = Books(
    queue: seq<Job>, submitted: map<string, Entry>, completed: set<string>, counters: Counters,
    papers: Papers, clock: real, polls: nat, fates: seq<Fate>, lastSubmit: real)

  /** Holds at every point of the loop: a handled prefix, conservation, the parallelism bound, the logs. */
  ghost predicate Sound(p: Settings, w: World, jobs: seq<Job>, b: Books) {
    && Prefix(p, w, jobs, b.queue, b.fates)
    && Counted(b.counters, b.fates)
    && Tracked(w, b.fates, b.submitted, b.completed)
    && Logged(w, b.fates, b.papers.podLogs, b.completed)
    && Written(w, jobs, b.fates, b.papers.jobIds, b.papers.errors)
    && |b.submitted| <= p.maxParallel
    && SubmittedBy(b.submitted, b.lastSubmit) && b.lastSubmit <= b.clock
    && Told(b.submitted, b.fates, Drifted(w, 1), b.polls, b.clock)
  }

  function NoCounts(): Counters { Counters(0, 0, 0, 0) }

  function FreshBooks(jobs: seq<Job>): Books {
    Books(jobs, map[], {}, NoCounts(), Papers([], [], map[]), 0.0, 0, [], 0.0)
  }

  lemma FreshIsSound(p: Settings, w: World, jobs: seq<Job>)
    requires p.maxParallel >= 1
    ensures Sound(p, w, jobs, FreshBooks(jobs))
  {
    hide NoCounts, Prefix, Counted, Tracked, Logged, SubmittedBy, Written;
    FreshDictionaries(w);
    FreshPapers(w, jobs);
    FreshPrefix(p, w, jobs);
    FreshCounters();
  }

  lemma FreshPrefix(p: Settings, w: World, jobs: seq<Job>)
    ensures Prefix(p, w, jobs, jobs, [])
  {
  }

  lemma FreshPapers(w: World, jobs: seq<Job>)
    ensures Written(w, jobs, [], [], [])
  {
  }

  lemma FreshCounters()
    ensures Counted(NoCounts(), [])
  {
  }

  lemma FreshDictionaries(w: World)
    ensures Tracked(w, [], map[], {}) && Logged(w, [], map[], {}) && SubmittedBy(map[], 0.0)
  {
  }

  lemma ClockMoves(p: Settings, w: World, jobs: seq<Job>, b: Books, now: real, polls: nat)
    requires Sound(p, w, jobs, b) && now >= b.clock && polls >= b.polls
    ensures Sound(p, w, jobs, b.(clock := now, polls := polls))
  {
    hide Prefix, Counted, Tracked, Logged, SubmittedBy, Told, Drifted, Written;
    WitnessedLater(b.submitted, b.fates, Drifted(w, 1), b.polls, b.clock, polls, now);
  }

  /** The head of the queue is skipped or rejected. */
  function Unsubmitted(w: World, jobs: seq<Job>, b: Books, f: Fate): Books
    requires b.queue != [] && |b.fates| < |jobs|
  {
    b.(queue := b.queue[1..], fates := b.fates + [f], counters := CountHandled(b.counters, f),
       papers := Handled(w, jobs, b.papers, |b.fates|, f))
  }

  lemma UnsubmittedIsSound(p: Settings, w: World, jobs: seq<Job>, b: Books, f: Fate)
    requires Sound(p, w, jobs, b) && b.queue != []
    requires f == if Validate(b.queue[0]).Some? then Skipped else Rejected
    requires f == Rejected ==> !w.Accepts(|b.fates|)
    ensures |b.fates| < |jobs| && Sound(p, w, jobs, Unsubmitted(w, jobs, b, f))
  {
    assert b.queue[0] == jobs[|b.fates|] && Earned(p, w, jobs, |b.fates|, f);
    hide CountHandled, SubmittedBy, Prefix, Counted, Tracked, Logged, Validate, Earned, Drifted, Told, Written, Message;
    ToldHandled(b.submitted, b.fates, Drifted(w, 1), b.polls, b.clock, f);
    PrefixExtends(p, w, jobs, b.queue, b.fates, f);
    UnsubmittedKeeps(w, b.fates, f, b.submitted, b.completed, b.papers.podLogs);
    CountersAppend(b.counters, b.fates, f);
    WrittenHandled(p, w, jobs, b.fates, b.papers, f);
  }

  /** The head of the queue is submitted at time `now`. */
  function Submitted(b: Books, name: string, i: nat, now: real): Books
    requires b.queue != []
  {
    b.(queue := b.queue[1..], fates := b.fates + [Running], submitted := b.submitted[name := Entry(i, now)],
       counters := CountHandled(b.counters, Running), papers := b.papers.(jobIds := b.papers.jobIds + [name]),
       lastSubmit := now, clock := now)
  }

  lemma SubmittedIsSound(p: Settings, w: World, jobs: seq<Job>, b: Books, now: real)
    requires Sound(p, w, jobs, b) && b.queue != [] && Validate(b.queue[0]).None? && w.DistinctNames()
    requires w.Accepts(|b.fates|) && |b.submitted| < p.maxParallel && now >= b.clock && now >= Drifted(w, 1)
    ensures Sound(p, w, jobs, Submitted(b, w.submit(|b.fates|).value, |b.fates|, now))
  {
    assert b.queue[0] == jobs[|b.fates|] && Earned(p, w, jobs, |b.fates|, Running);
    assert SubmittedBy(b.submitted[w.submit(|b.fates|).value := Entry(|b.fates|, now)], now);
    hide CountHandled, SubmittedBy, World.DistinctNames, Prefix, Counted, Tracked, Logged, Validate, Earned, Drifted, Told, Written;
    WrittenHandled(p, w, jobs, b.fates, b.papers, Running);
    var name := w.submit(|b.fates|).value;
    WitnessedLater(b.submitted, b.fates, Drifted(w, 1), b.polls, b.clock, b.polls, now);
    ToldHandled(b.submitted, b.fates, Drifted(w, 1), b.polls, now, Running);
    ToldSubmitted(b.submitted, b.fates + [Running], Drifted(w, 1), b.polls, now, name, Entry(|b.fates|, now));
    PrefixExtends(p, w, jobs, b.queue, b.fates, Running);
    SubmissionTracked(w, b.fates, b.submitted, b.completed, b.papers.podLogs, now);
    CountersAppend(b.counters, b.fates, Running);
  }

  /** An in-flight job leaves: its fate is settled and its entry deleted. */
  function Settled(w: World, b: Books, name: string, f: Fate): Books
    requires name in b.submitted && b.submitted[name].job < |b.fates|
  {
    b.(submitted := b.submitted - {name}, completed := b.completed + {name}, fates := b.fates[b.submitted[name].job := f],
       papers := Papers(b.papers.jobIds, b.papers.errors + Complaint(w, name, f),
                        if f.Completed? then b.papers.podLogs[name := w.logs(name)] else b.papers.podLogs),
       counters := CountSettled(b.counters, f))
  }

  lemma SettledIsSound(p: Settings, w: World, jobs: seq<Job>, b: Books, name: string, f: Fate)
    requires Sound(p, w, jobs, b) && name in b.submitted && f.Kind() in {KSucceeded, KFailed}
    requires b.submitted[name].job < |jobs| && Earned(p, w, jobs, b.submitted[name].job, f)
    requires Witnessed(f, b.polls, b.clock - Drifted(w, 1))
    ensures b.submitted[name].job < |b.fates| && Sound(p, w, jobs, Settled(w, b, name, f))
  {
    var i := b.submitted[name].job;
    assert Runs(w, b.fates, name, b.submitted[name]) && name !in b.completed;
    hide CountSettled, SubmittedBy, World.DistinctNames, Prefix, Counted, Tracked, Logged, Validate, Earned, Drifted, Witnessed, Told,
      Written, Complaint;
    ToldSettled(b.submitted, b.fates, Drifted(w, 1), b.polls, b.clock, name, i, f);
    PrefixSettles(p, w, jobs, b.queue, b.fates, i, f);
    SettlementTracked(w, b.fates, b.submitted, b.completed, name, f);
    SettlementLogged(w, b.fates, b.papers.podLogs, b.completed, i, name, f);
    WrittenSettled(w, jobs, b.fates, b.papers.jobIds, b.papers.errors, i, name, f);
    CountersSettle(b.counters, b.fates, i, f);
    EntryLeaves(b.submitted, name, b.lastSubmit);
  }

  /** The verdict of one poll, made `elapsed` seconds after the submission; None leaves the job in flight. */
  predicate PollSays(p: Settings, w: World, name: string, poll: nat, elapsed: real, verdict: Option<Fate>) {
    match w.status(name, poll)
    case Succeeded => verdict == Some(Completed(poll))
    case Failed => verdict == Some(Crashed(poll))
    case _ => verdict == if elapsed > p.timeoutPerJob then Some(Expired(poll, elapsed)) else None
  }

  lemma VerdictIsEarned(p: Settings, w: World, jobs: seq<Job>, b: Books, name: string, poll: nat, elapsed: real, f: Fate)
    requires Sound(p, w, jobs, b) && name in b.submitted && PollSays(p, w, name, poll, elapsed, Some(f))
    requires poll < b.polls && elapsed == b.clock - b.submitted[name].since
    ensures b.submitted[name].job < |b.fates| <= |jobs| && Witnessed(f, b.polls, b.clock - Drifted(w, 1))
    ensures f.Kind() in {KSucceeded, KFailed} && Earned(p, w, jobs, b.submitted[name].job, f)
  {
    hide Counted, Logged, SubmittedBy, World.DistinctNames, Validate, Drifted;
    assert Runs(w, b.fates, name, b.submitted[name]);
    assert Earned(p, w, jobs, b.submitted[name].job, Running);
  }

  lemma RunsAt(p: Settings, w: World, jobs: seq<Job>, b: Books, name: string)
    requires Sound(p, w, jobs, b) && name in b.submitted
    ensures b.submitted[name].job < |b.fates|
  {
    assert Runs(w, b.fates, name, b.submitted[name]);
  }

  lemma LeavesOnce(p: Settings, w: World, jobs: seq<Job>, b: Books, name: string)
    requires Sound(p, w, jobs, b) && name in b.submitted
    ensures |b.submitted - {name}| == |b.submitted| - 1 && |b.completed + {name}| == |b.completed| + 1
  {
    assert (b.submitted - {name}).Keys == b.submitted.Keys - {name};
  }

  lemma EntryLeaves(submitted: map<string, Entry>, name: string, t: real)
    requires name in submitted && SubmittedBy(submitted, t)
    ensures SubmittedBy(submitted - {name}, t) && |submitted - {name}| == |submitted| - 1
  {
    assert (submitted - {name}).Keys == submitted.Keys - {name};
  }

  /** Time left to a deadline, in started seconds. */
  function Remaining(t: real): nat { if t < 0.0 then 0 else t.Floor + 1 }

  /** A bound on the passes to come: what is queued and in flight, and the time to the deadline of the last submission. */
  function Potential(p: Settings, queued: nat, inFlight: nat, left: real): nat {
    queued * (Remaining(p.timeoutPerJob) + 2) + inFlight + Remaining(left)
  }

  /** The most passes in time a session of `n` jobs can make. */
  function Passes(p: Settings, n: nat): nat { n * (Remaining(p.timeoutPerJob) + 2) + Remaining(p.timeoutPerJob) }

  lemma PotentialBounded(p: Settings, n: nat, queued: nat, inFlight: nat, left: real)
    requires queued + inFlight <= n && left <= p.timeoutPerJob
    ensures Potential(p, queued, inFlight, left) <= Passes(p, n)
  {
    var r, k := Remaining(p.timeoutPerJob), n - queued;
    assert n * (r + 2) == queued * (r + 2) + k * (r + 2);
    assert k * (r + 2) == k * (r + 1) + k >= k;
  }

  /** Handled jobs, jobs that left, or time: whichever a pass makes progress in, it lowers the bound. */
  lemma PotentialFalls(p: Settings, queued: nat, inFlight: nat, left: real, queued': nat, inFlight': nat, left': real)
    requires queued' <= queued && queued' + inFlight' <= queued + inFlight && left' <= p.timeoutPerJob
    requires queued' == queued ==>
               || (inFlight' < inFlight && left' <= left)
               || (inFlight' == inFlight && Remaining(left') < Remaining(left))
    ensures Potential(p, queued', inFlight', left') < Potential(p, queued, inFlight, left)
  {
    var r, k := Remaining(p.timeoutPerJob), queued - queued';
    assert queued * (r + 2) == queued' * (r + 2) + k * (r + 2);
    if k > 0 {
      assert k * (r + 2) == k * (r + 1) + k;
      assert k * (r + 1) == (k - 1) * (r + 1) + (r + 1) >= r + 1;
    }
  }

  /** How many jobs are queued, in flight and settled, how many polls were made, and when the last job was submitted. */
  datatype Census = Census(queued: nat, inFlight: nat, settled: nat, polls: nat, lastSubmit: real)

  /** Submission fills the room there is, or empties the queue. */
  predicate Filled(p: Settings, a: Census, b: Census) {
    && b.queued <= a.queued && b.queued + b.inFlight <= a.queued + a.inFlight
    && b.inFlight <= p.maxParallel && (b.queued == 0 || b.inFlight == p.maxParallel)
    && (b.queued == a.queued ==> b.inFlight == a.inFlight && b.lastSubmit == a.lastSubmit)
    && b.settled == a.settled && b.polls == a.polls
  }

  /** Polling looks at each job in flight once; it stays or is settled. */
  predicate Polled(a: Census, b: Census) {
    && b.queued == a.queued && b.lastSubmit == a.lastSubmit
    && b.polls == a.polls + a.inFlight && b.inFlight <= a.inFlight && b.inFlight + b.settled == a.inFlight + a.settled
  }

  /** What a pass does: every job that stays in flight and every one it settles is polled, as many as may run if any are left queued. */
  predicate Advanced(p: Settings, a: Census, b: Census) {
    && b.queued <= a.queued && b.queued + b.inFlight <= a.queued + a.inFlight && a.settled <= b.settled
    && b.polls == a.polls + b.inFlight + (b.settled - a.settled)
    && b.polls <= a.polls + p.maxParallel && (b.queued > 0 ==> b.polls == a.polls + p.maxParallel)
    && (b.queued == a.queued ==> b.lastSubmit == a.lastSubmit && b.inFlight <= a.inFlight && (b.inFlight == a.inFlight ==> b.inFlight > 0))
  }

  /** After `passes` passes, all in time: each polled, at full load as long as jobs were left queued. */
  predicate Busy(p: Settings, c: Census, passes: nat) {
    && c.polls <= p.maxParallel * passes && (c.queued > 0 ==> c.polls == p.maxParallel * passes)
    && passes <= c.polls + if c.queued + c.inFlight > 0 then 0 else 1
  }

  lemma BusyPass(p: Settings, a: Census, b: Census, passes: nat)
    requires Busy(p, a, passes) && Advanced(p, a, b) && a.queued + a.inFlight > 0 && p.maxParallel >= 1
    ensures Busy(p, b, passes + 1)
  {
    assert p.maxParallel * (passes + 1) == p.maxParallel * passes + p.maxParallel;
  }

  lemma BusyTimes(p: Settings, c: Census, looks: nat, late: bool)
    requires if late then looks >= 2 && Busy(p, c, looks - 2) && c.queued + c.inFlight > 0
             else looks >= 1 && Busy(p, c, looks - 1) && c.queued == 0
    requires p.maxParallel >= 1
    ensures looks - 2 <= c.polls <= p.maxParallel * (looks - 1)
    ensures c.queued > 0 ==> c.polls == p.maxParallel * (looks - 2)
  {
    if late { assert p.maxParallel * (looks - 1) == p.maxParallel * (looks - 2) + p.maxParallel; }
  }

  lemma FilledPolled(p: Settings, a: Census, b: Census, c: Census)
    requires Filled(p, a, b) && Polled(b, c) && p.maxParallel >= 1 && a.queued + a.inFlight > 0
    ensures Advanced(p, a, c)
  {
  }

  /** A job that is still in flight after a poll at `t` or later keeps the last deadline ahead of `t`. */
  lemma LateJobsLeave(p: Settings, w: World, jobs: seq<Job>, b: Books, t: real)
    requires Sound(p, w, jobs, b) && b.submitted != map[]
    requires forall name | name in b.submitted :: b.submitted[name].since + p.timeoutPerJob >= t
    ensures b.lastSubmit + p.timeoutPerJob >= t
  {
    hide Prefix, Counted, Tracked, Logged;
    var name :| name in b.submitted;
  }

  lemma TimeRunsOut(deadline: real, before: real, after: real)
    requires before <= deadline && after >= before + 1.0
    ensures Remaining(deadline - after) < Remaining(deadline - before)
  {
  }

  lemma {:induction false} DriftGrows(w: World, m: nat, n: nat)
    requires m <= n
    ensures Drifted(w, m) <= Drifted(w, n)
  {
    if m < n { DriftGrows(w, m, n - 1); }
  }

  /** What a run did with its clock: readings in all, those at its start and at each pass, polls, seconds slept. */
  datatype Timing = Timing(readings: nat, looks: nat, polls: nat, slept: nat)

  /** Time from the first reading to the last, sleep included. */
  function Elapsed(w: World, t: Timing): real { Drifted(w, t.readings) - Drifted(w, 1) + t.slept as real }

  /**
   * Every reading is one at the start or of a pass, of a submission, or of a poll; at most one second is slept per pass;
   * the passes are bounded; every pass in time but the last polls a job, and as many as may run while jobs are left in
   * the queue.
   */
  predicate Timed(p: Settings, n: nat, t: Timing, attempted: nat, left: nat) {
    && t.readings == t.looks + attempted + t.polls && t.slept < t.looks
    && t.looks <= Passes(p, n) + 2
    && t.looks - 2 <= t.polls <= p.maxParallel * (t.looks - 1)
    && (left > 0 ==> t.polls == p.maxParallel * (t.looks - 2))
  }

  /** The result is the account of the fates; `timedOut` says that the session timeout has passed and ended the run. */
  ghost predicate Accounts(p: Settings, w: World, jobs: seq<Job>, r: RunResult, fates: seq<Fate>, timedOut: bool, t: Timing) {
    && (timedOut ==> Elapsed(w, t) > p.timeoutSession)
    && |fates| <= |jobs| && Timed(p, |jobs|, t, r.attemptedJobs, |jobs| - |fates|)
    && (forall i :: 0 <= i < |fates| ==> Witnessed(fates[i], t.polls, Elapsed(w, t)))
    && Prefix(p, w, jobs, jobs[|fates|..], fates)
    && Counted(Counters(r.attemptedJobs, r.successJobs, r.errorJobs, r.skippedJobs), fates)
    && r.totalJobs == |jobs| && r.jobIds == Names(w, jobs, |fates|) && LogsOf(w, fates, r.podLogs)
    && multiset(r.errors) == Messages(w, jobs, fates) + (if timedOut then multiset{"Session timeout exceeded"} else multiset{})
    && Count(fates, KRunning) <= p.maxParallel
    && (!timedOut ==> |fates| == |jobs| && (p.wait ==> Count(fates, KRunning) == 0))
  }

  lemma SoundAccounts(p: Settings, w: World, jobs: seq<Job>, b: Books, r: RunResult, timedOut: bool, t: Timing)
    requires Sound(p, w, jobs, b) && Timed(p, |jobs|, t, r.attemptedJobs, |b.queue|) && (timedOut ==> Elapsed(w, t) > p.timeoutSession)
    requires !timedOut ==> b.queue == [] && (p.wait ==> b.submitted == map[])
    requires b.polls == t.polls && b.clock - Drifted(w, 1) == Elapsed(w, t)
    requires r.totalJobs == |jobs| && r.podLogs == b.papers.podLogs && r.jobIds == b.papers.jobIds
    requires r.errors == b.papers.errors + if timedOut then ["Session timeout exceeded"] else []
    requires b.counters == Counters(r.attemptedJobs, r.successJobs, r.errorJobs, r.skippedJobs)
    ensures Accounts(p, w, jobs, r, b.fates, timedOut, t)
  {
    hide Earned, Count, Elapsed, Witnessed, Drifted, Timed, Messages, Names, CompletedAs;
  }

  // ---------------------------------------------------------------- the session

  class Session {
    const p: Settings
    const w: World
    const jobs: seq<Job>
    var queue: seq<Job>
    var submitted: map<string, Entry>
    var completed: set<string>
    var attempted: nat
    var success: nat
    var error: nat
    var skipped: nat
    var errors: seq<string>
    var jobIds: seq<string>
    var podLogs: map<string, string>
    var clock: real
    var readings: nat
    var polls: nat
    ghost var fates: seq<Fate>
    ghost var lastSubmit: real
    ghost var looks: nat
    ghost var slept: nat

    constructor (p: Settings, w: World, jobs: seq<Job>)
      ensures Now() == FreshBooks(jobs)
      ensures Clockwork() == Timing(0, 0, 0, 0) && Ticking()
      ensures this.p == p && this.w == w && this.jobs == jobs
    {
      this.p, this.w, this.jobs := p, w, jobs;
      queue, submitted, completed := jobs, map[], {};
      attempted, success, error, skipped := 0, 0, 0, 0;
      errors, jobIds, podLogs := [], [], map[];
      clock, readings, polls := 0.0, 0, 0;
      fates, lastSubmit, looks, slept := [], 0.0, 0, 0;
    }

    ghost predicate Valid()
      reads this
    {
      Held() && Ticking()
    }

    ghost predicate Held()
      reads `queue, `submitted, `completed, `attempted, `success, `error, `skipped, `jobIds, `errors, `podLogs, `clock, `polls, `fates, `lastSubmit
    {
      p.maxParallel >= 1 && w.DistinctNames() && Sound(p, w, jobs, Now())
    }

    /** The clock shows what its readings and the sleep have moved it, and every reading is accounted for. */
    ghost predicate Ticking()
      reads `clock, `readings, `slept, `looks, `attempted, `polls
    {
      Shown() && readings == looks + attempted + polls
    }

    ghost predicate Shown()
      reads `clock, `readings, `slept
    {
      clock == Drifted(w, readings) + slept as real
    }

    ghost function Clockwork(): Timing
      reads this
    {
      Timing(readings, looks, polls, slept)
    }

    ghost function Now(): Books
      reads `queue, `submitted, `completed, `attempted, `success, `error, `skipped, `jobIds, `errors, `podLogs, `clock, `polls, `fates, `lastSubmit
    {
      Books(queue, submitted, completed, Counters(attempted, success, error, skipped), Papers(jobIds, errors, podLogs),
            clock, polls, fates, lastSubmit)
    }

    // -------------------------------------------------------------- clock

    method ReadClock() returns (t: real)
      requires Held() && Shown()
      modifies `clock, `readings
      ensures Held() && Shown() && t == clock == old(clock) + w.drift(old(readings)) && readings == old(readings) + 1
      ensures Now() == old(Now()).(clock := clock)
    {
      hide Sound, World.DistinctNames;
      ClockMoves(p, w, jobs, Now(), clock + w.drift(readings), polls);
      clock, readings := clock + w.drift(readings), readings + 1;
      t := clock;
    }

    lemma Started()
      requires Shown() && readings >= 1
      ensures clock >= Drifted(w, 1)
    {
      DriftGrows(w, 1, readings);
    }

    /** A reading at the start of the session or of a pass. */
    method Look() returns (now: real)
      requires Valid()
      modifies `clock, `readings, `looks
      ensures Valid() && looks == old(looks) + 1 && now == clock == old(clock) + w.drift(old(readings))
      ensures Now() == old(Now()).(clock := clock)
    {
      hide Held, Shown;
      now := ReadClock();
      looks := looks + 1;
    }

    method Sleep()
      requires Valid()
      modifies `clock, `slept
      ensures Valid() && clock == old(clock) + 1.0 && slept == old(slept) + 1
      ensures Now() == old(Now()).(clock := clock)
    {
      hide Sound, Drifted, World.DistinctNames;
      ghost var before := Now();
      clock, slept := clock + 1.0, slept + 1;
      ClockMoves(p, w, jobs, before, clock, polls);
    }

    ghost function Numbers(): Census
      reads `queue, `submitted, `completed, `polls, `lastSubmit
    {
      Census(|queue|, |submitted|, |completed|, polls, lastSubmit)
    }

    // -------------------------------------------------------------- submitting

    method SkipInvalid(message: string)
      requires Held() && queue != [] && Validate(queue[0]).Some?
      requires |fates| < |jobs| && Message(w, jobs, |fates|, Skipped) == [message]
      modifies `queue, `skipped, `errors, `fates
      ensures queue == old(queue)[1..]
      ensures Held() && Now() == old(Unsubmitted(w, jobs, Now(), Skipped))
    {
      hide Sound, Validate, Message;
      UnsubmittedIsSound(p, w, jobs, Now(), Skipped);
      queue, fates := queue[1..], fates + [Skipped];
      skipped, errors := skipped + 1, errors + [message];
    }

    method RecordRejection(message: string)
      requires Held() && queue != [] && Validate(queue[0]).None? && !w.Accepts(|fates|)
      requires |fates| < |jobs| && Message(w, jobs, |fates|, Rejected) == [message]
      modifies `queue, `error, `errors, `fates
      ensures queue == old(queue)[1..]
      ensures Held() && Now() == old(Unsubmitted(w, jobs, Now(), Rejected))
    {
      hide Sound, Validate, Message;
      UnsubmittedIsSound(p, w, jobs, Now(), Rejected);
      queue, fates := queue[1..], fates + [Rejected];
      error, errors := error + 1, errors + [message];
    }

    method Enlist(i: nat)
      requires Held() && queue != [] && Validate(queue[0]).None?
      requires i == |fates| && w.Accepts(i) && |submitted| < p.maxParallel && clock >= Drifted(w, 1)
      modifies `queue, `submitted, `attempted, `jobIds, `fates, `lastSubmit
      ensures Held() && attempted == old(attempted) + 1 && |submitted| <= |old(submitted)| + 1
      ensures queue == old(queue)[1..]
      ensures Now() == Submitted(old(Now()), w.submit(i).value, i, clock)
    {
      hide Sound, Validate, World.DistinctNames;
      ghost var before := Now();
      SubmittedIsSound(p, w, jobs, Now(), clock);
      var name := w.submit(i).value;
      queue, fates, lastSubmit := queue[1..], fates + [Running], clock;
      submitted := submitted[name := Entry(i, clock)];
      jobIds, attempted := jobIds + [name], attempted + 1;
      assert Now().counters == CountHandled(before.counters, Running);
      hide CountHandled;
    }

    method RecordSubmission(i: nat)
      requires Valid() && queue != [] && Validate(queue[0]).None?
      requires i == |fates| && w.Accepts(i) && |submitted| < p.maxParallel
      modifies `queue, `submitted, `attempted, `jobIds, `clock, `readings, `fates, `lastSubmit
      ensures Valid() && clock == old(clock) + w.drift(old(readings))
      ensures queue == old(queue)[1..] && |submitted| <= |old(submitted)| + 1
      ensures Now() == Submitted(old(Now()), w.submit(i).value, i, clock)
    {
      hide Held, Shown, Validate, World.Accepts;
      var _ := ReadClock();
      Started();
      Enlist(i);
    }

    lemma Position()
      requires Held()
      ensures |jobs| - |queue| == |fates| && (queue != [] ==> |fates| < |jobs| && jobs[|fates|] == queue[0])
    {
    }

    /** Take one job off the queue: skip it, fail it or submit it. */
    method SubmitNext()
      requires Valid() && queue != [] && |submitted| < p.maxParallel
      modifies `queue, `submitted, `attempted, `jobIds, `clock, `readings, `skipped, `error, `errors, `fates, `lastSubmit
      ensures Valid() && clock >= old(clock) && |queue| == |old(queue)| - 1
      ensures |queue| + |submitted| <= |old(queue)| + |old(submitted)|
    {
      hide Held, Now, Validate, Ticking, World.Accepts, Message;
      Position();
      var job, i := queue[0], |jobs| - |queue|;
      var id := if job.id.Some? then job.id.value else "unknown";
      var problem := Validate(job);
      if problem.Some? {
        SkippedSaid(w, jobs, i, problem.value);
        SkipInvalid("Job " + id + ": " + problem.value);
      } else if w.Accepts(i) {
        RecordSubmission(i);
      } else {
        RejectedSaid(w, jobs, i);
        RecordRejection("Failed to submit job " + id);
      }
    }

    /** Submit until the queue is empty or the limit is reached. */
    method SubmitWhileRoom()
      requires Valid()
      modifies `queue, `submitted, `attempted, `jobIds, `clock, `readings, `skipped, `error, `errors, `fates, `lastSubmit
      ensures Valid() && clock >= old(clock)
      ensures queue == [] || |submitted| == p.maxParallel
      ensures Filled(p, old(Numbers()), Numbers())
    {
      hide Held, Ticking;
      assert |submitted| <= p.maxParallel by { InFlightBounded(); }
      while queue != [] && |submitted| < p.maxParallel
        invariant Valid() && clock >= old(clock) && |submitted| <= p.maxParallel
        invariant |queue| <= |old(queue)| && |queue| + |submitted| <= |old(queue)| + |old(submitted)|
        invariant |queue| == |old(queue)| ==> submitted == old(submitted) && lastSubmit == old(lastSubmit)
        decreases |queue|
      {
        SubmitNext();
        InFlightBounded();
      }
    }

    lemma InFlightBounded()
      requires Held()
      ensures |submitted| <= p.maxParallel
    {
    }

    // -------------------------------------------------------------- polling

    method Settle(name: string, f: Fate)
      requires Held() && name in submitted && submitted[name].job < |fates|
      requires submitted[name].job < |jobs| && f.Kind() in {KSucceeded, KFailed} && Earned(p, w, jobs, submitted[name].job, f)
      requires Witnessed(f, polls, clock - Drifted(w, 1))
      modifies `submitted, `completed, `success, `error, `errors, `podLogs, `fates
      ensures Held() && Now() == old(Settled(w, Now(), name, f))
    {
      hide Sound, Validate, Earned, World.DistinctNames;
      ghost var before := Now();
      SettledIsSound(p, w, jobs, Now(), name, f);
      fates := fates[submitted[name].job := f];
      if f.Completed? {
        success, podLogs := success + 1, podLogs[name := w.logs(name)];
      } else {
        var text := if f.Crashed? then "Job failed: " else if w.status(name, f.poll) == Raised then "Job error: " else "Job timeout: ";
        assert [text + name] == Complaint(w, name, f);
        error, errors := error + 1, errors + [text + name];
      }
      assert errors == before.papers.errors + Complaint(w, name, f);
      hide Complaint;
      submitted, completed := submitted - {name}, completed + {name};
      assert Now() == Settled(w, before, name, f);
      hide Now, Settled, CountSettled;
    }

    /** Look at one in-flight job. Past its deadline it leaves whatever the reply, even one that raises. */
    method PollOne(name: string) returns (ghost verdict: Option<Fate>)
      requires Valid() && name in submitted && submitted[name].job < |fates|
      modifies `submitted, `completed, `success, `error, `errors, `podLogs, `clock, `readings, `polls, `fates
      ensures Valid() && clock == old(clock) + w.drift(old(readings)) && polls == old(polls) + 1
      ensures PollSays(p, w, name, old(polls), clock - old(submitted[name].since), verdict)
      ensures var before := old(Now()).(clock := clock, polls := polls);
              Now() == if verdict.None? then before else Settled(w, before, name, verdict.value)
    {
      hide Sound, Earned, Shown, World.DistinctNames, Drifted, Witnessed;
      var now := ReadClock();
      ghost var seen := Now();
      var poll, elapsed, fate := polls, now - submitted[name].since, None;
      polls := polls + 1;
      ClockMoves(p, w, jobs, seen, now, polls);
      ghost var before := Now();
      match w.status(name, poll) {
        case Succeeded => fate := Some(Completed(poll));
        case Failed => fate := Some(Crashed(poll));
        case _ => if elapsed > p.timeoutPerJob { fate := Some(Expired(poll, elapsed)); }
      }
      verdict := fate;
      if fate.Some? {
        VerdictIsEarned(p, w, jobs, before, name, poll, elapsed, fate.value);
        Settle(name, fate.value);
      }
    }

    /** No in-flight job stays past its deadline, whatever the verdict was made of. */
    lemma StaysInTime(name: string, poll: nat, elapsed: real)
      requires PollSays(p, w, name, poll, elapsed, None)
      ensures elapsed <= p.timeoutPerJob
    {
    }

    /** No job in flight was past its deadline at time `t`. */
    ghost predicate NoneLate(t: real)
      reads `submitted
    {
      forall name | name in submitted :: submitted[name].since + p.timeoutPerJob >= t
    }

    /** Poll every in-flight job once, in whatever order; none that stays was past its deadline. */
    method PollAll()
      requires Valid()
      modifies this
      ensures Valid() && queue == old(queue) && clock >= old(clock)
      ensures looks == old(looks) && slept == old(slept) && Polled(old(Numbers()), Numbers()) && NoneLate(old(clock))
    {
      hide Sound, PollSays, Ticking, World.DistinctNames;
      var rest := submitted.Keys;
      while rest != {}
        invariant Valid() && queue == old(queue) && lastSubmit == old(lastSubmit) && clock >= old(clock)
        invariant looks == old(looks) && slept == old(slept) && polls + |rest| == old(polls) + |old(submitted)|
        invariant rest <= submitted.Keys && |submitted| <= |old(submitted)|
        invariant |submitted| + |completed| == |old(submitted)| + |old(completed)|
        invariant forall name | name in submitted && name !in rest :: submitted[name].since + p.timeoutPerJob >= old(clock)
      {
        var name :| name in rest;
        ghost var poll, entry := polls, submitted[name];
        RunsAt(p, w, jobs, Now(), name);
        LeavesOnce(p, w, jobs, Now(), name);
        ghost var verdict := PollOne(name);
        if verdict.None? { StaysInTime(name, poll, clock - entry.since); }
        rest := rest - {name};
      }
    }

    lemma JobsInTime(t: real)
      requires Held() && submitted != map[] && NoneLate(t)
      ensures lastSubmit + p.timeoutPerJob >= t
    {
      LateJobsLeave(p, w, jobs, Now(), t);
    }

    /** Wait a second if anything is in flight; the last deadline comes nearer by it. */
    method WaitIfBusy(ghost start: real, ghost now: real)
      requires Valid() && start <= now <= clock && NoneLate(now)
      modifies `clock, `slept
      ensures Valid() && slept <= old(slept) + 1 && clock >= old(clock)
      ensures submitted != map[] ==>
                Remaining(lastSubmit + p.timeoutPerJob - clock) < Remaining(lastSubmit + p.timeoutPerJob - start)
    {
      hide Held, Ticking, NoneLate, Remaining;
      if submitted != map[] {
        JobsInTime(now);
        Sleep();
        TimeRunsOut(lastSubmit + p.timeoutPerJob, start, clock);
      }
    }

    /** Submit and poll: the queue gets shorter, or the jobs in flight, or those in flight were all submitted before. */
    method SubmitAndPoll()
      requires Valid() && (queue != [] || submitted != map[])
      modifies this
      ensures Valid() && looks == old(looks) && slept == old(slept) && clock >= old(clock) && NoneLate(old(clock))
      ensures Advanced(p, old(Numbers()), Numbers())
    {
      assert p.maxParallel >= 1;
      hide Held, Ticking, NoneLate, Filled, Polled, Advanced;
      ghost var before := Numbers();
      SubmitWhileRoom();
      ghost var filled := Numbers();
      PollAll();
      FilledPolled(p, before, filled, Numbers());
    }

    /** A bound on the passes to come. */
    ghost function ToCome(): nat
      reads `queue, `submitted, `lastSubmit, `clock
    {
      Potential(p, |queue|, |submitted|, Left())
    }

    /** Time to the deadline of the last submission. */
    ghost function Left(): real
      reads `lastSubmit, `clock
    {
      lastSubmit + p.timeoutPerJob - clock
    }

    lemma LeftBounded()
      requires Held()
      ensures Left() <= p.timeoutPerJob
    {
    }

    /** The part of a pass after its time check: submit, poll, sleep. */
    method Work(ghost start: real)
      requires Valid() && (queue != [] || submitted != map[]) && start <= clock
      modifies this
      ensures Valid() && looks == old(looks) && slept <= old(slept) + 1
      ensures Advanced(p, old(Numbers()), Numbers())
      ensures ToCome() < Potential(p, old(|queue|), old(|submitted|), old(lastSubmit) + p.timeoutPerJob - start)
    {
      hide Held, Ticking, NoneLate, Remaining, Potential;
      ghost var now, left := clock, lastSubmit + p.timeoutPerJob - start;
      ghost var queued, inFlight := |queue|, |submitted|;
      SubmitAndPoll();
      WaitIfBusy(start, now);
      LeftBounded();
      PotentialFalls(p, queued, inFlight, left, |queue|, |submitted|, Left());
    }

    /** One pass of the loop; false once the session timeout has passed. */
    method Pass(sessionStart: real) returns (inTime: bool)
      requires Valid() && (queue != [] || submitted != map[])
      modifies this
      ensures Valid() && looks == old(looks) + 1 && slept <= old(slept) + 1
      ensures inTime <==> old(clock) + w.drift(old(readings)) - sessionStart <= p.timeoutSession
      ensures !inTime ==> Now() == old(Now()).(clock := clock) && clock == old(clock) + w.drift(old(readings)) && slept == old(slept)
      ensures inTime ==> ToCome() < old(ToCome()) && Advanced(p, old(Numbers()), Numbers())
    {
      hide Held, Ticking, Potential, Advanced;
      var now := Look();
      if now - sessionStart > p.timeoutSession { return false; }
      Work(old(clock));
      inTime := true;
    }

    /**
     * Pass after pass, until nothing is left, or everything is submitted and nobody waits, or the session timeout has passed.
     * No session timeout is needed to end it: each pass lowers the bound on those to come.
     */
    method Loop(sessionStart: real) returns (timedOut: bool)
      requires Valid() && looks == 1 && slept == 0 && polls == 0
      modifies this
      ensures Valid() && slept < looks <= old(ToCome()) + 2
      ensures timedOut ==> (queue != [] || submitted != map[]) && looks >= 2 && Busy(p, Numbers(), looks - 2)
                           && clock - sessionStart > p.timeoutSession
      ensures !timedOut ==> Busy(p, Numbers(), looks - 1) && queue == [] && (p.wait ==> submitted == map[])
    {
      hide Held, Ticking, Potential, Advanced, Busy;
      BusyAtStart();
      while queue != [] || submitted != map[]
        invariant Valid() && slept < looks && looks + ToCome() <= old(ToCome()) + 1 && Busy(p, Numbers(), looks - 1)
        decreases ToCome()
      {
        ghost var before, passes := Numbers(), looks - 1;
        RoomForOne();
        var inTime := Pass(sessionStart);
        if !inTime {
          assert Numbers() == before;
          return true;
        }
        BusyPass(p, before, Numbers(), passes);
        if !p.wait && queue == [] { break; }
      }
      timedOut := false;
    }

    lemma BusyAtStart()
      requires polls == 0
      ensures Busy(p, Numbers(), 0)
    {
    }

    lemma RoomForOne()
      requires Held()
      ensures p.maxParallel >= 1
    {
    }

    method RunAll() returns (r: RunResult, ghost timedOut: bool)
      requires Valid() && Now() == FreshBooks(jobs) && Clockwork() == Timing(0, 0, 0, 0)
      modifies this
      ensures Accounts(p, w, jobs, r, fates, timedOut, Clockwork())
      ensures r.exitCode == 2 <==> r.attemptedJobs == 0 && jobs != []
      ensures r.exitCode == 0 <==> r.errorJobs == 0 && (r.attemptedJobs > 0 || jobs == [])
      ensures r.exitCode <= 2
    {
      hide Sound, Accounts, World.DistinctNames, Potential, Passes, Busy;
      var sessionStart := Look();
      assert sessionStart == Drifted(w, 1);
      hide Drifted;
      LeftBounded();
      PotentialBounded(p, |jobs|, |queue|, |submitted|, Left());
      var late := Loop(sessionStart);
      timedOut := late;
      ghost var last := Now();
      BusyTimes(p, Numbers(), looks, late);
      if late { errors := errors + ["Session timeout exceeded"]; }
      var exitCode := 0;
      if error > 0 { exitCode := 1; }
      if attempted == 0 && |jobs| > 0 { exitCode := 2; }
      r := RunResult(|jobs|, attempted, success, error, skipped, exitCode, errors, jobIds, podLogs);
      SoundAccounts(p, w, jobs, last, r, timedOut, Clockwork());
    }
  }

  // ---------------------------------------------------------------- the whole run

  method Run(p: Settings, w: World, loaded: Option<seq<Job>>)
    returns (r: RunResult, ghost fates: seq<Fate>, ghost timedOut: bool, ghost t: Timing)
    requires p.maxParallel >= 1 && w.DistinctNames()
    ensures loaded.None? ==> r == RunResult(0, 0, 0, 0, 0, 2, ["Failed to load jobs"], [], map[])
    ensures loaded.Some? ==>
              && Accounts(p, w, loaded.value, r, fates, timedOut, t)
              && (r.exitCode == 2 <==> r.attemptedJobs == 0 && loaded.value != [])
              && (r.exitCode == 0 <==> r.errorJobs == 0 && (r.attemptedJobs > 0 || loaded.value == []))
              && r.exitCode <= 2
  {
    hide Sound, Accounts, World.DistinctNames;
    fates, timedOut, t := [], false, Timing(0, 0, 0, 0);
    if loaded.None? {
      r := RunResult(0, 0, 0, 0, 0, 2, ["Failed to load jobs"], [], map[]);
      return;
    }
    var s := new Session(p, w, loaded.value);
    FreshIsSound(p, w, loaded.value);
    r, timedOut := s.RunAll();
    fates, t := s.fates, s.Clockwork();
  }

  // ---------------------------------------------------------------- what the result says

  /** A job is valid with an id and a dictionary for its configuration; the first thing missing is what is said. */
  lemma ValidateExactly(job: Job)
    ensures Validate(job).None? <==> job.id.Some? && job.config == Some(Dict)
    ensures job.id.None? ==> Validate(job) == Some("Missing required key: job_id")
    ensures job.id.Some? && job.config.None? ==> Validate(job) == Some("Missing required key: config")
    ensures job.id.Some? && job.config == Some(OtherValue) ==> Validate(job) == Some("config must be a dict")
  {
  }

  /** Which handled jobs are skipped and which rejected: malformed ones, and those the cluster gave no name or an empty one. */
  lemma UnsubmittedExactly(p: Settings, w: World, jobs: seq<Job>, r: RunResult, fates: seq<Fate>, timedOut: bool, t: Timing, i: nat)
    requires Accounts(p, w, jobs, r, fates, timedOut, t) && i < |fates|
    ensures var wellFormed := jobs[i].id.Some? && jobs[i].config == Some(Dict);
            && (fates[i] == Skipped <==> !wellFormed)
            && (fates[i] == Rejected <==> wellFormed && (w.submit(i) == None || w.submit(i) == Some("")))
  {
    ValidateExactly(jobs[i]);
    assert Earned(p, w, jobs, i, fates[i]);
    hide Validate;
  }

  /** Nothing is lost: every job of the file is queued, in flight, succeeded, in error or skipped, and only one of these. */
  lemma JobsConserved(p: Settings, w: World, jobs: seq<Job>, r: RunResult, fates: seq<Fate>, timedOut: bool, t: Timing)
    requires Accounts(p, w, jobs, r, fates, timedOut, t)
    ensures r.totalJobs == (|jobs| - |fates|) + Count(fates, KRunning) + r.successJobs + r.errorJobs + r.skippedJobs
  {
    KindsPartition(fates);
  }

  function Times(n: int, d: Duration): real { n as real * d }

  lemma TimesGrow(m: int, n: int, d: Duration)
    requires m <= n
    ensures Times(m, d) <= Times(n, d)
  {
    assert m as real <= n as real;
  }

  /** More than a session of `n` jobs can take when no reading moves the clock by more than `d`. */
  function Budget(p: Settings, n: nat, d: Duration): real {
    var passes := Passes(p, n) + 1;
    Times(passes + n + p.maxParallel * passes, d) + passes as real
  }

  /** The session timeout leaves room for every pass the jobs can need. */
  ghost predicate Ample(p: Settings, w: World, n: nat, d: Duration) {
    (forall k :: w.drift(k) <= d) && Budget(p, n, d) <= p.timeoutSession
  }

  lemma {:induction false} DriftBounded(w: World, n: nat, d: Duration)
    requires n >= 1 && forall k :: w.drift(k) <= d
    ensures Drifted(w, n) - Drifted(w, 1) <= Times(n - 1, d)
  {
    if n > 1 {
      DriftBounded(w, n - 1, d);
      assert Times(n - 1, d) == Times(n - 2, d) + d;
    }
  }

  lemma AttemptedBounded(p: Settings, w: World, jobs: seq<Job>, r: RunResult, fates: seq<Fate>, timedOut: bool, t: Timing)
    requires Accounts(p, w, jobs, r, fates, timedOut, t)
    ensures r.attemptedJobs <= |jobs|
  {
    KindsPartition(fates);
  }

  lemma ReadingsBounded(p: Settings, n: nat, t: Timing, attempted: nat, left: nat)
    requires Timed(p, n, t, attempted, left) && attempted <= n && p.maxParallel >= 1
    ensures var passes := Passes(p, n) + 1;
            1 <= t.readings <= passes + n + p.maxParallel * passes + 1 && t.slept <= passes
  {
    hide Passes;
    MulOrder(t.looks - 1, Passes(p, n) + 1, p.maxParallel);
  }

  lemma ElapsedBounded(p: Settings, w: World, n: nat, t: Timing, attempted: nat, left: nat, d: Duration)
    requires Timed(p, n, t, attempted, left) && attempted <= n && p.maxParallel >= 1
    requires forall k :: w.drift(k) <= d
    ensures Elapsed(w, t) <= Budget(p, n, d)
  {
    ReadingsBounded(p, n, t, attempted, left);
    hide Timed, Passes, Drifted, Times;
    DriftBounded(w, t.readings, d);
    var passes := Passes(p, n) + 1;
    TimesGrow(t.readings - 1, passes + n + p.maxParallel * passes, d);
  }

  /** With ample time a run is never cut short: its clock stays within the session timeout. */
  lemma AmpleTime(p: Settings, w: World, jobs: seq<Job>, r: RunResult, fates: seq<Fate>, timedOut: bool, t: Timing, d: Duration)
    requires Accounts(p, w, jobs, r, fates, timedOut, t) && Ample(p, w, |jobs|, d) && p.maxParallel >= 1
    ensures Elapsed(w, t) <= p.timeoutSession && !timedOut
  {
    hide Counted, Prefix, Timed, Witnessed, Elapsed, Budget, Count;
    AttemptedBounded(p, w, jobs, r, fates, timedOut, t);
    ElapsedBounded(p, w, |jobs|, t, r.attemptedJobs, |jobs| - |fates|, d);
  }

  /** A waiting run settles every job if its clock stays within the session timeout, and it does if that is ample. */
  lemma EveryJobSettled(p: Settings, w: World, jobs: seq<Job>, r: RunResult, fates: seq<Fate>, timedOut: bool, t: Timing, d: Duration)
    requires Accounts(p, w, jobs, r, fates, timedOut, t) && p.wait && p.maxParallel >= 1
    requires Ample(p, w, |jobs|, d) || Elapsed(w, t) <= p.timeoutSession
    ensures |fates| == |jobs| && forall i :: 0 <= i < |jobs| ==> !fates[i].Running?
    ensures r.totalJobs == r.successJobs + r.errorJobs + r.skippedJobs
  {
    if Ample(p, w, |jobs|, d) { AmpleTime(p, w, jobs, r, fates, timedOut, t, d); }
    hide Elapsed, Ample, Timed, Witnessed;
    CountZero(fates, KRunning);
    KindsPartition(fates);
  }

  /** One of the first `polls` polls of job `i` reported success. */
  ghost predicate SucceededInPoll(w: World, i: nat, polls: nat) {
    w.Accepts(i) && exists poll :: 0 <= poll < polls && w.status(w.submit(i).value, poll) == Succeeded
  }

  /** Such a run ends without errors exactly when every valid job completed ... */
  lemma CleanExit(p: Settings, w: World, jobs: seq<Job>, r: RunResult, fates: seq<Fate>, timedOut: bool, t: Timing, d: Duration)
    requires Accounts(p, w, jobs, r, fates, timedOut, t) && p.wait && p.maxParallel >= 1
    requires Ample(p, w, |jobs|, d) || Elapsed(w, t) <= p.timeoutSession
    ensures |fates| == |jobs|
    ensures r.errorJobs == 0 <==> forall i :: 0 <= i < |jobs| ==> fates[i].Skipped? || fates[i].Completed?
    ensures r.errorJobs == 0 ==> forall i :: 0 <= i < |jobs| && Validate(jobs[i]).None? ==> SucceededInPoll(w, i, t.polls)
  {
    EveryJobSettled(p, w, jobs, r, fates, timedOut, t, d);
    CountZero(fates, KRejected);
    CountZero(fates, KFailed);
    CountZero(fates, KRunning);
    hide Count, Validate, Elapsed, Ample, Timed;
    forall i | 0 <= i < |jobs| && r.errorJobs == 0 && Validate(jobs[i]).None? ensures SucceededInPoll(w, i, t.polls) {
      assert Earned(p, w, jobs, i, fates[i]) && fates[i].Completed?;
      assert Witnessed(fates[i], t.polls, Elapsed(w, t));
    }
  }

  /** ... and of any run, the attempted jobs are the valid ones among those handled that the cluster accepted. */
  lemma AttemptedExactly(p: Settings, w: World, jobs: seq<Job>, r: RunResult, fates: seq<Fate>, timedOut: bool, t: Timing)
    requires Accounts(p, w, jobs, r, fates, timedOut, t)
    ensures r.attemptedJobs == 0 <==> forall i :: 0 <= i < |fates| ==> Validate(jobs[i]).Some? || !w.Accepts(i)
  {
    CountZero(fates, KSucceeded);
    CountZero(fates, KFailed);
    CountZero(fates, KRunning);
    hide Count, Validate, World.Accepts;
    forall i | 0 <= i < |fates|
      ensures fates[i].Kind() !in {KRunning, KSucceeded, KFailed} <==> Validate(jobs[i]).Some? || !w.Accepts(i)
    {
      assert Earned(p, w, jobs, i, fates[i]);
    }
  }
}
