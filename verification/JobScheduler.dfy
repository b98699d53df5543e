/**
 The test job scheduler of tools/run_tests/jobset.py and the result cache of
 tools/run_tests/run_tests.py.

 The outside is a `World` with fixed answers: the exit code that a process reports at each poll, the
 answers of the cancellation check, the time between readings of the clock and the length of each wait.
 The clock never goes back and moves on every wait.  The files that are hashed do not change.
 */
module JobScheduler {
  import opened Common

  datatype JobState = Running | Success | Failure | Killed

  /** JobSpec.identity(): it spells out the three fields, so it determines the hashed files. */
  datatype Identity = Identity(cmdline: seq<string>, environ: map<string, string>, hashTargets: seq<string>)

  datatype JobSpec = JobSpec(id: Identity, timeoutSeconds: int)

  /** A job passed once with this identity, when its files had this hash. */
  type Pass = (Identity, string)

  /** What happens outside: processes are numbered in the order in which they are started. */
  datatype Answers = Answers(exit: (nat, nat) -> Option<int>,  // by process and number of polls before
                             cancel: nat -> bool,              // the n-th answer of check_cancelled
                             delay: nat -> nat,                // the time before the n-th reading of the clock
                             pause: nat -> nat,                // how long the n-th wait takes, less one
                             sha: seq<string> -> string,
                             epoch: int)                       // the clock at first

  /** The first n polls of a process found it running. */
  ghost predicate Silent(answers: Answers, pid: nat, n: nat) {
    forall k: nat :: k < n ==> answers.exit(pid, k).None?
  }

  /** A process was polled n times, and at the last poll it reported the code. */
  ghost predicate Exited(answers: Answers, pid: nat, n: nat, code: int) {
    n > 0 && Silent(answers, pid, n - 1) && answers.exit(pid, n - 1) == Some(code)
  }

  /** A process that was polled n times is in the state that it reported; a killed one was running. */
  ghost predicate Reported(answers: Answers, pid: nat, n: nat, state: JobState) {
    match state
    case Success => Exited(answers, pid, n, 0)
    case Failure => exists code :: code != 0 && Exited(answers, pid, n, code)
    case _ => Silent(answers, pid, n)
  }

  lemma KilledIsReported(answers: Answers, pid: nat, n: nat)
    requires Reported(answers, pid, n, Running)
    ensures Reported(answers, pid, n, Killed)
  {
  }

  /** One of the cancellation checks from number `first` up to `last` said yes. */
  ghost predicate SaidYes(answers: Answers, first: nat, last: nat) {
    exists k: nat :: first <= k < last && answers.cancel(k)
  }

  /** The time spent before and between the first n readings of the clock. */
  function Delays(answers: Answers, n: nat): nat {
    if n == 0 then 0 else Delays(answers, n - 1) + answers.delay(n - 1)
  }

  /** The time spent in the first n waits. */
  function Pauses(answers: Answers, n: nat): nat {
    if n == 0 then 0 else Pauses(answers, n - 1) + answers.pause(n - 1) + 1
  }

  /** A moment, by how often the clock was read and how often the scheduler waited up to then. */
  datatype Moment = Moment(readings: nat, waits: nat)

  predicate Before(m: Moment, n: Moment) {
    m.readings <= n.readings && m.waits <= n.waits
  }

  function ClockAt(answers: Answers, m: Moment): int {
    answers.epoch + Delays(answers, m.readings) + Pauses(answers, m.waits)
  }

  class World {
    const answers: Answers
    var readings: nat
    var waits: nat
    var asks: nat
    var launched: seq<JobSpec>  // the processes started, in order
    ghost var passed: set<Pass>

    function At(): Moment
      reads this`readings, this`waits
    {
      Moment(readings, waits)
    }

    function Now(): int
      reads this`readings, this`waits
    {
      ClockAt(answers, At())
    }

    constructor (answers: Answers)
      ensures this.answers == answers && Now() == answers.epoch && asks == 0 && launched == [] && passed == {}
    {
      this.answers := answers;
      readings, waits, asks, launched := 0, 0, 0, [];
      passed := {};
    }

    /** time.time(). */
    method Time() returns (t: int)
      modifies this`readings
      ensures t == Now() == old(Now()) + answers.delay(old(readings)) && readings == old(readings) + 1
    {
      readings := readings + 1;
      t := Now();
    }

    /** signal.pause() or time.sleep(0.1): returns after some time. */
    method Wait()
      modifies this`waits
      ensures Now() == old(Now()) + answers.pause(old(waits)) + 1 && waits == old(waits) + 1
    {
      waits := waits + 1;
    }

    /** The check_cancelled callback. */
    method CheckCancelled() returns (b: bool)
      modifies this`asks
      ensures b == answers.cancel(old(asks)) && asks == old(asks) + 1
    {
      b := answers.cancel(asks);
      asks := asks + 1;
    }

    /** subprocess.Popen. */
    method Popen(spec: JobSpec) returns (pid: nat)
      modifies this`launched
      ensures pid == |old(launched)| && launched == old(launched) + [spec]
    {
      pid := |launched|;
      launched := launched + [spec];
    }
  }

  // ---------- TestCache ----------

  datatype Entry = Entry(id: Identity, hash: string)

  /** dict((o['cmdline'], o['hash']) for o in exdump): later entries win. */
  function ParseEntries(d: seq<Entry>): map<Identity, string> {
    if d == [] then map[] else ParseEntries(d[..|d| - 1])[d[|d| - 1].id := d[|d| - 1].hash]
  }

  /** d lists the items of m, in some order. */
  ghost predicate IsDump(d: seq<Entry>, m: map<Identity, string>) {
    && |d| == |m|
    && (forall e <- d :: e.id in m && m[e.id] == e.hash)
    && (forall id <- m :: Entry(id, m[id]) in d)
  }

  lemma {:induction false} ParsedEntry(d: seq<Entry>, id: Identity)
    ensures id in ParseEntries(d) ==> Entry(id, ParseEntries(d)[id]) in d
    ensures (exists e <- d :: e.id == id) ==> id in ParseEntries(d)
  {
    if d != [] {
      var before := d[..|d| - 1];
      ParsedEntry(before, id);
      assert d == before + [d[|d| - 1]];
    }
  }

  /** Saving and loading the cache, in whatever order the dictionary is walked, loses nothing. */
  lemma ParseOfDump(d: seq<Entry>, m: map<Identity, string>)
    requires IsDump(d, m)
    ensures ParseEntries(d) == m
  {
    forall id
      ensures id in ParseEntries(d) <==> id in m
      ensures id in m ==> ParseEntries(d)[id] == m[id]
    {
      ParsedEntry(d, id);
      if id in m {
        assert Entry(id, m[id]) in d;
      }
    }
  }

  /** A TestCache, or a NoCache when `stores` is false: that one never skips and keeps nothing. */
  class TestCache {
    const stores: bool
    var lastSuccessfulRun: map<Identity, string>
    const useCacheResults: bool
    var lastSave: int
    var file: Option<seq<Entry>>  // .run_tests_cache

    /** Every entry, in memory or on file, is about a job that passed. */
    ghost predicate Sound(passed: set<Pass>)
      reads this
    {
      && (forall id <- lastSuccessfulRun :: (id, lastSuccessfulRun[id]) in passed)
      && (file.Some? ==> forall e <- file.value :: (e.id, e.hash) in passed)
    }

    constructor (stores: bool, useCacheResults: bool, now: int, file: Option<seq<Entry>>)
      ensures this.stores == stores && this.useCacheResults == useCacheResults && this.file == file && lastSuccessfulRun == map[]
    {
      this.stores, this.useCacheResults := stores, useCacheResults;
      lastSuccessfulRun := map[];
      lastSave := now;
      this.file := file;
    }

    /** The cache answers for this identity and hash. */
    ghost predicate Holds(id: Identity, hash: string)
      reads this
    {
      stores && useCacheResults && id in lastSuccessfulRun && lastSuccessfulRun[id] == hash
    }

    method ShouldRun(id: Identity, hash: string) returns (b: bool)
      ensures b <==> !Holds(id, hash)
    {
      if !stores || id !in lastSuccessfulRun { return true; }
      if lastSuccessfulRun[id] != hash { return true; }
      if !useCacheResults { return true; }
      return false;
    }

    method Finished(world: World, id: Identity, hash: string)
      requires Sound(world.passed) && (id, hash) in world.passed
      modifies this, world`readings
      ensures lastSuccessfulRun == if stores then old(lastSuccessfulRun)[id := hash] else old(lastSuccessfulRun)
      ensures Sound(world.passed)
      ensures world.Now() >= old(world.Now()) && old(world.readings) <= world.readings <= old(world.readings) + 2
    {
      if !stores { return; }
      lastSuccessfulRun := lastSuccessfulRun[id := hash];
      var t := world.Time();
      if t - lastSave > 1 {
        Save(world);
      }
    }

    method Dump() returns (d: seq<Entry>)
      ensures IsDump(d, lastSuccessfulRun)
    {
      d := [];
      var m := lastSuccessfulRun;
      var todo := m.Keys;
      while todo != {}
        invariant todo <= m.Keys
        invariant |d| + |todo| == |m|
        invariant forall e <- d :: e.id in m && m[e.id] == e.hash
        invariant forall id <- m :: id !in todo ==> Entry(id, m[id]) in d
        decreases |todo|
      {
        var id :| id in todo;
        d := d + [Entry(id, m[id])];
        todo := todo - {id};
      }
    }

    method Parse(d: seq<Entry>)
      modifies this`lastSuccessfulRun
      ensures lastSuccessfulRun == ParseEntries(d)
    {
      lastSuccessfulRun := map[];
      for i := 0 to |d|
        invariant lastSuccessfulRun == ParseEntries(d[..i])
      {
        assert d[..i + 1][..i] == d[..i];
        lastSuccessfulRun := lastSuccessfulRun[d[i].id := d[i].hash];
      }
      assert d[..|d|] == d;
    }

    method Save(world: World)
      modifies this`file, this`lastSave, world`readings
      ensures file.Some? && IsDump(file.value, lastSuccessfulRun)
      ensures old(Sound(world.passed)) ==> Sound(world.passed)
      ensures world.Now() >= old(world.Now()) && world.readings == old(world.readings) + 1
    {
      var d := Dump();
      file := Some(d);
      lastSave := world.Time();
    }

    /** Loading keeps the cache sound, and a saved cache comes back as it was. */
    method MaybeLoad(ghost passed: set<Pass>)
      requires Sound(passed)
      modifies this`lastSuccessfulRun
      ensures Sound(passed)
      ensures file.None? ==> lastSuccessfulRun == old(lastSuccessfulRun)
      ensures file.Some? && IsDump(file.value, old(lastSuccessfulRun)) ==>
                lastSuccessfulRun == old(lastSuccessfulRun)
    {
      if file.Some? {
        ghost var m := lastSuccessfulRun;
        Parse(file.value);
        if IsDump(file.value, m) { ParseOfDump(file.value, m); }
        forall id <- lastSuccessfulRun ensures (id, lastSuccessfulRun[id]) in passed {
          ParsedEntry(file.value, id);
        }
      }
    }
  }

  // ---------- Job ----------

  class Job {
    const spec: JobSpec
    const binHash: Option<string>
    const pid: nat
    const start: int
    var polls: nat
    var state: JobState
    ghost const born: Moment  // when the process was started
    ghost var seen: Moment    // when it was last polled

    /** The state is what the process said when it was polled. */
    ghost predicate Honest(answers: Answers)
      reads this
    {
      Reported(answers, pid, polls, state)
    }

    constructor (spec: JobSpec, binHash: Option<string>, pid: nat, start: int, ghost born: Moment)
      ensures this.spec == spec && this.binHash == binHash && this.pid == pid && this.start == start && this.born == born
      ensures state == Running && polls == 0
    {
      this.spec, this.binHash, this.pid, this.start := spec, binHash, pid, start;
      polls, state := 0, Running;
      this.born, seen := born, born;
    }

    /** The state after a poll at the time `now`. */
    function Polled(answers: Answers, now: int): JobState
      reads this
    {
      match answers.exit(pid, polls)
      case Some(code) => if code == 0 then Success else Failure
      case None => if now - start > spec.timeoutSeconds then Killed else Running
    }

    /** Job.state(): poll once. */
    method State(world: World, cache: TestCache) returns (st: JobState)
      requires cache.Sound(world.passed) && Honest(world.answers) && Timed(this, world.At())
      modifies this`state, this`polls, this`seen, world`readings, world`passed, cache
      ensures st == state && cache.Sound(world.passed) && Honest(world.answers) && Timed(this, world.At())
      ensures world.Now() >= old(world.Now()) && world.readings >= old(world.readings)
      ensures world.readings <= old(world.readings) + (polls - old(polls)) + if old(state) == Running && state == Success then 2 else 0
      ensures old(state) != Running ==> state == old(state) && polls == old(polls) && seen == old(seen)
      ensures old(state) == Running ==>
                && polls == old(polls) + 1 && seen == Moment(old(world.readings) + 1, world.waits)
                && (state == Killed ==> TimedOut(this, world.answers))
      ensures state == Running ==> old(world.Now()) <= start + spec.timeoutSeconds && Asked(this, world.waits)
      ensures old(state) == Running ==> state == old(Polled(world.answers, world.Now() + world.answers.delay(world.readings)))
      ensures old(state) == Running && state == Success ==>
                && world.passed == old(world.passed) + PassOf(this)
                && cache.lastSuccessfulRun == Recorded(old(cache.lastSuccessfulRun), this, cache.stores)
      ensures !(old(state) == Running && state == Success) ==>
                world.passed == old(world.passed) && cache.lastSuccessfulRun == old(cache.lastSuccessfulRun)
    {
      hide ClockAt, TestCache.Sound;
      if state == Running {
        var code := world.answers.exit(pid, polls);
        polls := polls + 1;
        var t := world.Time();
        seen := world.At();
        assert Silent(world.answers, pid, polls - 1);
        if code.Some? {
          assert Exited(world.answers, pid, polls, code.value);
          if code.value != 0 {
            state := Failure;
          } else {
            state := Success;
            Record(world, cache);
          }
        } else if t - start > spec.timeoutSeconds {
          Kill();
        }
        assert state == old(Polled(world.answers, t));
      }
      st := state;
    }

    /** update_cache.finished(...). */
    method Record(world: World, cache: TestCache)
      requires cache.Sound(world.passed)
      modifies world`readings, world`passed, cache
      ensures cache.Sound(world.passed) && world.Now() >= old(world.Now())
      ensures old(world.readings) <= world.readings <= old(world.readings) + 2
      ensures world.passed == old(world.passed) + PassOf(this)
      ensures cache.lastSuccessfulRun == Recorded(old(cache.lastSuccessfulRun), this, cache.stores)
    {
      if binHash.Some? {
        world.passed := world.passed + {(spec.id, binHash.value)};
        cache.Finished(world, spec.id, binHash.value);
      }
    }

    method Kill()
      modifies this`state
      ensures state == if old(state) == Running then Killed else old(state)
    {
      if state == Running {
        state := Killed;
      }
    }
  }

  // ---------- Jobset ----------

  /** What happened to a spec handed to start(). */
  datatype Outcome = Started(job: Job) | Skipped(hash: string)

  /** A spec may be skipped only if a job of the same identity passed with the same inputs. */
  ghost predicate SkipJustified(spec: JobSpec, hash: string, answers: Answers, passed: set<Pass>) {
    spec.id.hashTargets != [] && hash == answers.sha(spec.id.hashTargets) && (spec.id, hash) in passed
  }

  /** The entries of a cache that records the success of a job. */
  function Recorded(m: map<Identity, string>, job: Job, won: bool): map<Identity, string> {
    if won && job.binHash.Some? then m[job.spec.id := job.binHash.value] else m
  }

  /** The cache would answer for a spec, by these entries and the files as they are. */
  predicate HeldBy(m: map<Identity, string>, spec: JobSpec, answers: Answers) {
    spec.id.hashTargets != [] && spec.id in m && m[spec.id] == answers.sha(spec.id.hashTargets)
  }

  predicate Hashed(j: Job, answers: Answers) {
    j.binHash == if j.spec.id.hashTargets == [] then None else Some(answers.sha(j.spec.id.hashTargets))
  }

  /** The entries are those that were there at first, but for what the good jobs have recorded. */
  ghost predicate Traced(good: set<Job>, first: map<Identity, string>, m: map<Identity, string>, answers: Answers, stores: bool) {
    && (forall id <- m :: (id in first && first[id] == m[id]) || exists j <- good :: (id, m[id]) in PassOf(j))
    && (forall id <- first :: first[id] == answers.sha(id.hashTargets) ==> id in m && m[id] == first[id])
    && (stores ==> forall j <- good :: j.binHash.Some? ==> j.spec.id in m && m[j.spec.id] == j.binHash.value)
  }

  lemma TracedRecord(good: set<Job>, first: map<Identity, string>, m: map<Identity, string>, answers: Answers, stores: bool, job: Job)
    requires Traced(good, first, m, answers, stores) && forall j <- good + {job} :: Hashed(j, answers)
    ensures Traced(good + {job}, first, Recorded(m, job, stores), answers, stores)
  {
    var m', good' := Recorded(m, job, stores), good + {job};
    forall id <- m' ensures (id in first && first[id] == m'[id]) || exists j <- good' :: (id, m'[id]) in PassOf(j) {
      if id !in m || m'[id] != m[id] {
        assert job in good' && (id, m'[id]) in PassOf(job);
      } else if !(id in first && first[id] == m[id]) {
        var j :| j in good && (id, m[id]) in PassOf(j);
        assert j in good';
      }
    }
  }

  /** What a job adds to the passes by a success. */
  function PassOf(job: Job): set<Pass> {
    if job.binHash.Some? then {(job.spec.id, job.binHash.value)} else {}
  }

  /** How often some jobs were polled, together. */
  ghost function TotalPolls(jobs: set<Job>): nat
    reads jobs`polls
  {
    if jobs == {} then 0 else
      var j :| j in jobs;
      j.polls + TotalPolls(jobs - {j})
  }

  lemma {:induction false} TotalOne(jobs: set<Job>, j: Job)
    requires j in jobs
    ensures TotalPolls(jobs) == j.polls + TotalPolls(jobs - {j})
  {
    var k :| k in jobs && TotalPolls(jobs) == k.polls + TotalPolls(jobs - {k});
    if k != j {
      TotalOne(jobs - {k}, j);
      TotalOne(jobs - {j}, k);
      assert jobs - {k} - {j} == jobs - {j} - {k};
    }
  }

  lemma {:induction false} TotalSplit(jobs: set<Job>, part: set<Job>)
    requires part <= jobs
    ensures TotalPolls(jobs) == TotalPolls(part) + TotalPolls(jobs - part)
  {
    if part == {} {
      assert jobs - part == jobs;
    } else {
      var j :| j in part;
      TotalOne(part, j);
      TotalOne(jobs, j);
      TotalSplit(jobs - {j}, part - {j});
      assert jobs - {j} - (part - {j}) == jobs - part;
    }
  }

  lemma TotalMore(jobs: set<Job>, j: Job)
    requires j !in jobs
    ensures TotalPolls(jobs + {j}) == TotalPolls(jobs) + j.polls
  {
    TotalOne(jobs + {j}, j);
    assert jobs + {j} - {j} == jobs;
  }

  /** The counters agree with the sets: every started job is running or was collected. */
  ghost predicate Tallied(running: set<Job>, started: set<Job>, bad: set<Job>, maxjobs: int, completed: nat, failures: nat, pending: nat) {
    && 1 <= maxjobs && |running| <= maxjobs
    && running <= started && |started| == completed + |running|
    && bad <= started && bad !! running && failures == |bad| + pending
  }

  /** The sets agree with the jobs: no collected job was still running, and the bad ones are those that
      did not succeed.  After a cancellation every job still listed has been killed or has failed; before
      it all of them run. */
  ghost predicate Sorted(running: set<Job>, started: set<Job>, bad: set<Job>, cancelled: bool)
    reads started`state
  {
    && (forall j <- started :: j !in running ==> j.state != Running && (j in bad <==> j.state != Success))
    && (forall j <- started :: j in running ==> j.state != Success && (cancelled <==> j.state != Running))
  }

  /** Sorted, for all jobs but one that has ended and is not collected yet. */
  ghost predicate SortedBut(running: set<Job>, started: set<Job>, bad: set<Job>, cancelled: bool, dead: Job)
    reads started`state
  {
    && dead in running && dead in started && dead !in bad && dead.state != Running
    && (forall j <- started :: j !in running ==> j.state != Running && (j in bad <==> j.state != Success))
    && (forall j <- started :: j in running && j != dead ==> j.state != Success && (cancelled <==> j.state != Running))
  }

  /** Every job has a process of its own, started for its spec. */
  ghost predicate Launched(started: set<Job>, first: nat, launched: seq<JobSpec>) {
    && |launched| == first + |started|
    && (forall j <- started :: first <= j.pid < |launched| && launched[j.pid] == j.spec)
    && (forall j, k :: j in started && k in started && j != k ==> j.pid != k.pid)
  }

  /** A job is in the state that its process reported, or was killed after a cancellation or because its
      time was up. */
  ghost predicate Explained(started: set<Job>, answers: Answers, cancelled: bool, at: Moment)
    reads started
  {
    forall j <- started :: ListedAt(j, answers, cancelled, at)
  }

  /** A job was started at the time that the clock then showed, after the moment `first`. */
  ghost predicate Began(j: Job, answers: Answers, first: Moment) {
    j.start == ClockAt(answers, j.born) && Before(first, j.born) && first.readings < j.born.readings
  }

  /** A job was polled after it was started, and at least once before every wait since then. */
  ghost predicate Timed(j: Job, at: Moment)
    reads j
  {
    && Before(j.born, at) && (j.state == Running ==> j.polls >= at.waits - j.born.waits)
    && (j.polls > 0 ==> Before(j.born, j.seen) && Before(j.seen, at) && Asked(j, j.seen.waits))
  }

  /** A job was polled more often than the scheduler waited from the start of the job to wait number n. */
  ghost predicate Asked(j: Job, n: nat)
    reads j`polls
  {
    j.polls > n - j.born.waits
  }

  /** At the last poll of a job its time was up. */
  ghost predicate TimedOut(j: Job, answers: Answers)
    reads j`polls, j`seen
  {
    j.polls > 0 && ClockAt(answers, j.seen) - j.start > j.spec.timeoutSeconds
  }

  /** Whatever passed was known to pass or belongs to a job that was collected with success. */
  ghost predicate Accountable(started: set<Job>, running: set<Job>, bad: set<Job>, known: set<Pass>, passed: set<Pass>) {
    forall p <- passed :: p in known || exists j <- started :: j !in running && j !in bad && p in PassOf(j)
  }

  /** What is known of the jobs that were collected. */
  ghost predicate Collected(others: set<Job>, bad: set<Job>, answers: Answers, cancelled: bool, at: Moment)
    reads others
  {
    forall j <- others :: j.state != Running && (j in bad <==> j.state != Success) && ListedAt(j, answers, cancelled, at)
  }

  /** What is known of any job: it is in the state that its process reported, was polled in time, and if it was
      killed then by a cancellation or because its time was up. */
  ghost predicate ListedAt(j: Job, answers: Answers, cancelled: bool, at: Moment)
    reads j
  {
    j.Honest(answers) && Timed(j, at) && (j.state == Killed ==> cancelled || TimedOut(j, answers))
  }

  lemma ListedLater(j: Job, answers: Answers, was: bool, cancelled: bool, at: Moment, later: Moment)
    requires ListedAt(j, answers, was, at) && (was ==> cancelled) && Before(at, later)
    requires at.waits == later.waits || j.state != Running || Asked(j, later.waits - 1)
    ensures ListedAt(j, answers, cancelled, later)
  {
    hide Reported, ClockAt;
  }

  lemma SplitJobs(started: set<Job>, running: set<Job>, bad: set<Job>, answers: Answers, cancelled: bool, at: Moment)
    requires Sorted(running, started, bad, cancelled) && Explained(started, answers, cancelled, at)
    ensures Collected(started - running, bad, answers, cancelled, at)
    ensures forall j <- running :: j in started ==> j.state != Success && (cancelled <==> j.state != Running) && ListedAt(j, answers, cancelled, at)
  {
    hide ListedAt;
  }

  lemma JoinJobs(started: set<Job>, running: set<Job>, bad: set<Job>, answers: Answers, was: bool, earlier: Moment,
                 cancelled: bool, at: Moment, dead: Job)
    requires Collected(started - running, bad, answers, was, earlier) && (was ==> cancelled) && Before(earlier, at)
    requires running <= started && bad !! running && dead in running && dead.state != Running
    requires forall j <- running :: ListedAt(j, answers, cancelled, at)
    requires forall j <- running :: j != dead ==> j.state != Success && (cancelled <==> j.state != Running)
    ensures SortedBut(running, started, bad, cancelled, dead) && Explained(started, answers, cancelled, at)
  {
    hide ListedAt;
    forall j <- started ensures j !in running ==> j in started - running {}
    forall j <- started ensures ListedAt(j, answers, cancelled, at) {
      if j !in running {
        ListedLater(j, answers, was, cancelled, earlier, at);
      }
    }
  }

  lemma TallyStart(running: set<Job>, started: set<Job>, bad: set<Job>, maxjobs: int, completed: nat, failures: nat, job: Job)
    requires Tallied(running, started, bad, maxjobs, completed, failures, 0) && |running| < maxjobs && job !in started
    ensures Tallied(running + {job}, started + {job}, bad, maxjobs, completed, failures, 0)
  {
  }

  lemma TallySets(running: set<Job>, started: set<Job>, bad: set<Job>, maxjobs: int, completed: nat, failures: nat, pending: nat)
    requires Tallied(running, started, bad, maxjobs, completed, failures, pending)
    ensures running <= started && bad !! running
  {
  }

  lemma DeadIsListed(running: set<Job>, started: set<Job>, bad: set<Job>, cancelled: bool, dead: Job)
    requires SortedBut(running, started, bad, cancelled, dead)
    ensures dead in running && dead in started && dead !in bad
  {
  }

  lemma TallyFailure(running: set<Job>, started: set<Job>, bad: set<Job>, maxjobs: int, completed: nat, failures: nat, pending: nat)
    requires Tallied(running, started, bad, maxjobs, completed, failures, 0)
    ensures Tallied(running, started, bad, maxjobs, completed, failures + pending, pending)
  {
  }

  lemma CauseKept(was: bool, cancelled: bool, yes: bool, stopOnFailure: bool, failed: nat, failures: nat)
    requires was <==> yes || (stopOnFailure && failed > 0)
    requires cancelled == (was || (stopOnFailure && failures > failed)) && failures >= failed
    ensures cancelled <==> yes || (stopOnFailure && failures > 0)
  {
  }

  lemma TallyEnd(running: set<Job>, started: set<Job>, bad: set<Job>, maxjobs: int, completed: nat, failures: nat, dead: Job, won: bool)
    requires Tallied(running, started, bad, maxjobs, completed, failures, if won then 0 else 1) && dead in running
    ensures Tallied(running - {dead}, started, if won then bad else bad + {dead}, maxjobs, completed + 1, failures, 0)
    ensures |running - {dead}| == |running| - 1
  {
  }

  lemma SortedStart(running: set<Job>, started: set<Job>, bad: set<Job>, job: Job)
    requires Sorted(running, started, bad, false) && job !in started && job.state == Running
    ensures Sorted(running + {job}, started + {job}, bad, false)
  {
  }

  lemma SortedEnd(running: set<Job>, started: set<Job>, bad: set<Job>, cancelled: bool, dead: Job)
    requires SortedBut(running, started, bad, cancelled, dead)
    ensures Sorted(running - {dead}, started, if dead.state == Success then bad else bad + {dead}, cancelled)
  {
  }

  lemma LaunchedStart(started: set<Job>, first: nat, launched: seq<JobSpec>, job: Job)
    requires Launched(started, first, launched) && job.pid == |launched| && job !in started
    ensures Launched(started + {job}, first, launched + [job.spec])
  {
    var more := launched + [job.spec];
    assert |started + {job}| == |started| + 1;
    assert more[job.pid] == job.spec;
    assert forall j <- started :: more[j.pid] == launched[j.pid];
  }

  lemma ExplainedStart(started: set<Job>, answers: Answers, cancelled: bool, at: Moment, job: Job)
    requires Explained(started, answers, cancelled, at) && ListedAt(job, answers, cancelled, at)
    ensures Explained(started + {job}, answers, cancelled, at)
  {
    hide ListedAt;
  }

  ghost predicate HashesRight(hashes: map<Identity, string>, answers: Answers) {
    forall id <- hashes :: hashes[id] == answers.sha(id.hashTargets)
  }

  /** Every job was started by the clock, with the hash of its files. */
  ghost predicate Origins(started: set<Job>, answers: Answers, first: Moment) {
    forall j <- started :: Began(j, answers, first) && Hashed(j, answers)
  }

  lemma OriginsStart(started: set<Job>, answers: Answers, first: Moment, job: Job)
    requires Origins(started, answers, first) && Began(job, answers, first) && Hashed(job, answers)
    ensures Origins(started + {job}, answers, first)
  {
    hide Began, Hashed;
  }

  lemma ExplainedLater(started: set<Job>, answers: Answers, cancelled: bool, at: Moment, later: Moment)
    requires Explained(started, answers, cancelled, at) && Before(at, later) && at.waits == later.waits
    ensures Explained(started, answers, cancelled, later)
  {
    hide ListedAt;
    forall j <- started ensures ListedAt(j, answers, cancelled, later) {
      ListedLater(j, answers, cancelled, cancelled, at, later);
    }
  }

  class Jobset {
    var running: set<Job>
    var cancelled: bool
    var failures: nat
    var completed: nat
    const maxjobs: int
    const stopOnFailure: bool
    var hashes: map<Identity, string>
    const world: World
    const cache: TestCache
    ghost var started: set<Job>       // every job ever started
    ghost var bad: set<Job>           // collected, having failed or been killed
    ghost const firstAsk: nat         // the world when the set was made
    ghost const firstPid: nat
    ghost const first: Moment
    ghost const known: set<Pass>
    ghost const firstCache: map<Identity, string>

    ghost predicate Books()
      reads this`running, this`started, this`completed, this`bad, this`failures, this`hashes
    {
      BooksBut(0)
    }

    /** Books, with `pending` failures counted whose job is not collected yet. */
    ghost predicate BooksBut(pending: nat)
      reads this`running, this`started, this`completed, this`bad, this`failures, this`hashes
    {
      && Tallied(running, started, bad, maxjobs, completed, failures, pending)
      && HashesRight(hashes, world.answers)
    }

    ghost predicate States()
      reads this`running, this`started, this`bad, this`cancelled, started`state
    {
      Sorted(running, started, bad, cancelled)
    }

    ghost predicate Processes()
      reads this`started, world`launched
    {
      Launched(started, firstPid, world.launched) && Origins(started, world.answers, first)
    }

    ghost predicate Justified()
      reads this`started, this`cancelled, started, world`readings, world`waits
    {
      Explained(started, world.answers, cancelled, world.At())
    }

    /** It was cancelled if and only if a check said so or, with stop_on_failure, a job failed. */
    ghost predicate CancelledFor(failed: nat)
      reads this`cancelled, world`asks
    {
      && firstAsk <= world.asks
      && (cancelled <==> SaidYes(world.answers, firstAsk, world.asks) || (stopOnFailure && failed > 0))
    }

    ghost predicate Passes()
      reads this`started, this`running, this`bad, world`passed
    {
      Accountable(started, running, bad, known, world.passed)
    }

    /** The jobs that were collected with success. */
    ghost function Good(): set<Job>
      reads this`started, this`running, this`bad
    {
      started - running - bad
    }

    ghost predicate Traces()
      reads this`started, this`running, this`bad, cache`lastSuccessfulRun
    {
      Traced(Good(), firstCache, cache.lastSuccessfulRun, world.answers, cache.stores)
    }

    /** What does not depend on which jobs were collected. */
    ghost predicate Apart()
      reads this`started, this`cancelled, this`failures, started, world, cache
    {
      Before(first, world.At()) && cache.Sound(world.passed) && Processes() && Justified() && CancelledFor(failures)
    }

    /** The clock was read once for each start and each poll, and at most twice more for each success. */
    ghost predicate Spent(more: nat)
      reads this`started, this`running, this`bad, started`polls, world`readings
    {
      world.readings <= first.readings + |started| + TotalPolls(started) + 2 * |Good()| + more
    }

    ghost predicate Core()
      reads this, started, world, cache
    {
      Apart() && Books() && States() && Passes() && Traces()
    }

    ghost predicate Valid()
      reads this, started, world, cache
    {
      Core() && Spent(0)
    }

    /** A job has ended and is to be collected.  `passed` and `entries` are from before it ended. */
    ghost predicate Ready(dead: Job, passed: set<Pass>, entries: map<Identity, string>)
      reads this, started, dead, world`passed, cache`lastSuccessfulRun
    {
      && SortedBut(running, started, bad, cancelled, dead) && BooksBut(if dead.state == Success then 0 else 1)
      && Accountable(started, running, bad, known, passed)
      && world.passed == passed + (if dead.state == Success then PassOf(dead) else {})
      && Traced(Good(), firstCache, entries, world.answers, cache.stores) && Origins(started, world.answers, first)
      && cache.lastSuccessfulRun == Recorded(entries, dead, dead.state == Success && cache.stores)
    }

    constructor (maxjobs: int, stopOnFailure: bool, world: World, cache: TestCache)
      requires maxjobs >= 1 && cache.Sound(world.passed)
      ensures Valid() && started == {} && !cancelled
      ensures this.world == world && this.cache == cache && this.maxjobs == maxjobs && this.stopOnFailure == stopOnFailure
      ensures firstAsk == world.asks && firstPid == |world.launched| && known == world.passed && first == world.At()
      ensures firstCache == cache.lastSuccessfulRun
    {
      running, started, bad := {}, {}, {};
      cancelled, failures, completed := false, 0, 0;
      this.maxjobs, this.stopOnFailure := maxjobs, stopOnFailure;
      hashes := map[];
      this.world, this.cache := world, cache;
      firstAsk, firstPid, first, known := world.asks, |world.launched|, world.At(), world.passed;
      firstCache := cache.lastSuccessfulRun;
    }

    /** What is known of the jobs when all of them have been collected. */
    lemma Settled()
      requires Valid() && running == {}
      ensures cache.Sound(world.passed)
      ensures Good() == Successes(started) && bad == started - Successes(started)
      ensures forall j <- started :: j.state != Running && ListedAt(j, world.answers, cancelled, world.At()) && Began(j, world.answers, first)
      ensures cancelled <==> SaidYes(world.answers, firstAsk, world.asks) || (stopOnFailure && bad != {})
      ensures world.readings <= first.readings + |started| + TotalPolls(started) + 2 * |Good()|
    {
      hide ListedAt, SaidYes, Traced, Accountable, TestCache.Sound, Began, Hashed, Launched, TotalPolls;
      EmptyOrNot(bad);
    }

    lemma SettledPasses()
      requires Valid() && running == {}
      ensures forall p <- world.passed :: p in known || exists j <- started :: j.state == Success && p in PassOf(j)
    {
      hide ListedAt, SaidYes, Traced, PassOf, TestCache.Sound, Tallied, Launched, Began, Hashed;
      forall p <- world.passed ensures p in known || exists j <- started :: j.state == Success && p in PassOf(j) {
        if p !in known {
          var j :| j in started && j !in running && j !in bad && p in PassOf(j);
          assert j.state == Success;
        }
      }
    }

    lemma Tracks()
      requires Valid()
      ensures Traced(Good(), firstCache, cache.lastSuccessfulRun, world.answers, cache.stores)
    {
      hide ListedAt, SaidYes, Traced;
    }

    lemma Listing()
      requires Valid()
      ensures running <= started
    {
      hide ListedAt, SaidYes, Traced;
    }

    lemma Unsettled()
      requires Valid()
      ensures |started - Good() - bad| <= |running|
    {
      hide ListedAt, SaidYes, Traced;
      Fewer(started - Good() - bad, running);
    }

    lemma Capacity()
      requires Valid()
      ensures maxjobs >= 1
    {
      hide ListedAt, SaidYes;
    }

    lemma Drained()
      requires Valid() && running == {}
      ensures completed == |started| && (failures == 0 <==> bad == {})
    {
      hide ListedAt, SaidYes;
    }

    /** for job in self._running: job.kill() -- and the loop variable it leaves behind. */
    method KillAll() returns (last: Job?)
      modifies running`state
      ensures forall j <- running :: j.state == if old(j.state) == Running then Killed else old(j.state)
      ensures last == null <==> running == {}
      ensures last != null ==> last in running
    {
      last := null;
      var todo := running;
      while todo != {}
        invariant todo <= running
        invariant forall j <- running :: j.state ==
                                         if j !in todo && old(j.state) == Running then Killed else old(j.state)
        invariant last == null <==> todo == running
        invariant last != null ==> last in running
        decreases |todo|
      {
        var job :| job in todo;
        job.Kill();
        last := job;
        todo := todo - {job};
      }
    }

    /** Kills every job and remembers that. */
    method CancelAll()
      requires running <= started && States() && Justified()
      modifies this`cancelled, running`state
      ensures cancelled && States() && Justified()
    {
      hide Reported, ClockAt;
      label before:
      var _ := KillAll();
      cancelled := true;
      forall j <- started ensures ListedAt(j, world.answers, cancelled, world.At()) {
        assert old@before(ListedAt(j, world.answers, cancelled, world.At()));
        if j.state != old@before(j.state) {
          KilledIsReported(world.answers, j.pid, j.polls);
        }
      }
    }

    /** Jobset.cancelled(): once true, always true, and then no job is left running. */
    method Cancelled() returns (b: bool)
      requires Valid()
      modifies this`cancelled, running`state, world`asks
      ensures Valid() && b == cancelled && (old(cancelled) ==> cancelled)
      ensures !old(cancelled) ==> cancelled == world.answers.cancel(old(world.asks)) && world.asks == old(world.asks) + 1
      ensures old(cancelled) ==> world.asks == old(world.asks)
    {
      hide Reported, SaidYes, PassOf, Launched, Explained, Accountable, Sorted, SortedBut, Collected, Tallied,
           TestCache.Sound, ClockAt, Jobset.Spent, Traced;
      if cancelled { return true; }
      TallySets(running, started, bad, maxjobs, completed, failures, 0);
      AskedOnce(world.answers, firstAsk, world.asks);
      var c := world.CheckCancelled();
      if c {
        CancelAll();
      }
      return c;
    }

    /** reap() on a job that is no longer running.  With stop_on_failure a failure kills every job, and
        the job to collect becomes the last one killed, not the one that failed. */
    method Ended(job: Job, st: JobState) returns (dead: Job)
      requires job in running && job.state == st != Running
      requires forall j <- running :: j != job ==> j.state != Success && (cancelled <==> j.state != Running)
      modifies this`failures, this`cancelled, running`state
      ensures dead in running && dead.state != Running && (st == Success ==> dead.state == Success)
      ensures failures == old(failures) + if dead.state == Success then 0 else 1
      ensures forall j <- running :: j != dead ==> j.state != Success && (cancelled <==> j.state != Running)
      ensures forall j <- running :: j.state == old(j.state) || (old(j.state) == Running && j.state == Killed && cancelled)
      ensures cancelled == (old(cancelled) || (st != Success && stopOnFailure))
      ensures st == Success || !stopOnFailure ==> dead == job
      ensures st != Success ==> failures == old(failures) + 1
    {
      dead := job;
      if st == Failure || st == Killed {
        failures := failures + 1;
        if stopOnFailure {
          cancelled := true;
          dead := KillAll();
        }
      }
    }

    /** What is known of a listed job during reap(). */
    ghost predicate Listed(j: Job)
      reads this`cancelled, j, world`readings, world`waits
    {
      ListedAt(j, world.answers, cancelled, world.At())
    }

    /** job.state(self._cache), on a listed job. */
    method Poll(job: Job) returns (st: JobState)
      requires cache.Sound(world.passed) && job in running && job.Honest(world.answers) && Timed(job, world.At())
      modifies job`state, job`polls, job`seen, world`readings, world`passed, cache
      ensures st == job.state && cache.Sound(world.passed) && job.Honest(world.answers) && Timed(job, world.At())
      ensures world.Now() >= old(world.Now()) && world.readings >= old(world.readings)
      ensures old(job.state) != Running ==> job.state == old(job.state) && job.polls == old(job.polls) && job.seen == old(job.seen)
      ensures old(job.state) == Running && job.state == Killed ==> TimedOut(job, world.answers)
      ensures job.state == Running ==> old(world.Now()) <= job.start + job.spec.timeoutSeconds && Asked(job, world.waits)
      ensures if old(job.state) == Running && job.state == Success then
                && world.passed == old(world.passed) + PassOf(job)
                && cache.lastSuccessfulRun == Recorded(old(cache.lastSuccessfulRun), job, cache.stores)
              else world.passed == old(world.passed) && cache.lastSuccessfulRun == old(cache.lastSuccessfulRun)
      ensures world.readings <= old(world.readings) + TotalPolls(running) - old(TotalPolls(running))
                                + if old(job.state) == Running && job.state == Success then 2 else 0
    {
      hide Job.Honest, TestCache.Sound, Job.Polled, ClockAt, TimedOut, Timed, Recorded, PassOf, TotalPolls;
      TotalOne(running, job);
      st := job.State(world, cache);
      TotalOne(running, job);
    }

    /** The polling loop: up to the first job that is no longer running.  The jobs in `rest` were not asked. */
    method PollUntilEnded() returns (ended: Job?, ghost rest: set<Job>)
      requires cache.Sound(world.passed)
      requires forall j <- running :: j.Honest(world.answers) && Timed(j, world.At()) && (cancelled <==> j.state != Running)
      modifies running`state, running`polls, running`seen, world`readings, world`passed, cache
      ensures cache.Sound(world.passed) && world.Now() >= old(world.Now()) && world.readings >= old(world.readings)
      ensures rest <= running && forall j <- rest :: j.state == old(j.state) && j.polls == old(j.polls) && j.seen == old(j.seen)
      ensures forall j <- running :: j in rest || j == ended || Passing(j, world.answers, old(world.Now()), world.At())
      ensures ended == null ==> rest == {} && world.passed == old(world.passed) && cache.lastSuccessfulRun == old(cache.lastSuccessfulRun)
      ensures ended != null ==> ended in running && ended !in rest
                                && ended.state != Running && ended.Honest(world.answers) && Timed(ended, world.At())
      ensures ended != null && old(ended.state) == Running && ended.state == Killed ==> TimedOut(ended, world.answers)
      ensures ended != null ==>
                if ended.state == Success && old(ended.state) == Running then
                  && world.passed == old(world.passed) + PassOf(ended)
                  && cache.lastSuccessfulRun == Recorded(old(cache.lastSuccessfulRun), ended, cache.stores)
                else world.passed == old(world.passed) && cache.lastSuccessfulRun == old(cache.lastSuccessfulRun)
      ensures world.readings <= old(world.readings) + TotalPolls(running) - old(TotalPolls(running))
                                + if ended != null && ended.state == Success && old(ended.state) == Running then 2 else 0
      ensures ended != null && old(ended.state) != Running ==>
                ended.state == old(ended.state) && ended.polls == old(ended.polls) && ended.seen == old(ended.seen)
      ensures cancelled ==> if ended == null then running == {} else rest == running - {ended}
    {
      hide Job.Honest, TestCache.Sound, Job.Polled, ClockAt, TimedOut, Recorded, PassOf, Passing, TotalPolls;
      ended := null;
      var todo := running;
      rest := todo;
      while todo != {}
        invariant todo <= running && rest == todo && cache.Sound(world.passed)
        invariant world.Now() >= old(world.Now()) && world.readings >= old(world.readings) && world.passed == old(world.passed)
        invariant cancelled ==> todo == running
        invariant world.readings <= old(world.readings) + TotalPolls(running) - old(TotalPolls(running))
        invariant cache.lastSuccessfulRun == old(cache.lastSuccessfulRun)
        invariant forall j <- todo :: j.state == old(j.state) && j.polls == old(j.polls) && j.seen == old(j.seen)
        invariant forall j <- running :: j in todo || Passing(j, world.answers, old(world.Now()), world.At())
        decreases |todo|
      {
        var job :| job in todo;
        ghost var at := world.At();
        var st := Poll(job);
        forall j <- running ensures j in todo || Passing(j, world.answers, old(world.Now()), world.At()) {
          if j !in todo {
            PassingLater(j, world.answers, old(world.Now()), at, world.At());
          }
        }
        todo := todo - {job};
        rest := todo;
        if st != Running { return job, rest; }
        PassingNow(job, world.answers, old(world.Now()), world.At());
      }
    }

    /** One pass of the polling loop of reap(): find a job that is no longer running. */
    method FindEnded() returns (ended: Job?)
      requires cache.Sound(world.passed)
      requires forall j <- running :: j.state != Success && (cancelled <==> j.state != Running) && Listed(j)
      modifies running`state, running`polls, running`seen, world`readings, world`passed, cache
      ensures cache.Sound(world.passed) && world.Now() >= old(world.Now()) && world.readings >= old(world.readings)
      ensures ended == null ==>
                && world.passed == old(world.passed) && cache.lastSuccessfulRun == old(cache.lastSuccessfulRun)
                && forall j <- running :: j.state == Running && old(world.Now()) <= j.start + j.spec.timeoutSeconds && Asked(j, world.waits)
      ensures ended != null ==> ended in running && ended.state != Running
      ensures ended != null ==> world.passed == old(world.passed) + if ended.state == Success then PassOf(ended) else {}
      ensures ended != null ==>
                cache.lastSuccessfulRun == Recorded(old(cache.lastSuccessfulRun), ended, ended.state == Success && cache.stores)
      ensures world.readings <= old(world.readings) + TotalPolls(running) - old(TotalPolls(running))
                                + if ended != null && ended.state == Success then 2 else 0
      ensures forall j <- running :: Listed(j) && (j != ended ==> j.state != Success && (cancelled <==> j.state != Running))
    {
      hide Reported, TestCache.Sound, ClockAt, TotalPolls;
      assert forall j <- running :: Listed(j);
      ghost var rest;
      ended, rest := PollUntilEnded();
      forall j <- running ensures Listed(j) && (j != ended ==> j.state != Success && (cancelled <==> j.state != Running)) {
        assert old(Listed(j));
      }
    }

    /** The polling loop with what follows it: the job to collect, if any. */
    method FindDead() returns (dead: Job?)
      requires cache.Sound(world.passed)
      requires forall j <- running :: j.state != Success && (cancelled <==> j.state != Running) && Listed(j)
      modifies this`failures, this`cancelled, running`state, running`polls, running`seen, world`readings, world`passed, cache
      ensures cache.Sound(world.passed) && world.Now() >= old(world.Now()) && world.readings >= old(world.readings)
      ensures dead == null ==>
                && failures == old(failures) && cancelled == old(cancelled) && world.passed == old(world.passed)
                && cache.lastSuccessfulRun == old(cache.lastSuccessfulRun)
                && forall j <- running :: j.state == Running && old(world.Now()) <= j.start + j.spec.timeoutSeconds && Asked(j, world.waits)
      ensures dead != null ==> dead in running && dead.state != Running
      ensures dead != null ==> world.passed == old(world.passed) + if dead.state == Success then PassOf(dead) else {}
      ensures dead != null ==>
                cache.lastSuccessfulRun == Recorded(old(cache.lastSuccessfulRun), dead, dead.state == Success && cache.stores)
      ensures world.readings <= old(world.readings) + TotalPolls(running) - old(TotalPolls(running))
                                + if dead != null && dead.state == Success then 2 else 0
      ensures dead != null ==> failures == old(failures) + if dead.state == Success then 0 else 1
      ensures forall j <- running :: Listed(j) && (j != dead ==> j.state != Success && (cancelled <==> j.state != Running))
      ensures cancelled == (old(cancelled) || (stopOnFailure && failures > old(failures)))
    {
      hide Reported, ClockAt, TotalPolls;
      dead := FindEnded();
      if dead == null { return; }
      label polled:
      dead := Ended(dead, dead.state);
      forall j <- running ensures Listed(j) {
        assert old@polled(Listed(j));
        if j.state != old@polled(j.state) {
          KilledIsReported(world.answers, j.pid, j.polls);
        }
      }
    }

    /** self._completed += 1; self._running.remove(job). */
    method Collect(dead: Job, ghost passed: set<Pass>, ghost entries: map<Identity, string>)
      requires Ready(dead, passed, entries)
      modifies this`running, this`completed, this`bad
      ensures States() && Books() && Passes() && |running| == |old(running)| - 1 && running == old(running) - {dead}
      ensures Traces() && Good() >= old(Good()) && bad >= old(bad) && world.passed >= passed
      ensures dead.state == Success ==> dead in Good() && dead !in old(Good())
    {
      hide Sorted, SortedBut, Tallied, Accountable, PassOf, Traced, Began, Hashed, Recorded, HashesRight;
      DeadIsListed(running, started, bad, cancelled, dead);
      ghost var won := dead.state == Success;
      SortedEnd(running, started, bad, cancelled, dead);
      TallyEnd(running, started, bad, maxjobs, completed, failures, dead, won);
      CollectedPasses(started, running, bad, known, passed, world.passed, dead, won);
      ghost var bad' := if won then bad else bad + {dead};
      CollectedTraces(started, running, bad, firstCache, entries, world.answers, dead, won, cache.stores);
      completed := completed + 1;
      running := running - {dead};
      if dead.state != Success {
        bad := bad + {dead};
      }
      assert bad == bad';
    }

    /** The waiting loop of reap().  It ends because some job must use up its time. */
    method AwaitDead() returns (dead: Job)
      requires cache.Sound(world.passed) && running != {}
      requires forall j <- running :: j.state != Success && (cancelled <==> j.state != Running) && Listed(j)
      modifies this`failures, this`cancelled, running`state, running`polls, running`seen
      modifies world`readings, world`waits, world`passed, cache
      ensures cache.Sound(world.passed) && Before(old(world.At()), world.At()) && dead in running && dead.state != Running
      ensures world.passed == old(world.passed) + if dead.state == Success then PassOf(dead) else {}
      ensures cache.lastSuccessfulRun == Recorded(old(cache.lastSuccessfulRun), dead, dead.state == Success && cache.stores)
      ensures world.readings <= old(world.readings) + TotalPolls(running) - old(TotalPolls(running)) + if dead.state == Success then 2 else 0
      ensures failures == old(failures) + if dead.state == Success then 0 else 1
      ensures forall j <- running :: Listed(j) && (j != dead ==> j.state != Success && (cancelled <==> j.state != Running))
      ensures cancelled == (old(cancelled) || (stopOnFailure && failures > old(failures)))
    {
      hide Reported, TestCache.Sound, ClockAt, TotalPolls;
      var some :| some in running;
      dead := some;
      while true
        invariant cache.Sound(world.passed) && Before(old(world.At()), world.At()) && world.passed == old(world.passed)
        invariant cache.lastSuccessfulRun == old(cache.lastSuccessfulRun)
        invariant world.readings <= old(world.readings) + TotalPolls(running) - old(TotalPolls(running))
        invariant failures == old(failures) && cancelled == old(cancelled)
        invariant forall j <- running :: j.state != Success && (cancelled <==> j.state != Running) && Listed(j)
        decreases some.start + some.spec.timeoutSeconds + 1 - world.Now()
      {
        var found := FindDead();
        if found != null {
          return found;
        }
        label polled:
        world.Wait();
        forall j <- running ensures Listed(j) {
          assert old@polled(Listed(j));
          ListedLater(j, world.answers, cancelled, cancelled, old@polled(world.At()), world.At());
        }
      }
    }

    /** AwaitDead, with the counters. */
    method AwaitCounted() returns (dead: Job)
      requires cache.Sound(world.passed) && running != {} && Books() && CancelledFor(failures)
      requires forall j <- running :: j.state != Success && (cancelled <==> j.state != Running) && Listed(j)
      modifies this`failures, this`cancelled, running`state, running`polls, running`seen
      modifies world`readings, world`waits, world`passed, cache
      ensures cache.Sound(world.passed) && Before(old(world.At()), world.At()) && dead in running && dead.state != Running
      ensures world.passed == old(world.passed) + if dead.state == Success then PassOf(dead) else {}
      ensures cache.lastSuccessfulRun == Recorded(old(cache.lastSuccessfulRun), dead, dead.state == Success && cache.stores)
      ensures world.readings <= old(world.readings) + TotalPolls(running) - old(TotalPolls(running)) + if dead.state == Success then 2 else 0
      ensures BooksBut(if dead.state == Success then 0 else 1) && CancelledFor(failures) && (old(cancelled) ==> cancelled)
      ensures forall j <- running :: Listed(j) && (j != dead ==> j.state != Success && (cancelled <==> j.state != Running))
    {
      hide Reported, SaidYes, PassOf, Launched, Explained, Accountable, Sorted, SortedBut, Collected, Tallied,
           TestCache.Sound, ClockAt, ListedAt, TotalPolls;
      ghost var was, failed, yes := cancelled, failures, SaidYes(world.answers, firstAsk, world.asks);
      dead := AwaitDead();
      TallyFailure(running, started, bad, maxjobs, completed, failed, if dead.state == Success then 0 else 1);
      CauseKept(was, cancelled, yes, stopOnFailure, failed, failures);
    }

    /** AwaitDead, with the readings of the clock. */
    method AwaitSpent() returns (dead: Job)
      requires cache.Sound(world.passed) && running != {} && Books() && CancelledFor(failures) && running <= started && Spent(0)
      requires forall j <- running :: j.state != Success && (cancelled <==> j.state != Running) && Listed(j)
      modifies this`failures, this`cancelled, running`state, running`polls, running`seen
      modifies world`readings, world`waits, world`passed, cache
      ensures cache.Sound(world.passed) && Before(old(world.At()), world.At()) && dead in running && dead.state != Running
      ensures world.passed == old(world.passed) + if dead.state == Success then PassOf(dead) else {}
      ensures cache.lastSuccessfulRun == Recorded(old(cache.lastSuccessfulRun), dead, dead.state == Success && cache.stores)
      ensures BooksBut(if dead.state == Success then 0 else 1) && CancelledFor(failures) && (old(cancelled) ==> cancelled)
      ensures Spent(if dead.state == Success then 2 else 0)
      ensures forall j <- running :: Listed(j) && (j != dead ==> j.state != Success && (cancelled <==> j.state != Running))
    {
      hide Jobset.Books, Jobset.BooksBut, Jobset.CancelledFor, Jobset.Listed, TestCache.Sound, PassOf, Recorded,
           TotalPolls, ClockAt, Jobset.Good;
      TotalSplit(started, running);
      dead := AwaitCounted();
      TotalSplit(started, running);
    }

    /** reap() up to the point where it collects. */
    method AwaitAny() returns (dead: Job)
      requires Valid() && running != {}
      modifies this`failures, this`cancelled, running`state, running`polls, running`seen
      modifies world`readings, world`waits, world`passed, cache
      ensures Apart() && Ready(dead, old(world.passed), old(cache.lastSuccessfulRun)) && (old(cancelled) ==> cancelled)
      ensures Spent(if dead.state == Success then 2 else 0)
    {
      hide Reported, SaidYes, PassOf, Launched, Explained, Accountable, Sorted, SortedBut, Collected, Tallied,
           TestCache.Sound, ClockAt, ListedAt, Jobset.CancelledFor, Traced, Recorded, Origins, HashesRight,
           Jobset.Spent;
      ghost var others, was, at := started - running, cancelled, world.At();
      TallySets(running, started, bad, maxjobs, completed, failures, 0);
      SplitJobs(started, running, bad, world.answers, cancelled, world.At());
      dead := AwaitSpent();
      assert Collected(others, bad, world.answers, was, at);
      JoinJobs(started, running, bad, world.answers, was, at, cancelled, world.At(), dead);
    }

    /** Jobset.reap(): block until a job has ended and collect exactly one job, never a running one. */
    method Reap()
      requires Valid()
      modifies this`running, this`failures, this`completed, this`cancelled, this`bad, running`state, running`polls, running`seen
      modifies world`readings, world`waits, world`passed, cache
      ensures Valid()
      ensures if old(running) == {} then running == {} else |running| == |old(running)| - 1
      ensures old(cancelled) ==> cancelled
      ensures running <= old(running) && world.passed >= old(world.passed) && Good() >= old(Good()) && bad >= old(bad)
    {
      hide Jobset.Apart, Jobset.Ready, Jobset.Books, Jobset.States, Jobset.Passes, Jobset.Traces, Jobset.Good,
           ClockAt, TotalPolls;
      if running == {} { return; }
      var dead := AwaitAny();
      ghost var good := Good();
      Collect(dead, old(world.passed), old(cache.lastSuccessfulRun));
      Fewer(good, Good());
      if dead.state == Success {
        Larger(good, Good(), dead);
      }
    }

    /** The head of start(): wait until a slot is free, unless cancelled. */
    method AwaitSlot() returns (ok: bool)
      requires Valid()
      modifies this`running, this`failures, this`completed, this`cancelled, this`bad, running`state, running`polls, running`seen
      modifies world`readings, world`waits, world`asks, world`passed, cache
      ensures Valid() && (old(cancelled) ==> cancelled) && ok == !cancelled
      ensures ok ==> |running| < maxjobs && |started - Good() - bad| < maxjobs && world.asks > old(world.asks)
      ensures running <= old(running) && world.passed >= old(world.passed) && world.asks >= old(world.asks)
                && Good() >= old(Good()) && bad >= old(bad)
    {
      hide Jobset.Valid, Jobset.Good, ClockAt;
      Capacity();
      while |running| >= maxjobs
        invariant Valid() && (old(cancelled) ==> cancelled)
        invariant running <= old(running) && world.passed >= old(world.passed) && world.asks >= old(world.asks)
                && Good() >= old(Good()) && bad >= old(bad)
        decreases |running|
      {
        var c := Cancelled();
        if c { return false; }
        Reap();
      }
      var c := Cancelled();
      Unsettled();
      return !c;
    }

    /** The hash of the target files, computed once per identity and remembered. */
    method BinHash(id: Identity) returns (h: string)
      requires Books()
      modifies this`hashes
      ensures Books() && h == world.answers.sha(id.hashTargets)
    {
      if id in hashes {
        h := hashes[id];
      } else {
        h := world.answers.sha(id.hashTargets);
        hashes := hashes[id := h];
      }
    }

    /** The cache holds this spec with the hash of its files as they are. */
    ghost predicate Cached(spec: JobSpec)
      reads cache
    {
      cache.stores && cache.useCacheResults && HeldBy(cache.lastSuccessfulRun, spec, world.answers)
    }

    lemma CachedPassed(spec: JobSpec)
      requires Valid() && Cached(spec)
      ensures (spec.id, world.answers.sha(spec.id.hashTargets)) in world.passed
    {
      hide ListedAt, SaidYes, Traced, Tallied, Sorted, Launched, Origins, TotalPolls;
    }

    /** The decision part of start(). */
    method ShouldRun(spec: JobSpec) returns (binHash: Option<string>, shouldRun: bool)
      requires Books()
      modifies this`hashes
      ensures Books()
      ensures binHash == if spec.id.hashTargets == [] then None else Some(world.answers.sha(spec.id.hashTargets))
      ensures shouldRun <==> !Cached(spec)
    {
      binHash, shouldRun := None, true;
      if spec.id.hashTargets != [] {
        var h := BinHash(spec.id);
        binHash := Some(h);
        shouldRun := cache.ShouldRun(spec.id, h);
      }
    }

    /** Valid, but for a job whose process was just started; `launched` are the processes before that. */
    ghost predicate Begun(job: Job, launched: seq<JobSpec>)
      reads this, started, job, world, cache
    {
      && Before(first, world.At()) && cache.Sound(world.passed) && CancelledFor(failures)
      && Books() && States() && Justified() && Passes() && Traces() && |running| < maxjobs && !cancelled
      && job !in started && job.state == Running && ListedAt(job, world.answers, cancelled, world.At())
      && Launched(started, firstPid, launched) && job.pid == |launched| && world.launched == launched + [job.spec]
      && Origins(started, world.answers, first) && Began(job, world.answers, first) && Hashed(job, world.answers)
    }

    /** self._running.add(job). */
    method AddJob(job: Job, ghost launched: seq<JobSpec>)
      requires Begun(job, launched)
      modifies this`running, this`started
      ensures Core() && Good() == old(Good())
      ensures running == old(running) + {job} && started == old(started) + {job}
    {
      hide PassOf, ListedAt, Launched, Explained, Accountable, Sorted, Tallied, Traced, Began, Hashed, Origins,
           HashesRight, TestCache.Sound, Jobset.CancelledFor;
      OriginsStart(started, world.answers, first, job);
      TallyStart(running, started, bad, maxjobs, completed, failures, job);
      SortedStart(running, started, bad, job);
      LaunchedStart(started, firstPid, launched, job);
      ExplainedStart(started, world.answers, cancelled, world.At(), job);
      MoreJobs(started, started + {job}, running, running + {job}, bad, known, world.passed);
      GoodKept(started, running, bad, job);
      running := running + {job};
      started := started + {job};
    }

    /** Job(...): starts the process. */
    method Begin(spec: JobSpec, binHash: Option<string>) returns (job: Job)
      requires Core() && |running| < maxjobs && !cancelled
      requires binHash == if spec.id.hashTargets == [] then None else Some(world.answers.sha(spec.id.hashTargets))
      modifies world`readings, world`launched
      ensures Begun(job, old(world.launched)) && fresh(job) && job.spec == spec && job.polls == 0
      ensures world.readings == old(world.readings) + 1
      ensures job.start == world.Now() == old(world.Now()) + world.answers.delay(old(world.readings)) && job.born == world.At()
    {
      hide SaidYes, PassOf, Reported, Launched, Explained, Accountable, Sorted, Tallied, ClockAt, Traced, Origins,
           HashesRight, TestCache.Sound, Jobset.CancelledFor, TotalPolls;
      NothingPolled(world.answers, |world.launched|);
      ghost var at := world.At();
      var t := world.Time();
      var pid := world.Popen(spec);
      ExplainedLater(started, world.answers, cancelled, at, world.At());
      job := new Job(spec, binHash, pid, t, world.At());
    }

    /** self._running.add(Job(...)). */
    method Spawn(spec: JobSpec, binHash: Option<string>) returns (job: Job)
      requires Valid() && |running| < maxjobs && !cancelled
      requires binHash == if spec.id.hashTargets == [] then None else Some(world.answers.sha(spec.id.hashTargets))
      modifies this`running, this`started, world`readings, world`launched
      ensures Valid() && fresh(job) && job.spec == spec && Hashed(job, world.answers) && Good() == old(Good())
      ensures job.pid == |old(world.launched)| && world.launched == old(world.launched) + [spec]
      ensures job.start == world.Now() == old(world.Now()) + world.answers.delay(old(world.readings)) && job.born == world.At()
      ensures running == old(running) + {job} && started == old(started) + {job}
    {
      hide Jobset.Core, Jobset.Good, Jobset.Books, Jobset.States, Jobset.Justified, Jobset.Passes, Jobset.Traces, Jobset.CancelledFor,
           TestCache.Sound, Launched, Origins, ListedAt, ClockAt, Began, TotalPolls;
      job := Begin(spec, binHash);
      TotalMore(started, job);
      AddJob(job, old(world.launched));
    }

    /** ShouldRun, which only fills in the hashes. */
    method Decide(spec: JobSpec) returns (binHash: Option<string>, shouldRun: bool)
      requires Valid()
      modifies this`hashes
      ensures Valid() && (shouldRun <==> !Cached(spec))
      ensures binHash == if spec.id.hashTargets == [] then None else Some(world.answers.sha(spec.id.hashTargets))
      ensures !shouldRun ==> binHash.Some? && (spec.id, binHash.value) in world.passed
    {
      hide Jobset.Apart, Jobset.States, Jobset.Passes, Jobset.Traces, Jobset.Spent, Tallied, HashesRight, ClockAt;
      binHash, shouldRun := ShouldRun(spec);
      if !shouldRun {
        CachedPassed(spec);
      }
    }

    /** The rest of start(): hash the targets once per identity, ask the cache, start the job. */
    method Launch(spec: JobSpec) returns (ghost outcome: Outcome)
      requires Valid() && |running| < maxjobs && !cancelled
      modifies this`running, this`started, this`hashes, world`readings, world`launched
      ensures Valid() && HandedOver(spec, outcome, world.answers, world.passed) && Good() == old(Good())
      ensures outcome.Skipped? <==> Cached(spec)
      ensures outcome.Skipped? ==> running == old(running) && started == old(started) && world.launched == old(world.launched)
      ensures outcome.Started? ==>
                && fresh(outcome.job) && started == old(started) + {outcome.job} && running == old(running) + {outcome.job}
                && outcome.job.pid == |old(world.launched)| && world.launched == old(world.launched) + [spec]
    {
      hide Jobset.Valid, Jobset.Good, Jobset.Cached, ClockAt;
      var binHash, shouldRun := Decide(spec);
      if shouldRun {
        var job := Spawn(spec, binHash);
        outcome := Started(job);
      } else {
        outcome := Skipped(binHash.value);
      }
    }

    /** Jobset.start(). */
    method Start(spec: JobSpec) returns (ok: bool, ghost outcome: Outcome)
      requires Valid()
      modifies this, running`state, running`polls, running`seen
      modifies world`readings, world`waits, world`asks, world`launched, world`passed, cache
      ensures Valid() && (old(cancelled) ==> cancelled) && (!ok <==> cancelled)
      ensures world.passed >= old(world.passed) && Good() >= old(Good()) && bad >= old(bad)
      ensures ok ==> |old(started) - Good() - bad| < maxjobs
      ensures world.asks >= old(world.asks) && (ok ==> world.asks > old(world.asks))
      ensures !ok ==> started == old(started) && running <= old(running) && world.launched == old(world.launched)
      ensures ok ==> HandedOver(spec, outcome, world.answers, world.passed) && (outcome.Skipped? <==> Cached(spec))
      ensures ok && outcome.Skipped? ==>
                started == old(started) && running <= old(running) && world.launched == old(world.launched)
      ensures ok && outcome.Started? ==>
                && fresh(outcome.job) && started == old(started) + {outcome.job} && running <= old(running) + {outcome.job}
                && outcome.job.pid == |old(world.launched)| && world.launched == old(world.launched) + [spec]
    {
      hide Jobset.Valid, Jobset.Good, Jobset.Cached, HandedOver, ClockAt;
      outcome := Skipped("");
      ok := AwaitSlot();
      if ok {
        outcome := Launch(spec);
      }
    }

    /** Jobset.finish(): terminates, with every started job collected. */
    method Finish() returns (ok: bool)
      requires Valid()
      modifies this, running`state, running`polls, running`seen
      modifies world`readings, world`waits, world`asks, world`passed, cache
      ensures Valid() && running == {} && started == old(started) && (old(cancelled) ==> cancelled)
      ensures completed == |started| && world.passed >= old(world.passed) && Good() >= old(Good()) && bad >= old(bad)
      ensures !cancelled ==> world.asks > old(world.asks)
      ensures ok <==> !cancelled && bad == {}
    {
      hide Jobset.Valid, Jobset.Good, ClockAt;
      while running != {}
        invariant Valid() && started == old(started) && (old(cancelled) ==> cancelled)
        invariant running <= old(running) && world.passed >= old(world.passed) && world.asks >= old(world.asks)
                && Good() >= old(Good()) && bad >= old(bad)
        decreases |running|
      {
        var _ := Cancelled();
        Reap();
      }
      var c := Cancelled();
      Drained();
      return !c && failures == 0;
    }
  }

  /** What start() answers for a spec: a job for it, with the hash of its files, or a justified skip. */
  ghost predicate HandedOver(spec: JobSpec, outcome: Outcome, answers: Answers, passed: set<Pass>) {
    match outcome
    case Started(job) =>
      job.spec == spec && Hashed(job, answers)
    case Skipped(hash) => SkipJustified(spec, hash, answers, passed)
  }

  lemma {:induction false} Fewer(s: set<Job>, t: set<Job>)
    requires s <= t
    ensures |s| <= |t|
  {
    if s != {} {
      var j :| j in s;
      Fewer(s - {j}, t - {j});
    }
  }

  lemma GoodKept(started: set<Job>, running: set<Job>, bad: set<Job>, job: Job)
    requires job !in started
    ensures started + {job} - (running + {job}) - bad == started - running - bad
  {
  }

  lemma Larger(s: set<Job>, t: set<Job>, j: Job)
    requires s <= t && j in t && j !in s
    ensures |s| < |t|
  {
    Fewer(s, t - {j});
  }

  lemma CollectedTraces(started: set<Job>, running: set<Job>, bad: set<Job>, first: map<Identity, string>, m: map<Identity, string>,
                        answers: Answers, dead: Job, won: bool, stores: bool)
    requires Traced(started - running - bad, first, m, answers, stores) && forall j <- started :: Hashed(j, answers)
    requires dead in started && dead in running && dead !in bad
    ensures var bad' := if won then bad else bad + {dead};
            && started - running - bad <= started - (running - {dead}) - bad'
            && Traced(started - (running - {dead}) - bad', first, Recorded(m, dead, won && stores), answers, stores)
  {
    hide Traced, Hashed, Recorded;
    var good := started - running - bad;
    if won {
      assert started - (running - {dead}) - bad == good + {dead};
      TracedRecord(good, first, m, answers, stores, dead);
    } else {
      assert started - (running - {dead}) - (bad + {dead}) == good;
      NotRecorded(m, dead);
    }
  }

  lemma NotRecorded(m: map<Identity, string>, job: Job)
    ensures Recorded(m, job, false) == m
  {
  }

  lemma NothingPolled(answers: Answers, pid: nat)
    ensures Reported(answers, pid, 0, Running)
  {
  }

  lemma MoreJobs(started: set<Job>, started': set<Job>, running: set<Job>, running': set<Job>, bad: set<Job>, known: set<Pass>, passed: set<Pass>)
    requires Accountable(started, running, bad, known, passed)
    requires started <= started' && forall j <- started :: j in running' ==> j in running
    ensures Accountable(started', running', bad, known, passed)
  {
    hide PassOf;
    forall p <- passed ensures p in known || exists j <- started' :: j !in running' && j !in bad && p in PassOf(j) {
      if p !in known {
        var j :| j in started && j !in running && j !in bad && p in PassOf(j);
        assert j in started' && j !in running';
      }
    }
  }

  /** Collecting one job keeps track of the passes. */
  lemma CollectedPasses(started: set<Job>, running: set<Job>, bad: set<Job>, known: set<Pass>, passed: set<Pass>, passed': set<Pass>,
                        dead: Job, won: bool)
    requires Accountable(started, running, bad, known, passed) && dead in started && dead in running && dead !in bad
    requires passed' == passed + if won then PassOf(dead) else {}
    ensures Accountable(started, running - {dead}, if won then bad else bad + {dead}, known, passed')
  {
    var running', bad' := running - {dead}, if won then bad else bad + {dead};
    forall p <- passed' ensures p in known || exists j <- started :: j !in running' && j !in bad' && p in PassOf(j) {
      if p in passed {
        if p !in known {
          var j :| j in started && j !in running && j !in bad && p in PassOf(j);
          assert j !in running' && j !in bad';
        }
      } else {
        assert dead !in running' && dead !in bad' && p in PassOf(dead);
      }
    }
  }

  /** A job that was polled since the last wait and runs on, with time left at `now`. */
  ghost predicate Passing(j: Job, answers: Answers, now: int, at: Moment)
    reads j
  {
    j.Honest(answers) && j.state == Running && now <= j.start + j.spec.timeoutSeconds && Timed(j, at) && Asked(j, at.waits)
  }

  lemma PassingNow(j: Job, answers: Answers, now: int, at: Moment)
    requires j.Honest(answers) && j.state == Running && now <= j.start + j.spec.timeoutSeconds && Timed(j, at) && Asked(j, at.waits)
    ensures Passing(j, answers, now, at)
  {
  }

  lemma PassingLater(j: Job, answers: Answers, now: int, at: Moment, later: Moment)
    requires Passing(j, answers, now, at) && Before(at, later) && at.waits == later.waits
    ensures Passing(j, answers, now, later)
  {
    hide Job.Honest;
  }

  lemma AskedOnce(answers: Answers, first: nat, n: nat)
    requires first <= n
    ensures SaidYes(answers, first, n + 1) <==> SaidYes(answers, first, n) || answers.cancel(n)
  {
  }

  // ---------- Whole runs ----------

  /** The specs for which a job was started, in order. */
  ghost function StartedSpecs(specs: seq<JobSpec>, outcomes: seq<Outcome>): seq<JobSpec>
    requires |outcomes| <= |specs|
  {
    if outcomes == [] then [] else
      var n := |outcomes| - 1;
      StartedSpecs(specs, outcomes[..n]) + if outcomes[n].Started? then [specs[n]] else []
  }

  /** What is known after handing the first |outcomes| specs to start(): each was started once, in order
      and with a process of its own, or rightly skipped; and no other process was started. */
  ghost predicate Accounted(specs: seq<JobSpec>, outcomes: seq<Outcome>, started: set<Job>, answers: Answers,
                            passed: set<Pass>, before: seq<JobSpec>, launched: seq<JobSpec>)
  {
    && |outcomes| <= |specs| && launched == before + StartedSpecs(specs, outcomes)
    && (forall i :: 0 <= i < |outcomes| ==> HandedOver(specs[i], outcomes[i], answers, passed))
    && (forall i :: 0 <= i < |outcomes| && outcomes[i].Started? ==>
          outcomes[i].job in started && outcomes[i].job.pid == |before| + |StartedSpecs(specs, outcomes[..i])|)
    && (forall j <- started :: Started(j) in outcomes)
  }

  /** Spec i was skipped if and only if the cache may answer at all and either had its entry at first or got it from
      an earlier job that had succeeded by then.  `good` are the jobs that were collected with success when the
      spec was handed over. */
  ghost predicate SkippedIff(specs: seq<JobSpec>, outcomes: seq<Outcome>, i: nat, good: set<Job>,
                             first: map<Identity, string>, uses: bool, answers: Answers)
    requires i < |outcomes| <= |specs|
  {
    outcomes[i].Skipped? <==> uses && (HeldBy(first, specs[i], answers) || Repeats(specs, outcomes, i, good))
  }

  /** An earlier spec with the same identity, one that has files to hash, was started as one of the good jobs. */
  ghost predicate Repeats(specs: seq<JobSpec>, outcomes: seq<Outcome>, i: nat, good: set<Job>)
    requires i < |outcomes| <= |specs|
  {
    specs[i].id.hashTargets != [] &&
    exists k :: 0 <= k < i && outcomes[k].Started? && outcomes[k].job in good && specs[k].id == specs[i].id
  }

  ghost predicate SkipsRight(specs: seq<JobSpec>, outcomes: seq<Outcome>, goods: seq<set<Job>>,
                             first: map<Identity, string>, uses: bool, answers: Answers)
  {
    && |goods| == |outcomes| <= |specs|
    && forall i :: 0 <= i < |outcomes| ==> SkippedIff(specs, outcomes, i, goods[i], first, uses, answers)
  }

  ghost function Successes(started: set<Job>): set<Job>
    reads started`state
  {
    set j <- started | j.state == Success
  }

  ghost function StartedJobs(outcomes: seq<Outcome>): set<Job> {
    set o <- outcomes | o.Started? :: o.job
  }

  /** When each spec was handed over, less than `maxjobs` of the jobs before it, the bad ones aside, were not good yet. */
  ghost predicate InTime(outcomes: seq<Outcome>, goods: seq<set<Job>>, good: set<Job>, bad: set<Job>, maxjobs: int) {
    && |goods| == |outcomes|
    && forall i :: 0 <= i < |outcomes| ==> goods[i] <= good && |StartedJobs(outcomes[..i]) - goods[i] - bad| < maxjobs
  }

  lemma InTimeNext(outcomes: seq<Outcome>, goods: seq<set<Job>>, good: set<Job>, bad: set<Job>, maxjobs: int,
                   outcome: Outcome, good': set<Job>, bad': set<Job>)
    requires InTime(outcomes, goods, good, bad, maxjobs) && good <= good' && bad <= bad'
    requires |StartedJobs(outcomes) - good' - bad'| < maxjobs
    ensures InTime(outcomes + [outcome], goods + [good'], good', bad', maxjobs)
  {
    hide StartedJobs;
    InTimeLater(outcomes, goods, good, bad, maxjobs, good', bad');
    var n, more, goods' := |outcomes|, outcomes + [outcome], goods + [good'];
    forall i | 0 <= i < |more| ensures goods'[i] <= good' && |StartedJobs(more[..i]) - goods'[i] - bad'| < maxjobs {
      assert more[..i] == outcomes[..i];
      if i == n { assert outcomes[..n] == outcomes; }
    }
  }

  lemma InTimeLater(outcomes: seq<Outcome>, goods: seq<set<Job>>, good: set<Job>, bad: set<Job>, maxjobs: int,
                    good': set<Job>, bad': set<Job>)
    requires InTime(outcomes, goods, good, bad, maxjobs) && good <= good' && bad <= bad'
    ensures InTime(outcomes, goods, good', bad', maxjobs)
  {
    hide StartedJobs;
    forall i | 0 <= i < |outcomes| ensures goods[i] <= good' && |StartedJobs(outcomes[..i]) - goods[i] - bad'| < maxjobs {
      var before := StartedJobs(outcomes[..i]) - goods[i];
      Fewer(before - bad', before - bad);
    }
  }

  /** One more spec, by what the cache holds when it is handed over. */
  lemma SkipsNext(specs: seq<JobSpec>, outcomes: seq<Outcome>, goods: seq<set<Job>>, first: map<Identity, string>, uses: bool,
                  answers: Answers, outcome: Outcome, good: set<Job>, m: map<Identity, string>, stores: bool)
    requires SkipsRight(specs, outcomes, goods, first, uses, answers) && |outcomes| < |specs|
    requires Traced(good, first, m, answers, stores) && (uses ==> stores)
    requires outcome.Skipped? <==> uses && HeldBy(m, specs[|outcomes|], answers)
    requires forall j <- good :: Started(j) in outcomes + [outcome]
    requires forall k :: 0 <= k < |outcomes| && outcomes[k].Started? ==> outcomes[k].job.spec == specs[k] && Hashed(outcomes[k].job, answers)
    ensures SkipsRight(specs, outcomes + [outcome], goods + [good], first, uses, answers)
  {
    hide SkippedIff;
    var n, more := |outcomes|, outcomes + [outcome];
    forall i | 0 <= i < |more| ensures SkippedIff(specs, more, i, (goods + [good])[i], first, uses, answers) {
      if i < n {
        SkippedMore(specs, outcomes, i, goods[i], first, uses, answers, outcome);
      } else {
        LastSkip(specs, outcomes, first, uses, answers, outcome, good, m, stores);
      }
    }
  }

  lemma SkippedMore(specs: seq<JobSpec>, outcomes: seq<Outcome>, i: nat, good: set<Job>, first: map<Identity, string>, uses: bool,
                    answers: Answers, outcome: Outcome)
    requires i < |outcomes| < |specs| && SkippedIff(specs, outcomes, i, good, first, uses, answers)
    ensures SkippedIff(specs, outcomes + [outcome], i, good, first, uses, answers)
  {
    hide HeldBy;
    var more := outcomes + [outcome];
    assert forall k :: 0 <= k <= i ==> more[k] == outcomes[k];
  }

  lemma LastSkip(specs: seq<JobSpec>, outcomes: seq<Outcome>, first: map<Identity, string>, uses: bool, answers: Answers,
                 outcome: Outcome, good: set<Job>, m: map<Identity, string>, stores: bool)
    requires |outcomes| < |specs| && Traced(good, first, m, answers, stores) && (uses ==> stores)
    requires outcome.Skipped? <==> uses && HeldBy(m, specs[|outcomes|], answers)
    requires forall j <- good :: Started(j) in outcomes + [outcome]
    requires forall k :: 0 <= k < |outcomes| && outcomes[k].Started? ==> outcomes[k].job.spec == specs[k] && Hashed(outcomes[k].job, answers)
    ensures SkippedIff(specs, outcomes + [outcome], |outcomes|, good, first, uses, answers)
  {
    var n, more := |outcomes|, outcomes + [outcome];
    var id := specs[n].id;
    if outcome.Skipped? && !HeldBy(first, specs[n], answers) {
      var j :| j in good && (id, m[id]) in PassOf(j);
      assert Started(j) in more;
      var k :| 0 <= k < |more| && more[k] == Started(j);
      assert k < n && outcomes[k] == more[k];
    }
    if uses && Repeats(specs, more, n, good) {
      var k :| 0 <= k < n && more[k].Started? && more[k].job in good && specs[k].id == id;
      assert outcomes[k] == more[k];
      assert HeldBy(m, specs[n], answers);
    }
  }

  lemma HandedOverLater(spec: JobSpec, outcome: Outcome, answers: Answers, passed: set<Pass>, passed': set<Pass>)
    requires HandedOver(spec, outcome, answers, passed) && passed <= passed'
    ensures HandedOver(spec, outcome, answers, passed')
  {
  }

  lemma AccountedNext(specs: seq<JobSpec>, outcomes: seq<Outcome>, started: set<Job>, answers: Answers, passed: set<Pass>,
                      before: seq<JobSpec>, launched: seq<JobSpec>,
                      outcome: Outcome, started': set<Job>, passed': set<Pass>, launched': seq<JobSpec>)
    requires Accounted(specs, outcomes, started, answers, passed, before, launched) && passed <= passed' && |outcomes| < |specs|
    requires HandedOver(specs[|outcomes|], outcome, answers, passed')
    requires outcome.Started? ==> started' == started + {outcome.job} && outcome.job.pid == |launched| && launched' == launched + [specs[|outcomes|]]
    requires outcome.Skipped? ==> started' == started && launched' == launched
    ensures Accounted(specs, outcomes + [outcome], started', answers, passed', before, launched')
  {
    hide HandedOver, StartedSpecs;
    var n, more := |outcomes|, outcomes + [outcome];
    StartedMore(specs, outcomes, outcome);
    Regroup(before, StartedSpecs(specs, outcomes), if outcome.Started? then [specs[n]] else []);
    forall i | 0 <= i < |more| ensures HandedOver(specs[i], more[i], answers, passed') {
      if i < n {
        HandedOverLater(specs[i], outcomes[i], answers, passed, passed');
      }
    }
    forall i | 0 <= i < |more| && more[i].Started?
      ensures more[i].job in started' && more[i].job.pid == |before| + |StartedSpecs(specs, more[..i])|
    {
      assert more[..i] == outcomes[..i];
      if i == n { assert outcomes[..n] == outcomes; }
    }
    ListedOutcomes(outcomes, started, outcome, started');
  }

  lemma Regroup(a: seq<JobSpec>, b: seq<JobSpec>, c: seq<JobSpec>)
    ensures (a + b) + c == a + (b + c) && b + [] == b
  {
  }

  lemma StartedMore(specs: seq<JobSpec>, outcomes: seq<Outcome>, outcome: Outcome)
    requires |outcomes| < |specs|
    ensures StartedSpecs(specs, outcomes + [outcome]) ==
            StartedSpecs(specs, outcomes) + if outcome.Started? then [specs[|outcomes|]] else []
  {
    assert (outcomes + [outcome])[..|outcomes|] == outcomes;
  }

  lemma ListedOutcomes(outcomes: seq<Outcome>, started: set<Job>, outcome: Outcome, started': set<Job>)
    requires forall j <- started :: Started(j) in outcomes
    requires started' == if outcome.Started? then started + {outcome.job} else started
    ensures forall j <- started' :: Started(j) in outcomes + [outcome]
  {
    var more := outcomes + [outcome];
    assert more[|outcomes|] == outcome;
    forall j <- started' ensures Started(j) in more {
      if j in started {
        assert Started(j) in outcomes;
      }
    }
  }

  /** The loop of run() over its command lines. */
  method StartAll(js: Jobset, specs: seq<JobSpec>) returns (ghost outcomes: seq<Outcome>, ghost goods: seq<set<Job>>)
    requires js.Valid() && js.started == {}
    modifies js, js.world`readings, js.world`waits, js.world`asks, js.world`launched, js.world`passed, js.cache
    ensures js.Valid() && (|outcomes| < |specs| ==> js.cancelled)
    ensures Accounted(specs, outcomes, js.started, js.world.answers, js.world.passed, old(js.world.launched), js.world.launched)
    ensures js.world.passed >= old(js.world.passed) && (!js.cancelled ==> js.world.asks >= old(js.world.asks) + |specs|)
    ensures forall j <- js.started :: fresh(j)
    ensures SkipsRight(specs, outcomes, goods, js.firstCache, js.cache.stores && js.cache.useCacheResults, js.world.answers)
    ensures InTime(outcomes, goods, js.Good(), js.bad, js.maxjobs)
  {
    hide Jobset.Valid, Accounted, SkipsRight, InTime, HandedOver, HeldBy, ClockAt;
    outcomes, goods := [], [];
    ghost var uses := js.cache.stores && js.cache.useCacheResults;
    NothingAccounted(specs, js.world.answers, js.world.passed, js.world.launched);
    NoSkips(specs, js.firstCache, uses, js.world.answers, js.Good(), js.bad, js.maxjobs);
    for i := 0 to |specs|
      invariant js.Valid() && |outcomes| == i
      invariant Accounted(specs, outcomes, js.started, js.world.answers, js.world.passed, old(js.world.launched), js.world.launched)
      invariant js.world.passed >= old(js.world.passed) && js.world.asks >= old(js.world.asks) + i
      invariant forall j <- js.started :: fresh(j)
      invariant SkipsRight(specs, outcomes, goods, js.firstCache, uses, js.world.answers)
      invariant InTime(outcomes, goods, js.Good(), js.bad, js.maxjobs)
    {
      js.Listing();
      ghost var started, passed, launched, good, bad := js.started, js.world.passed, js.world.launched, js.Good(), js.bad;
      ghost var outcome;
      var more;
      more, outcome := js.Start(specs[i]);
      if !more {
        PassedMore(specs, outcomes, started, js.world.answers, passed, js.world.passed, old(js.world.launched), launched);
        InTimeLater(outcomes, goods, good, bad, js.maxjobs, js.Good(), js.bad);
        break;
      }
      AccountedNext(specs, outcomes, started, js.world.answers, passed, old(js.world.launched), launched,
                    outcome, js.started, js.world.passed, js.world.launched);
      js.Tracks();
      AccountedJobs(specs, outcomes, started, js.world.answers, passed, old(js.world.launched), launched, outcome, js.started);
      SkipsNext(specs, outcomes, goods, js.firstCache, uses, js.world.answers, outcome, js.Good(), js.cache.lastSuccessfulRun, js.cache.stores);
      InTimeNext(outcomes, goods, good, bad, js.maxjobs, outcome, js.Good(), js.bad);
      outcomes, goods := outcomes + [outcome], goods + [js.Good()];
    }
  }

  lemma AccountedJobs(specs: seq<JobSpec>, outcomes: seq<Outcome>, started: set<Job>, answers: Answers, passed: set<Pass>,
                      before: seq<JobSpec>, launched: seq<JobSpec>, outcome: Outcome, started': set<Job>)
    requires Accounted(specs, outcomes, started, answers, passed, before, launched)
    requires started' == if outcome.Started? then started + {outcome.job} else started
    ensures |outcomes| <= |specs| && StartedJobs(outcomes) == started
    ensures forall k :: 0 <= k < |outcomes| && outcomes[k].Started? ==> outcomes[k].job.spec == specs[k] && Hashed(outcomes[k].job, answers)
    ensures forall j <- started' :: Started(j) in outcomes + [outcome]
  {
    hide StartedSpecs, SkipJustified, Hashed;
    ListedOutcomes(outcomes, started, outcome, started');
    forall j ensures j in StartedJobs(outcomes) <==> j in started {
      if j in StartedJobs(outcomes) {
        var k :| 0 <= k < |outcomes| && outcomes[k] == Started(j);
        assert outcomes[k].job in started;
      }
    }
  }

  lemma NoSkips(specs: seq<JobSpec>, first: map<Identity, string>, uses: bool, answers: Answers, good: set<Job>, bad: set<Job>, maxjobs: int)
    ensures SkipsRight(specs, [], [], first, uses, answers) && InTime([], [], good, bad, maxjobs)
  {
  }

  lemma NothingAccounted(specs: seq<JobSpec>, answers: Answers, passed: set<Pass>, launched: seq<JobSpec>)
    ensures Accounted(specs, [], {}, answers, passed, launched, launched)
  {
  }

  lemma PassedMore(specs: seq<JobSpec>, outcomes: seq<Outcome>, started: set<Job>, answers: Answers, passed: set<Pass>,
                   passed': set<Pass>, before: seq<JobSpec>, launched: seq<JobSpec>)
    requires Accounted(specs, outcomes, started, answers, passed, before, launched) && passed <= passed'
    ensures Accounted(specs, outcomes, started, answers, passed', before, launched)
  {
    hide HandedOver;
    forall i | 0 <= i < |outcomes| ensures HandedOver(specs[i], outcomes[i], answers, passed') {
      HandedOverLater(specs[i], outcomes[i], answers, passed, passed');
    }
  }

  /**
   run().  Each spec is started once, in order and with a process of its own, or skipped; only a cancellation ends
   that early.  A spec is skipped if and only if the cache may answer and had its entry at first or got it from an
   earlier job that had succeeded by then; less than `maxjobs` of the earlier jobs that succeed had not done so then.
   It was cancelled if and only if a check said so or, with stop_on_failure, a job did not succeed, and otherwise
   it asked at every spec and at the end.  It returns True if and only if nothing was cancelled and every started
   job succeeded.  A job is in the state that its process reported when it was polled, which was at least once
   between waits; without a cancellation it was killed only if at its last poll the clock showed that its time
   was up; and the clock is read only to start a job, to poll one or to record a success.
   */
  method Run(specs: seq<JobSpec>, maxjobs: int, stopOnFailure: bool, world: World, cache: TestCache)
    returns (ok: bool, js: Jobset, ghost outcomes: seq<Outcome>, ghost goods: seq<set<Job>>)
    requires maxjobs >= 1 && cache.Sound(world.passed)
    modifies world`readings, world`waits, world`asks, world`launched, world`passed, cache
    ensures cache.Sound(world.passed)
    ensures js.running == {} && js.completed == |js.started|
    ensures Accounted(specs, outcomes, js.started, world.answers, world.passed, old(world.launched), world.launched)
    ensures |outcomes| < |specs| ==> js.cancelled
    ensures js.cancelled <==> SaidYes(world.answers, old(world.asks), world.asks) ||
                              (stopOnFailure && exists j <- js.started :: j.state != Success)
    ensures !js.cancelled ==> world.asks > old(world.asks) + |specs|
    ensures ok <==> !js.cancelled && forall j <- js.started :: j.state == Success
    ensures forall j <- js.started :: j.state != Running && Reported(world.answers, j.pid, j.polls, j.state)
    ensures forall j <- js.started :: Began(j, world.answers, old(world.At())) && Timed(j, world.At())
    ensures forall j <- js.started :: j.state == Killed ==> js.cancelled || TimedOut(j, world.answers)
    ensures world.readings <= old(world.readings) + |js.started| + TotalPolls(js.started) + 2 * |Successes(js.started)|
    ensures SkipsRight(specs, outcomes, goods, old(cache.lastSuccessfulRun), cache.stores && cache.useCacheResults, world.answers)
    ensures InTime(outcomes, goods, Successes(js.started), js.started - Successes(js.started), maxjobs)
    ensures forall p <- world.passed :: p in old(world.passed) || exists j <- js.started :: j.state == Success && p in PassOf(j)
  {
    hide Jobset.Valid, Reported, SaidYes, Accounted, TestCache.Sound, SkipsRight, InTime, ClockAt, Timed, TimedOut,
         Began, PassOf, TotalPolls;
    js := new Jobset(maxjobs, stopOnFailure, world, cache);
    outcomes, goods := StartAll(js, specs);
    ghost var passed, good, bad := world.passed, js.Good(), js.bad;
    js.Listing();
    ok := js.Finish();
    InTimeLater(outcomes, goods, good, bad, maxjobs, js.Good(), js.bad);
    PassedMore(specs, outcomes, js.started, world.answers, passed, world.passed, old(world.launched), world.launched);
    js.Settled();
    js.SettledPasses();
    NotAll(js.started);
  }

  lemma NotAll(started: set<Job>)
    ensures started - Successes(started) != {} <==> exists j <- started :: j.state != Success
  {
    if j :| j in started && j.state != Success {
      assert j in started - Successes(started);
    }
  }

  lemma EmptyOrNot(s: set<Job>)
    ensures |s| > 0 <==> exists j :: j in s
  {
    if |s| > 0 { var j :| j in s; }
  }
}
