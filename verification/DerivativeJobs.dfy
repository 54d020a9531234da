/** Derivative jobs: eight slots, one lock per storage key kept in a map of weak references, and
    a write that is either offered to a Core commit or rolled back. The awaiting future may be
    dropped at any point, while blocking workers always run to completion.
 */
module DerivativeJobs {
  import opened Common

  const SLOTS: nat := 8

  /** How far the future of a job has come; a failure on the way leads to its end. */
  datatype Stage = Waiting | Preparing | Generating | Snapshotting | Writing | Finishing | Ended

  datatype Worker = Idle | GenerateWorker | WriteWorker

  /** The written result, until its drop is complete. Only a queued one can be offered. */
  datatype Written = Absent | Unsettled(queued: bool) | Settled

  /** A live job: its future waits for the lock or, from `Preparing` on, the lease is held by
      the future, by a worker or by the written result. */
  datatype Job = Job(key: string, lock: nat, stage: Stage, worker: Worker, written: Written)

  /** What has happened to the write of a job so far. */
  datatype Tally = Tally(produced: nat, offered: nat, rolledBack: nat)

  /** Locks are numbered in the order they are made. */
  datatype State = State(free: nat, keys: map<string, nat>, made: nat, jobs: map<nat, Job>, tallies: map<nat, Tally>)

  const START := State(SLOTS, map[], 0, map[], map[])

  datatype Event =
    | Begin(id: nat, key: string, dying: set<nat>)
    | Acquire(id: nat)
    | Prepared(id: nat, cached: bool)
    | GenerateDone(id: nat)
    | Snapshotted(id: nat)
    | WriteDone(id: nat, ok: bool)
    | Offer(id: nat)
    | RollBack(id: nat)
    | Release(id: nat)
    | FutureEnds(id: nat)

  predicate HoldsLease(job: Job) {
    job.stage != Waiting
  }

  /** The locks some job still refers to, as a waiter or through its guard. */
  function Referenced(jobs: map<nat, Job>): set<nat> {
    set id | id in jobs :: jobs[id].lock
  }

  /** The map after dropping dead entries and looking up a key, and the lock found or made. A
      lock in `alive` had references when dead entries were dropped; one in `strong` still has
      when its entry is upgraded. */
  function Lookup(keys: map<string, nat>, made: nat, key: string, alive: set<nat>, strong: set<nat>): (map<string, nat>, nat) {
    var retained := map k | k in keys && keys[k] in alive :: keys[k];
    if key in retained && retained[key] in strong then (retained, retained[key])
    else (retained[key := made], made)
  }

  /** Nobody is left who holds the lease. */
  predicate Gone(job: Job) {
    job.stage == Ended && job.worker == Idle && job.written == Absent
  }

  /** One job takes one event; one that does not apply changes nothing. */
  function NextJob(job: Job, tally: Tally, e: Event, lockFree: bool): (Job, Tally) {
    match e
    case Begin(_, _, _) => (job, tally)
    case Acquire(_) =>
      (if job.stage == Waiting && lockFree then job.(stage := Preparing) else job, tally)
    case Prepared(_, cached) =>
      (if job.stage != Preparing then job
       else if cached then job.(stage := Finishing)
       else job.(stage := Generating, worker := GenerateWorker), tally)
    case GenerateDone(_) =>
      (if job.worker != GenerateWorker then job
       else job.(worker := Idle, stage := if job.stage == Generating then Snapshotting else job.stage), tally)
    case Snapshotted(_) =>
      (if job.stage != Snapshotting then job else job.(stage := Writing, worker := WriteWorker), tally)
    case WriteDone(_, ok) =>
      var awaited := job.stage == Writing;
      var next := job.(worker := Idle, stage := if awaited then Finishing else job.stage);
      if job.worker != WriteWorker then (job, tally)
      else if !ok then (next, tally)
      else (next.(written := Unsettled(awaited)), tally.(produced := tally.produced + 1))
    case Offer(_) =>
      if job.written != Unsettled(true) then (job, tally)
      else (job.(written := Settled), tally.(offered := tally.offered + 1))
    case RollBack(_) =>
      if !job.written.Unsettled? then (job, tally)
      else (job.(written := Settled), tally.(rolledBack := tally.rolledBack + 1))
    case Release(_) =>
      (if job.written != Settled then job else job.(written := Absent), tally)
    case FutureEnds(_) =>
      (job.(stage := Ended), tally)
  }

  /** No other job holds the lock. */
  predicate LockFree(jobs: map<nat, Job>, id: nat, lock: nat) {
    forall other :: other in jobs && other != id && HoldsLease(jobs[other]) ==> jobs[other].lock != lock
  }

  /** The job and its tally replaced; a job that is gone gives back its slot. */
  function Update(s: State, id: nat, job: Job, tally: Tally): State {
    if Gone(job) then s.(jobs := s.jobs - {id}, free := s.free + 1, tallies := s.tallies[id := tally])
    else s.(jobs := s.jobs[id := job], tallies := s.tallies[id := tally])
  }

  function Step(s: State, e: Event): State {
    if e.Begin? then
      if e.id in s.tallies || s.free == 0 then s
      else
        var strong := Referenced(s.jobs);
        var (keys, lock) := Lookup(s.keys, s.made, e.key, strong + e.dying, strong);
        State(s.free - 1, keys, s.made + 1, s.jobs[e.id := Job(e.key, lock, Waiting, Idle, Absent)],
              s.tallies[e.id := Tally(0, 0, 0)])
    else if e.id in s.jobs && e.id in s.tallies then
      var job := s.jobs[e.id];
      var (next, tally) := NextJob(job, s.tallies[e.id], e, LockFree(s.jobs, e.id, job.lock));
      Update(s, e.id, next, tally)
    else s
  }

  function Run(events: seq<Event>): State {
    if events == [] then START else Step(Run(events[..|events| - 1]), events[|events| - 1])
  }

  // ---- The invariant --------------------------------------------------------------------

  ghost predicate JobOk(job: Job, tally: Tally) {
    && (job.written == Absent ==> tally.produced == tally.offered + tally.rolledBack <= 1)
    && (job.written.Unsettled? ==> tally == Tally(1, 0, 0))
    && (job.written == Settled ==> tally.produced == tally.offered + tally.rolledBack == 1)
    && (job.written != Absent ==> job.worker == Idle && (job.stage == Finishing || job.stage == Ended))
    && (job.stage == Generating <==> job.worker == GenerateWorker && job.stage != Ended)
    && (job.stage == Writing <==> job.worker == WriteWorker && job.stage != Ended)
    && (job.worker != Idle || (job.stage != Finishing && job.stage != Ended) ==> tally == Tally(0, 0, 0))
  }

  /** Every live job finds its own lock under its key. */
  ghost predicate LocksOk(s: State) {
    && (forall k :: k in s.keys ==> s.keys[k] < s.made)
    && (forall id :: id in s.jobs ==> s.jobs[id].key in s.keys && s.keys[s.jobs[id].key] == s.jobs[id].lock)
    && (forall k, h :: k in s.keys && h in s.keys && s.keys[k] == s.keys[h] ==> k == h)
  }

  ghost predicate OneHolder(s: State) {
    forall id :: id in s.jobs && HoldsLease(s.jobs[id]) ==> LockFree(s.jobs, id, s.jobs[id].lock)
  }

  ghost predicate TalliesOk(s: State) {
    && (forall id :: id in s.jobs ==> id in s.tallies && JobOk(s.jobs[id], s.tallies[id]))
    && (forall id :: id in s.tallies && id !in s.jobs ==>
          s.tallies[id].produced == s.tallies[id].offered + s.tallies[id].rolledBack <= 1)
  }

  ghost predicate Inv(s: State) {
    s.free + |s.jobs| == SLOTS && LocksOk(s) && OneHolder(s) && TalliesOk(s)
  }

  lemma OneLess(jobs: map<nat, Job>, id: nat)
    requires id in jobs
    ensures |jobs - {id}| == |jobs| - 1
  {
    assert (jobs - {id})[id := jobs[id]] == jobs;
  }

  lemma NextJobOk(job: Job, tally: Tally, e: Event, lockFree: bool)
    requires JobOk(job, tally)
    ensures var (next, more) := NextJob(job, tally, e, lockFree);
            && JobOk(next, more) && next.key == job.key && next.lock == job.lock
            && (HoldsLease(next) && !Gone(next) ==> HoldsLease(job) || lockFree)
  {
  }

  lemma LocksAfterUpdate(s: State, id: nat, job: Job, tally: Tally)
    requires LocksOk(s) && id in s.jobs && job.key == s.jobs[id].key && job.lock == s.jobs[id].lock
    ensures LocksOk(Update(s, id, job, tally))
  {
  }

  lemma HoldersAfterUpdate(s: State, id: nat, job: Job, tally: Tally)
    requires OneHolder(s) && id in s.jobs
    requires HoldsLease(job) && !Gone(job) ==> LockFree(s.jobs, id, job.lock)
    ensures OneHolder(Update(s, id, job, tally))
  {
    var u := Update(s, id, job, tally);
    forall x, y | x in u.jobs && y in u.jobs && x != y && HoldsLease(u.jobs[x]) && HoldsLease(u.jobs[y])
      ensures u.jobs[x].lock != u.jobs[y].lock
    {
      if x == id {
        assert LockFree(s.jobs, id, job.lock);
      } else if y == id {
        assert LockFree(s.jobs, id, job.lock);
      } else {
        assert LockFree(s.jobs, x, s.jobs[x].lock);
      }
    }
  }

  lemma TalliesAfterUpdate(s: State, id: nat, job: Job, tally: Tally)
    requires TalliesOk(s) && id in s.jobs && JobOk(job, tally)
    ensures TalliesOk(Update(s, id, job, tally))
  {
  }

  lemma JobStepKeeps(s: State, e: Event)
    requires Inv(s) && !e.Begin? && e.id in s.jobs
    ensures Inv(Step(s, e))
  {
    hide LocksOk, OneHolder, TalliesOk, NextJob, JobOk;
    var job := s.jobs[e.id];
    assert e.id in s.tallies && JobOk(job, s.tallies[e.id]) by { HasTally(s, e.id); }
    var lockFree := LockFree(s.jobs, e.id, job.lock);
    NextJobOk(job, s.tallies[e.id], e, lockFree);
    var (next, tally) := NextJob(job, s.tallies[e.id], e, lockFree);
    if HoldsLease(job) {
      HolderIsAlone(s, e.id);
    }
    OneLess(s.jobs, e.id);
    LocksAfterUpdate(s, e.id, next, tally);
    HoldersAfterUpdate(s, e.id, next, tally);
    TalliesAfterUpdate(s, e.id, next, tally);
  }

  lemma HasTally(s: State, id: nat)
    requires TalliesOk(s) && id in s.jobs
    ensures id in s.tallies && JobOk(s.jobs[id], s.tallies[id])
  {
  }

  lemma HolderIsAlone(s: State, id: nat)
    requires OneHolder(s) && id in s.jobs && HoldsLease(s.jobs[id])
    ensures LockFree(s.jobs, id, s.jobs[id].lock)
  {
  }

  /** An entry is replaced only when nobody refers to its lock. */
  lemma LookupKeeps(s: State, key: string, dying: set<nat>)
    requires LocksOk(s)
    ensures var strong := Referenced(s.jobs);
            var (keys, lock) := Lookup(s.keys, s.made, key, strong + dying, strong);
            && key in keys && keys[key] == lock && lock <= s.made
            && (forall k :: k in keys ==> keys[k] <= s.made)
            && (forall k, h :: k in keys && h in keys && keys[k] == keys[h] ==> k == h)
            && (forall id :: id in s.jobs ==> s.jobs[id].key in keys && keys[s.jobs[id].key] == s.jobs[id].lock)
  {
    forall id | id in s.jobs ensures s.jobs[id].lock in Referenced(s.jobs) {
    }
  }

  lemma BeginKeeps(s: State, e: Event)
    requires Inv(s) && e.Begin?
    ensures Inv(Step(s, e))
  {
    if e.id !in s.tallies && s.free > 0 {
      hide LocksOk, OneHolder, TalliesOk, Lookup, Referenced;
      LocksAfterBegin(s, e);
      HoldersAfterBegin(s, e);
      TalliesAfterBegin(s, e);
    }
  }

  lemma LocksAfterBegin(s: State, e: Event)
    requires LocksOk(s) && e.Begin? && e.id !in s.tallies && s.free > 0
    ensures LocksOk(Step(s, e))
  {
    hide Lookup, Referenced;
    LookupKeeps(s, e.key, e.dying);
  }

  lemma HoldersAfterBegin(s: State, e: Event)
    requires OneHolder(s) && TalliesOk(s) && e.Begin? && e.id !in s.tallies && s.free > 0
    ensures OneHolder(Step(s, e))
  {
    hide Lookup, Referenced;
    var u := Step(s, e);
    forall id | id in u.jobs && HoldsLease(u.jobs[id]) ensures LockFree(u.jobs, id, u.jobs[id].lock) {
      HolderIsAlone(s, id);
    }
  }

  lemma TalliesAfterBegin(s: State, e: Event)
    requires TalliesOk(s) && e.Begin? && e.id !in s.tallies && s.free > 0
    ensures TalliesOk(Step(s, e)) && Step(s, e).free + |Step(s, e).jobs| == s.free + |s.jobs|
  {
    hide Lookup, Referenced;
    assert e.id !in s.jobs;
  }

  lemma StepKeeps(s: State, e: Event)
    requires Inv(s)
    ensures Inv(Step(s, e))
  {
    hide Inv;
    if e.Begin? {
      BeginKeeps(s, e);
    } else if e.id in s.jobs && e.id in s.tallies {
      JobStepKeeps(s, e);
    }
  }

  lemma {:induction false} Reachable(events: seq<Event>)
    ensures Inv(Run(events))
  {
    if events != [] {
      Reachable(events[..|events| - 1]);
      StepKeeps(Run(events[..|events| - 1]), events[|events| - 1]);
    }
  }

  // ---- What it means --------------------------------------------------------------------

  /** A write in progress, waiting to be settled, or being rolled back. */
  predicate WriteOpen(job: Job) {
    job.worker == WriteWorker || job.written != Absent
  }

  /** Jobs with one storage key never overlap from the lock to the end of commit or rollback,
      waiters on one key wait for one lock, and different keys do not share locks. */
  lemma SameKeyIsSerialized(events: seq<Event>, id: nat, other: nat)
    requires id in Run(events).jobs && other in Run(events).jobs && id != other
    ensures var job, rival := Run(events).jobs[id], Run(events).jobs[other];
            && (WriteOpen(job) ==> HoldsLease(job))
            && (HoldsLease(job) && HoldsLease(rival) ==> job.key != rival.key)
            && (job.key == rival.key <==> job.lock == rival.lock)
  {
    Reachable(events);
  }

  /** Every write result is offered to a commit or rolled back, never both, never twice, and
      not later than the end of its job. */
  lemma WritesAreSettledOnce(events: seq<Event>, id: nat)
    requires id in Run(events).tallies
    ensures var tally := Run(events).tallies[id];
            && tally.offered + tally.rolledBack <= tally.produced <= 1
            && (id !in Run(events).jobs ==> tally.offered + tally.rolledBack == tally.produced)
            && (id in Run(events).jobs ==>
                  (tally.offered + tally.rolledBack < tally.produced <==> Run(events).jobs[id].written.Unsettled?))
  {
    Reachable(events);
  }

  lemma AtMostEightJobs(events: seq<Event>)
    ensures |Run(events).jobs| <= SLOTS && Run(events).free == SLOTS - |Run(events).jobs|
  {
    Reachable(events);
  }

  /** What is left to happen once the future of a job is dropped. */
  function Aftermath(id: nat, ok: bool): seq<Event> {
    [FutureEnds(id), GenerateDone(id), WriteDone(id, ok), RollBack(id), Release(id)]
  }

  function Continue(s: State, events: seq<Event>): State
    decreases |events|
  {
    if events == [] then s else Continue(Step(s, events[0]), events[1..])
  }

  /** A job whose future is dropped goes away once its worker returns and its result is dropped,
      and gives back its slot. */
  lemma DroppedJobsEnd(events: seq<Event>, id: nat, ok: bool)
    requires id in Run(events).jobs
    ensures id !in Run(events + Aftermath(id, ok)).jobs
    ensures id in Run(events + Aftermath(id, ok)).tallies
    ensures var tally := Run(events + Aftermath(id, ok)).tallies[id]; tally.offered + tally.rolledBack == tally.produced
  {
    hide Run, Step;
    var s := Run(events);
    var after := Aftermath(id, ok);
    Reachable(events);
    HasTally(s, id);
    RunThen(events, after);
    AftermathEnds(id, s.jobs[id], s.tallies[id], ok);
    ContinueOne(s, id, after);
    WritesAreSettledOnce(events + after, id);
  }

  lemma {:induction false} RunThen(events: seq<Event>, more: seq<Event>)
    ensures Run(events + more) == Continue(Run(events), more)
    decreases |more|
  {
    if more == [] {
      assert events + more == events;
    } else {
      assert events + more == (events + [more[0]]) + more[1..];
      assert (events + [more[0]])[..|events|] == events;
      RunThen(events + [more[0]], more[1..]);
    }
  }

  /** What becomes of one job under events of its own, other than taking the lock. */
  function Alone(job: Job, tally: Tally, events: seq<Event>): Option<Job>
    decreases |events|
  {
    if events == [] then Some(job)
    else
      var (next, more) := NextJob(job, tally, events[0], false);
      if Gone(next) then None else Alone(next, more, events[1..])
  }

  lemma {:induction false} ContinueOne(s: State, id: nat, events: seq<Event>)
    requires id in s.jobs && id in s.tallies
    requires forall e :: e in events ==> e.id == id && !e.Begin? && !e.Acquire?
    ensures id in Continue(s, events).tallies
    ensures Alone(s.jobs[id], s.tallies[id], events) == None ==> id !in Continue(s, events).jobs
    decreases |events|
  {
    if events != [] {
      assert events[0] in events;
      var u := Step(s, events[0]);
      if id in u.jobs {
        ContinueOne(u, id, events[1..]);
      } else {
        ContinueWithout(u, id, events[1..]);
      }
    }
  }

  lemma {:induction false} ContinueWithout(s: State, id: nat, events: seq<Event>)
    requires id !in s.jobs && id in s.tallies
    requires forall e :: e in events ==> e.id == id && !e.Begin?
    ensures Continue(s, events) == s
  {
    if events != [] {
      assert events[0] in events;
      ContinueWithout(s, id, events[1..]);
    }
  }

  lemma AftermathEnds(id: nat, job: Job, tally: Tally, ok: bool)
    requires JobOk(job, tally)
    ensures Alone(job, tally, Aftermath(id, ok)) == None
  {
    var after := Aftermath(id, ok);
    var (ended, before) := NextJob(job, tally, after[0], false);
    if !Gone(ended) {
      assert after[1..][1..][0] == WriteDone(id, ok) && after[1..][1..][1..] == [RollBack(id), Release(id)];
      var (generated, same) := NextJob(ended, before, after[1], false);
      if !Gone(generated) {
        var (written, more) := NextJob(generated, same, WriteDone(id, ok), false);
        if !Gone(written) {
          var (back, last) := NextJob(written, more, RollBack(id), false);
          assert Gone(NextJob(back, last, Release(id), false).0);
          assert Alone(back, last, [Release(id)]) == None;
          assert [RollBack(id), Release(id)][1..] == [Release(id)];
          assert Alone(written, more, [RollBack(id), Release(id)]) == None;
        }
        assert Alone(generated, same, after[1..][1..]) == None;
      }
      assert Alone(ended, before, after[1..]) == None;
    }
  }

  /** The write of a dropped future: nobody is left to offer it. */
  ghost predicate Detached(s: State, id: nat) {
    && id in s.tallies && s.tallies[id].offered == 0
    && (id in s.jobs ==> s.jobs[id].stage == Ended && s.jobs[id].written != Unsettled(true))
  }

  lemma DetachedStays(s: State, id: nat, e: Event)
    requires Detached(s, id)
    ensures Detached(Step(s, e), id)
  {
  }

  lemma {:induction false} ContinueDetached(s: State, id: nat, events: seq<Event>)
    requires Detached(s, id)
    ensures Detached(Continue(s, events), id)
    decreases |events|
  {
    if events != [] {
      DetachedStays(s, id, events[0]);
      ContinueDetached(Step(s, events[0]), id, events[1..]);
    }
  }

  /** A write whose future was dropped meanwhile is never offered: it is rolled back, once, no
      later than the end of the job. */
  lemma DroppedWritesRollBack(events: seq<Event>, more: seq<Event>, id: nat)
    requires id in Run(events).jobs && Run(events).jobs[id].stage == Ended && Run(events).jobs[id].worker == WriteWorker
    ensures id in Run(events + more).tallies && Run(events + more).tallies[id].offered == 0
    ensures id !in Run(events + more).jobs ==>
              Run(events + more).tallies[id].rolledBack == Run(events + more).tallies[id].produced
  {
    Reachable(events);
    HasTally(Run(events), id);
    RunThen(events, more);
    ContinueDetached(Run(events), id, more);
    WritesAreSettledOnce(events + more, id);
  }

  // ---- The runtime object ---------------------------------------------------------------

  /** The slots and the map, as the runtime object updates them. */
  class DerivativeRuntime {
    var free: nat
    var keys: map<string, nat>
    var made: nat

    constructor ()
      ensures free == SLOTS && keys == map[] && made == 0
    {
      free, keys, made := SLOTS, map[], 0;
    }

    /** Admits one job, or says the runtime is busy. Dead entries are dropped one by one, in
        whatever order the map gives them. */
    method Admit(key: string, alive: set<nat>, strong: set<nat>) returns (lock: nat, busy: bool)
      modifies this
      ensures busy == (old(free) == 0)
      ensures busy ==> unchanged(this)
      ensures !busy ==> free == old(free) - 1 && made == old(made) + 1
      ensures !busy ==> (keys, lock) == Lookup(old(keys), old(made), key, alive, strong)
    {
      busy := free == 0;
      lock := 0;
      if busy {
        return;
      }
      free := free - 1;
      Retain(alive);
      lock := made;
      if key in keys && keys[key] in strong {
        lock := keys[key];
      } else {
        keys := keys[key := lock];
      }
      made := made + 1;
    }

    method Retain(alive: set<nat>)
      modifies `keys
      ensures keys == map k | k in old(keys) && old(keys)[k] in alive :: old(keys)[k]
    {
      var rest := keys.Keys;
      while rest != {}
        invariant rest <= keys.Keys <= old(keys).Keys
        invariant forall k :: k in keys ==> keys[k] == old(keys)[k]
        invariant forall k :: k in old(keys) && k !in rest ==> (k in keys <==> old(keys)[k] in alive)
        decreases |rest|
      {
        var k :| k in rest;
        rest := rest - {k};
        if keys[k] !in alive {
          keys := keys - {k};
        }
      }
    }
  }

  // ---- An undisturbed job ---------------------------------------------------------------

  function Uncached(id: nat, key: string): seq<Event> {
    [Begin(id, key, {}), Acquire(id), Prepared(id, false), GenerateDone(id), Snapshotted(id), WriteDone(id, true),
     Offer(id), Release(id), FutureEnds(id)]
  }

  function Cached(id: nat, key: string): seq<Event> {
    [Begin(id, key, {}), Acquire(id), Prepared(id, true), FutureEnds(id)]
  }

  /** A job that is alone with its key. */
  ghost predicate At(s: State, base: State, id: nat, key: string, lock: nat, stage: Stage, worker: Worker, written: Written, tally: Tally) {
    && s.jobs == base.jobs[id := Job(key, lock, stage, worker, written)]
    && s.tallies == base.tallies[id := tally] && s.free == base.free - 1
    && id !in base.jobs && forall other :: other in base.jobs && HoldsLease(base.jobs[other]) ==> base.jobs[other].lock != lock
  }

  lemma BeginsAlone(s: State, id: nat, key: string)
    requires Inv(s) && s.free > 0 && id !in s.tallies && forall other :: other in s.jobs ==> s.jobs[other].key != key
    ensures exists lock :: At(Step(s, Begin(id, key, {})), s, id, key, lock, Waiting, Idle, Absent, Tally(0, 0, 0))
  {
    var u := Step(s, Begin(id, key, {}));
    assert id !in s.jobs by { NotLive(s, id); }
    var lock := u.jobs[id].lock;
    BeginKeeps(s, Begin(id, key, {}));
    forall other | other in s.jobs ensures s.jobs[other].lock != lock {
      assert u.jobs[other] == s.jobs[other] && u.jobs[id].key == key;
      assert u.keys[s.jobs[other].key] == s.jobs[other].lock && u.keys[key] == lock;
    }
    assert At(u, s, id, key, lock, Waiting, Idle, Absent, Tally(0, 0, 0));
  }

  lemma NotLive(s: State, id: nat)
    requires TalliesOk(s) && id !in s.tallies
    ensures id !in s.jobs
  {
  }

  lemma MovesOn(s: State, base: State, id: nat, key: string, lock: nat, stage: Stage, worker: Worker, written: Written, tally: Tally, e: Event)
    requires At(s, base, id, key, lock, stage, worker, written, tally) && e.id == id && !e.Begin?
    ensures var (job, more) := NextJob(Job(key, lock, stage, worker, written), tally, e, true);
            if Gone(job) then Step(s, e).jobs == base.jobs && Step(s, e).tallies == base.tallies[id := more] && Step(s, e).free == base.free
            else At(Step(s, e), base, id, key, lock, job.stage, job.worker, job.written, more)
  {
    assert LockFree(s.jobs, id, lock);
    assert (base.jobs[id := Job(key, lock, stage, worker, written)]) - {id} == base.jobs;
    hide LockFree;
    var (job, more) := NextJob(Job(key, lock, stage, worker, written), tally, e, true);
    assert s.jobs[id := job] == base.jobs[id := job] && s.tallies[id := more] == base.tallies[id := more];
  }

  lemma Unfold(s: State, e: Event, rest: seq<Event>)
    ensures Continue(s, [e] + rest) == Continue(Step(s, e), rest)
  {
    assert ([e] + rest)[1..] == rest;
  }

  /** A job alone with its key, left alone: uncached it generates, writes and is offered to a
      commit, once; cached it writes nothing. Either way it is gone and its slot free. */
  lemma JobsGoThrough(events: seq<Event>, id: nat, key: string)
    requires var s := Run(events); s.free > 0 && id !in s.tallies && forall other :: other in s.jobs ==> s.jobs[other].key != key
    ensures var s, u := Run(events), Run(events + Uncached(id, key));
            u.jobs == s.jobs && u.free == s.free && u.tallies == s.tallies[id := Tally(1, 1, 0)]
    ensures var s, u := Run(events), Run(events + Cached(id, key));
            u.jobs == s.jobs && u.free == s.free && u.tallies == s.tallies[id := Tally(0, 0, 0)]
  {
    hide Step, At, Continue, Inv;
    var s := Run(events);
    Reachable(events);
    var begun := Step(s, Begin(id, key, {}));
    assert exists lock :: At(begun, s, id, key, lock, Waiting, Idle, Absent, Tally(0, 0, 0)) by { BeginsAlone(s, id, key); }
    var lock :| At(begun, s, id, key, lock, Waiting, Idle, Absent, Tally(0, 0, 0));
    RunThen(events, Uncached(id, key));
    RunThen(events, Cached(id, key));
    var rest := [Prepared(id, false), GenerateDone(id), Snapshotted(id), WriteDone(id, true), Offer(id), Release(id), FutureEnds(id)];
    assert Uncached(id, key) == [Begin(id, key, {})] + ([Acquire(id)] + rest);
    assert Cached(id, key) == [Begin(id, key, {})] + ([Acquire(id)] + [Prepared(id, true), FutureEnds(id)]);
    Unfold(s, Begin(id, key, {}), [Acquire(id)] + rest);
    Unfold(s, Begin(id, key, {}), [Acquire(id)] + [Prepared(id, true), FutureEnds(id)]);
    Unfold(begun, Acquire(id), rest);
    Unfold(begun, Acquire(id), [Prepared(id, true), FutureEnds(id)]);
    MovesOn(begun, s, id, key, lock, Waiting, Idle, Absent, Tally(0, 0, 0), Acquire(id));
    var leased := Step(begun, Acquire(id));
    UncachedGoesThrough(leased, s, id, key, lock);
    CachedGoesThrough(leased, s, id, key, lock);
  }

  lemma CachedGoesThrough(s: State, base: State, id: nat, key: string, lock: nat)
    requires At(s, base, id, key, lock, Preparing, Idle, Absent, Tally(0, 0, 0))
    ensures var u := Continue(s, [Prepared(id, true), FutureEnds(id)]);
            u.jobs == base.jobs && u.free == base.free && u.tallies == base.tallies[id := Tally(0, 0, 0)]
  {
    hide Step, At, Continue;
    var s1 := Step(s, Prepared(id, true));
    MovesOn(s, base, id, key, lock, Preparing, Idle, Absent, Tally(0, 0, 0), Prepared(id, true));
    MovesOn(s1, base, id, key, lock, Finishing, Idle, Absent, Tally(0, 0, 0), FutureEnds(id));
    Unfold(s, Prepared(id, true), [FutureEnds(id)]);
    Unfold(s1, FutureEnds(id), []);
    assert [Prepared(id, true)] + [FutureEnds(id)] == [Prepared(id, true), FutureEnds(id)] && [FutureEnds(id)] + [] == [FutureEnds(id)];
    Nothing(Step(s1, FutureEnds(id)));
  }

  lemma Nothing(s: State)
    ensures Continue(s, []) == s
  {
  }

  lemma UncachedGoesThrough(s: State, base: State, id: nat, key: string, lock: nat)
    requires At(s, base, id, key, lock, Preparing, Idle, Absent, Tally(0, 0, 0))
    ensures var u := Continue(s, [Prepared(id, false), GenerateDone(id), Snapshotted(id), WriteDone(id, true), Offer(id), Release(id), FutureEnds(id)]);
            u.jobs == base.jobs && u.free == base.free && u.tallies == base.tallies[id := Tally(1, 1, 0)]
  {
    hide Step, At, Continue;
    var s1 := Step(s, Prepared(id, false));
    var s2 := Step(s1, GenerateDone(id));
    var s3 := Step(s2, Snapshotted(id));
    MovesOn(s, base, id, key, lock, Preparing, Idle, Absent, Tally(0, 0, 0), Prepared(id, false));
    MovesOn(s1, base, id, key, lock, Generating, GenerateWorker, Absent, Tally(0, 0, 0), GenerateDone(id));
    MovesOn(s2, base, id, key, lock, Snapshotting, Idle, Absent, Tally(0, 0, 0), Snapshotted(id));
    WriteGoesThrough(s3, base, id, key, lock);
    var last := [WriteDone(id, true), Offer(id), Release(id), FutureEnds(id)];
    Unfold(s, Prepared(id, false), [GenerateDone(id), Snapshotted(id)] + last);
    Unfold(s1, GenerateDone(id), [Snapshotted(id)] + last);
    Unfold(s2, Snapshotted(id), last);
    assert [Prepared(id, false)] + ([GenerateDone(id), Snapshotted(id)] + last) ==
      [Prepared(id, false), GenerateDone(id), Snapshotted(id), WriteDone(id, true), Offer(id), Release(id), FutureEnds(id)];
    assert [GenerateDone(id)] + ([Snapshotted(id)] + last) == [GenerateDone(id), Snapshotted(id)] + last;
  }

  lemma WriteGoesThrough(s: State, base: State, id: nat, key: string, lock: nat)
    requires At(s, base, id, key, lock, Writing, WriteWorker, Absent, Tally(0, 0, 0))
    ensures var u := Continue(s, [WriteDone(id, true), Offer(id), Release(id), FutureEnds(id)]);
            u.jobs == base.jobs && u.free == base.free && u.tallies == base.tallies[id := Tally(1, 1, 0)]
  {
    hide Step, At, Continue;
    var s1 := Step(s, WriteDone(id, true));
    var s2 := Step(s1, Offer(id));
    var s3 := Step(s2, Release(id));
    MovesOn(s, base, id, key, lock, Writing, WriteWorker, Absent, Tally(0, 0, 0), WriteDone(id, true));
    MovesOn(s1, base, id, key, lock, Finishing, Idle, Unsettled(true), Tally(1, 0, 0), Offer(id));
    MovesOn(s2, base, id, key, lock, Finishing, Idle, Settled, Tally(1, 1, 0), Release(id));
    MovesOn(s3, base, id, key, lock, Finishing, Idle, Absent, Tally(1, 1, 0), FutureEnds(id));
    Unfold(s, WriteDone(id, true), [Offer(id), Release(id), FutureEnds(id)]);
    Unfold(s1, Offer(id), [Release(id), FutureEnds(id)]);
    Unfold(s2, Release(id), [FutureEnds(id)]);
    Unfold(s3, FutureEnds(id), []);
    Nothing(Step(s3, FutureEnds(id)));
    assert [WriteDone(id, true)] + [Offer(id), Release(id), FutureEnds(id)] == [WriteDone(id, true), Offer(id), Release(id), FutureEnds(id)];
    assert [Offer(id)] + [Release(id), FutureEnds(id)] == [Offer(id), Release(id), FutureEnds(id)];
    assert [Release(id)] + [FutureEnds(id)] == [Release(id), FutureEnds(id)] && [FutureEnds(id)] + [] == [FutureEnds(id)];
  }

  /** With every slot taken a job is not begun. */
  lemma BusyBeginsNothing(events: seq<Event>, id: nat, key: string, dying: set<nat>)
    requires |Run(events).jobs| == 8
    ensures Step(Run(events), Begin(id, key, dying)) == Run(events)
  {
    Reachable(events);
  }

  /** A write that fails leaves nothing to settle. */
  lemma FailedWriteLeavesNothing(events: seq<Event>, id: nat)
    requires id in Run(events).jobs && Run(events).jobs[id].worker == WriteWorker
    ensures var s, u := Run(events), Step(Run(events), WriteDone(id, false));
            u.tallies == s.tallies && (id in u.jobs ==> u.jobs[id].written == Absent && u.jobs[id].worker == Idle)
  {
    Reachable(events);
    HasTally(Run(events), id);
    assert Run(events).tallies[id := Run(events).tallies[id]] == Run(events).tallies;
  }
}
