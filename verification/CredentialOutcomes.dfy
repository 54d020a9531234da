/** Credential transfers over whole runs: that stopping one is final, and that one left alone does
    what it is for.
 */
module CredentialOutcomes {
  import opened Common
  import opened CredentialTransfer

  // ---- Stopping -------------------------------------------------------------------------

  predicate IsClosed(body: Body) {
    match body
    case Import(state, _, _, _) => state == ImportClosed
    case Export(state, _, _) => state == ExportClosed
  }

  /** Closed, and no commit on the worker. */
  ghost predicate Shut(r: Resource) {
    IsClosed(r.body) && !(r.job.CommitJob? && r.job.stage == Running)
  }

  /** What came of a resource so far. */
  function Yield(body: Body): (seq<Payload>, seq<Byte>) {
    match body
    case Import(_, _, _, committed) => (committed, [])
    case Export(_, _, delivered) => ([], delivered)
  }

  lemma ShutTouch(r: Resource, call: Call, go: bool)
    requires BodyOk(r.body, r.job) && Shut(r)
    ensures Shut(Touched(r, call, go)) && Yield(Touched(r, call, go).body) == Yield(r.body)
  {
    assert r.body.Export? ==> Read(r.body) == r.body;
  }

  lemma ShutStep(s: Session, e: Event, id: nat)
    requires Inv(s) && id < |s.resources| && Shut(s.resources[id])
    ensures id < |Step(s, e).resources| && Shut(Step(s, e).resources[id])
    ensures Yield(Step(s, e).resources[id].body) == Yield(s.resources[id].body)
  {
    hide BodyOk, Touched, Retained, Shut, Yield;
    assert BodyOk(s.resources[id].body, s.resources[id].job);
    forall call, go
      ensures Shut(Touched(s.resources[id], call, go)) && Yield(Touched(s.resources[id], call, go).body) == Yield(s.resources[id].body)
    {
      ShutTouch(s.resources[id], call, go);
    }
  }

  lemma {:induction false} ShutRuns(events: seq<Event>, id: nat, more: seq<Event>)
    requires id < |Run(events).resources| && Shut(Run(events).resources[id])
    ensures id < |Run(events + more).resources| && Shut(Run(events + more).resources[id])
    ensures Yield(Run(events + more).resources[id].body) == Yield(Run(events).resources[id].body)
    decreases |more|
  {
    hide Step, Inv, Shut, Yield;
    if more == [] {
      assert events + more == events;
    } else {
      var less := more[..|more| - 1];
      assert (events + more)[..|events + more| - 1] == events + less;
      ShutRuns(events, id, less);
      Reachable(events + less);
      ShutStep(Run(events + less), more[|more| - 1], id);
    }
  }

  /** The request a resource is at: under review, reviewed or committing; preparing or ready. */
  predicate IsAt(body: Body, request: nat) {
    match body
    case Import(Reviewing(id), _, _, _) => id == request
    case Import(Reviewed(id, _), _, _, _) => id == request
    case Import(Committing(id), _, _, _) => id == request
    case Export(Preparing(id), _, _) => id == request
    case Export(Snapshot(id, _, _), _, _) => id == request
    case _ => false
  }

  /** What stops a resource: its handle canceled or dropped, the request it is at canceled, or the
      session revoked. */
  predicate Stops(r: Resource, id: nat, stop: Event) {
    || stop == Revoke
    || (stop.On? && stop.id == id && (stop.call == CancelHandle || stop.call == DropHandle))
    || (stop.CancelRequest? && IsAt(r.body, stop.request))
  }

  lemma StopShuts(s: Session, id: nat, stop: Event)
    requires Inv(s) && id < |s.resources| && Stops(s.resources[id], id, stop)
    requires !(s.resources[id].job.CommitJob? && s.resources[id].job.stage == Running)
    ensures id < |Step(s, stop).resources| && Shut(Step(s, stop).resources[id])
    ensures Yield(Step(s, stop).resources[id].body) == Yield(s.resources[id].body)
  {
    hide BodyOk, Retained;
  }

  /** Unless a commit is on the worker already, a stopped import commits nothing any more and a
      stopped export hands out nothing any more. */
  lemma StopIsFinal(events: seq<Event>, id: nat, stop: Event, more: seq<Event>)
    requires id < |Run(events).resources| && Stops(Run(events).resources[id], id, stop)
    requires var job := Run(events).resources[id].job; !(job.CommitJob? && job.stage == Running)
    ensures id < |Run(events + [stop] + more).resources|
    ensures var before, after := Run(events).resources[id].body, Run(events + [stop] + more).resources[id].body;
            Yield(after) == Yield(before) && IsClosed(after)
  {
    hide Step, Inv, Yield;
    Reachable(events);
    assert (events + [stop])[..|events|] == events;
    StopShuts(Run(events), id, stop);
    ShutRuns(events + [stop], id, more);
  }

  /** Canceling a request that is not the resource's own leaves its state as it is. */
  lemma OtherCancelLeaves(r: Resource, request: nat)
    requires !IsAt(r.body, request)
    ensures Touched(r, CancelId(request), true).body == r.body
  {
  }

  // ---- Undisturbed transfers ------------------------------------------------------------

  function Continue(s: Session, events: seq<Event>): Session
    decreases |events|
  {
    if events == [] then s else Continue(Step(s, events[0]), events[1..])
  }

  lemma {:induction false} RunThen(events: seq<Event>, more: seq<Event>)
    ensures Run(events + more) == Continue(Run(events), more)
    decreases |more|
  {
    if more == [] {
      assert events + more == events;
    } else {
      assert events + more == (events + [more[0]]) + more[1..];
      assert (events + [more[0]])[..|events|] == events;
      RunThen(events + [more[0]], more[1..]);
    }
  }

  lemma {:induction false} ContinueThen(s: Session, events: seq<Event>, more: seq<Event>)
    ensures Continue(s, events + more) == Continue(Continue(s, events), more)
    decreases |events|
  {
    if events == [] {
      assert events + more == more;
    } else {
      assert (events + more)[1..] == events[1..] + more;
      ContinueThen(Step(s, events[0]), events[1..], more);
    }
  }

  /** Calls on one resource, all with consent. */
  function Calling(id: nat, calls: seq<Call>): seq<Event> {
    seq(|calls|, i requires 0 <= i < |calls| => On(id, calls[i], true))
  }

  function TouchedBy(r: Resource, calls: seq<Call>): Resource
    decreases |calls|
  {
    if calls == [] then r else TouchedBy(Touched(r, calls[0], true), calls[1..])
  }

  /** Requests in the calls are fresh and rise. */
  ghost predicate Rising(calls: seq<Call>, last: nat)
    decreases |calls|
  {
    calls != [] ==>
      && !calls[0].CancelId? && !calls[0].CloseAll?
      && (if calls[0].Review? || calls[0].Commit? || calls[0].PrepareExport?
          then calls[0].request > last && Rising(calls[1..], calls[0].request) else Rising(calls[1..], last))
  }

  lemma {:induction false} RisingFrom(calls: seq<Call>, last: nat, less: nat)
    requires Rising(calls, last) && less <= last
    ensures Rising(calls, less)
    decreases |calls|
  {
    if calls != [] && !(calls[0].Review? || calls[0].Commit? || calls[0].PrepareExport?) {
      RisingFrom(calls[1..], last, less);
    }
  }

  lemma {:induction false} CallsTouch(s: Session, id: nat, calls: seq<Call>)
    requires id < |s.resources| && s.resources[id].generation == s.generation && Rising(calls, s.last)
    ensures var u := Continue(s, Calling(id, calls));
            |u.resources| == |s.resources| && u.resources[id] == TouchedBy(s.resources[id], calls)
    decreases |calls|
  {
    if calls != [] {
      hide Touched;
      var e := On(id, calls[0], true);
      var u := Step(s, e);
      assert Calling(id, calls)[1..] == Calling(id, calls[1..]) && Calling(id, calls)[0] == e;
      assert u.resources[id] == Touched(s.resources[id], calls[0], true);
      assert u.resources[id].generation == u.generation by { GenerationStays(s.resources[id], calls[0]); }
      if calls[0].Review? || calls[0].Commit? || calls[0].PrepareExport? {
        RisingFrom(calls[1..], calls[0].request, u.last);
      }
      CallsTouch(u, id, calls[1..]);
    }
  }

  lemma GenerationStays(r: Resource, call: Call)
    ensures Touched(r, call, true).generation == r.generation
  {
  }

  lemma {:induction false} TouchedThen(r: Resource, calls: seq<Call>, more: seq<Call>)
    ensures TouchedBy(r, calls + more) == TouchedBy(TouchedBy(r, calls), more)
    decreases |calls|
  {
    if calls == [] {
      assert calls + more == more;
    } else {
      assert (calls + more)[1..] == calls[1..] + more;
      TouchedThen(Touched(r, calls[0], true), calls[1..], more);
    }
  }

  function Appending(chunks: seq<seq<Byte>>): seq<Call> {
    seq(|chunks|, i requires 0 <= i < |chunks| => Append(chunks[i]))
  }

  function Reviewing4(request: nat): seq<Call> {
    [Review(request), StartJob, ExecuteJob(true, []), PublishJob]
  }

  function Committing4(request: nat): seq<Call> {
    [Commit(request), StartJob, ExecuteJob(true, []), PublishJob]
  }

  lemma FourCalls(r: Resource, a: Call, b: Call, c: Call, d: Call)
    ensures TouchedBy(r, [a, b, c, d]) == Touched(Touched(Touched(Touched(r, a, true), b, true), c, true), d, true)
  {
    hide Touched;
    assert [a, b, c, d][1..] == [b, c, d] && [b, c, d][1..] == [c, d] && [c, d][1..] == [d] && [d][1..] == [];
    var r2 := Touched(Touched(r, a, true), b, true);
    assert TouchedBy(r2, [c, d]) == TouchedBy(Touched(r2, c, true), [d]);
    assert TouchedBy(Touched(r2, c, true), [d]) == Touched(Touched(r2, c, true), d, true);
    assert TouchedBy(Touched(r, a, true), [b, c, d]) == TouchedBy(r2, [c, d]);
  }

  lemma ChunkArrives(r: Resource, chunk: seq<Byte>)
    requires r.handle && r.body.Import? && r.body.importing == Receiving(r.body.received, r.body.expected)
    requires |chunk| <= MAX_CHUNK && |r.body.received| + |chunk| <= r.body.expected
    ensures var all := r.body.received + chunk;
            Touched(r, Append(chunk), true) ==
            r.(body := Import(Receiving(all, r.body.expected), r.body.expected, all, r.body.committed))
  {
  }

  lemma {:induction false} ChunksArrive(r: Resource, chunks: seq<seq<Byte>>)
    requires r.handle && r.body.Import? && r.body.importing == Receiving(r.body.received, r.body.expected)
    requires (forall i :: 0 <= i < |chunks| ==> |chunks[i]| <= MAX_CHUNK) && |r.body.received| + |Flatten(chunks)| <= r.body.expected
    ensures var all := r.body.received + Flatten(chunks);
            TouchedBy(r, Appending(chunks)) ==
            r.(body := Import(Receiving(all, r.body.expected), r.body.expected, all, r.body.committed))
    decreases |chunks|
  {
    hide Touched;
    if chunks == [] {
      assert r.body.received + [] == r.body.received;
    } else {
      var n := |chunks| - 1;
      ChunksArrive(r, chunks[..n]);
      assert Appending(chunks) == Appending(chunks[..n]) + [Append(chunks[n])];
      TouchedThen(r, Appending(chunks[..n]), [Append(chunks[n])]);
      ChunkArrives(TouchedBy(r, Appending(chunks[..n])), chunks[n]);
      OneCall(TouchedBy(r, Appending(chunks[..n])), Append(chunks[n]));
      assert r.body.received + (Flatten(chunks[..n]) + chunks[n]) == (r.body.received + Flatten(chunks[..n])) + chunks[n];
    }
  }

  lemma OneCall(r: Resource, call: Call)
    ensures TouchedBy(r, [call]) == Touched(r, call, true)
  {
    assert [call][1..] == [];
  }

  lemma ReviewAndCommit(r: Resource, request: nat)
    requires r.handle && r.job == NoJob && r.body.Import? && r.body.committed == []
    requires r.body.importing == Receiving(r.body.received, |r.body.received|)
    ensures var u := TouchedBy(r, Reviewing4(request) + Committing4(request + 1));
            u.body.Import? && u.body.committed == [Payload(r.body.received)] && u.job == NoJob
  {
    var reviewed := TouchedBy(r, Reviewing4(request));
    FourCalls(r, Review(request), StartJob, ExecuteJob(true, []), PublishJob);
    assert reviewed.body.importing == Reviewed(request, Payload(r.body.received)) && reviewed.job == NoJob && reviewed.handle;
    TouchedThen(r, Reviewing4(request), Committing4(request + 1));
    FourCalls(reviewed, Commit(request + 1), StartJob, ExecuteJob(true, []), PublishJob);
  }

  lemma {:induction false} AppendsRise(chunks: seq<seq<Byte>>, calls: seq<Call>, last: nat)
    requires Rising(calls, last)
    ensures Rising(Appending(chunks) + calls, last)
    decreases |chunks|
  {
    if chunks == [] {
      assert Appending(chunks) + calls == calls;
    } else {
      AppendsRise(chunks[1..], calls, last);
      assert (Appending(chunks) + calls)[0] == Append(chunks[0]);
      assert (Appending(chunks) + calls)[1..] == Appending(chunks[1..]) + calls;
    }
  }

  lemma ReviewAndCommitRise(request: nat, last: nat)
    requires request > last
    ensures Rising(Reviewing4(request) + Committing4(request + 1), last)
  {
    var calls := Reviewing4(request) + Committing4(request + 1);
    assert calls[1..] == [StartJob, ExecuteJob(true, []), PublishJob] + Committing4(request + 1);
    assert calls[1..][1..] == [ExecuteJob(true, []), PublishJob] + Committing4(request + 1);
    assert calls[1..][1..][1..] == [PublishJob] + Committing4(request + 1);
    assert calls[1..][1..][1..][1..] == Committing4(request + 1);
    var commit := Committing4(request + 1);
    assert commit[1..] == [StartJob, ExecuteJob(true, []), PublishJob] && commit[1..][1..] == [ExecuteJob(true, []), PublishJob];
    assert commit[1..][1..][1..] == [PublishJob] && [PublishJob][1..] == [];
    assert Rising([PublishJob], request + 1);
    assert Rising([ExecuteJob(true, []), PublishJob], request + 1);
    assert Rising(commit[1..], request + 1);
    assert Rising(commit, request);
    assert Rising([PublishJob] + commit, request);
    assert Rising(calls[1..][1..], request);
  }

  /** Whatever is alive keeps another from beginning; with nothing alive one begins. */
  lemma BeginsExactly(events: seq<Event>, body: Body)
    ensures var s := Run(events);
            if exists id :: 0 <= id < |s.resources| && Alive(s.resources[id])
            then Began(s, body).resources == s.resources
            else Began(s, body).resources == s.resources + [Resource(s.generation, true, NoJob, body)]
  {
    hide Alive;
    var s := Run(events);
    Reachable(events);
    if id :| 0 <= id < |s.resources| && Alive(s.resources[id]) {
      RetainedHas(s.imports, s.resources, id);
      RetainedHas(s.exports, s.resources, id);
    } else {
      RetainedNone(s.imports, s.resources);
      RetainedNone(s.exports, s.resources);
    }
  }

  lemma RetainedNone(ids: seq<nat>, resources: seq<Resource>)
    requires forall id :: 0 <= id < |resources| ==> !Alive(resources[id])
    ensures Retained(ids, resources) == []
  {
    if Retained(ids, resources) != [] {
      RetainedHas(ids, resources, Retained(ids, resources)[0]);
    }
  }

  function Importing(id: nat, count: nat, chunks: seq<seq<Byte>>, request: nat): seq<Event> {
    [BeginImport(count, true)] + Calling(id, Appending(chunks) + (Reviewing4(request) + Committing4(request + 1)))
  }

  /** Left alone, any chunks of up to 65536 bytes that add up to the declared size are reviewed
      and committed as they are. */
  lemma ImportGoesThrough(events: seq<Event>, chunks: seq<seq<Byte>>, request: nat)
    requires var s := Run(events); request > s.last && forall id :: 0 <= id < |s.resources| ==> !Alive(s.resources[id])
    requires (forall i :: 0 <= i < |chunks| ==> |chunks[i]| <= 65536) && 1 <= |Flatten(chunks)| <= 16777216
    ensures var id := |Run(events).resources|;
            var u := Run(events + Importing(id, |Flatten(chunks)|, chunks, request));
            && id < |u.resources| && u.resources[id].body.Import? && u.resources[id].body.committed == [Payload(Flatten(chunks))]
  {
    hide Step, TouchedBy, Touched;
    var s, all := Run(events), Flatten(chunks);
    var id, body := |s.resources|, Import(Receiving([], |all|), |all|, [], []);
    var calls := Appending(chunks) + (Reviewing4(request) + Committing4(request + 1));
    var begun := Step(s, BeginImport(|all|, true));
    assert begun == Began(s, body) by { BeginStep(s, |all|); }
    BeginsExactly(events, body);
    var r := Resource(s.generation, true, NoJob, body);
    ReviewAndCommitRise(request, s.last);
    AppendsRise(chunks, Reviewing4(request) + Committing4(request + 1), s.last);
    CallsTouch(begun, id, calls);
    ChunksArrive(r, chunks);
    assert [] + all == all;
    TouchedThen(r, Appending(chunks), Reviewing4(request) + Committing4(request + 1));
    ReviewAndCommit(TouchedBy(r, Appending(chunks)), request);
    RunThen(events, Importing(id, |all|, chunks, request));
    assert ([BeginImport(|all|, true)] + Calling(id, calls))[1..] == Calling(id, calls);
  }

  lemma BeginStep(s: Session, count: nat)
    requires 1 <= count <= MAX_IMPORT
    ensures Step(s, BeginImport(count, true)) == Began(s, Import(Receiving([], count), count, [], []))
    ensures Step(s, BeginExport(true)) == Began(s, Export(Idle, None, []))
    ensures Began(s, Export(Idle, None, [])).generation == s.generation && Began(s, Export(Idle, None, [])).last == s.last
    ensures var u := Began(s, Import(Receiving([], count), count, [], [])); u.generation == s.generation && u.last == s.last
  {
  }

  // ---- An undisturbed export ------------------------------------------------------------

  function Preparing4(request: nat, pieces: seq<seq<Byte>>): seq<Call> {
    [PrepareExport(request), StartJob, ExecuteJob(true, pieces), PublishJob]
  }

  function Reads(n: nat): seq<Call> {
    seq(n, _ => ReadChunk)
  }

  lemma {:induction false} ReadsDeliver(r: Resource, n: nat)
    requires r.handle && r.body.Export? && BodyOk(r.body, r.job)
    requires r.body.exporting == Exhausted || (r.body.exporting.Snapshot? && n > 0 && n * MAX_CHUNK >= |r.body.exporting.bytes| - r.body.exporting.offset)
    ensures var u := TouchedBy(r, Reads(n)); u.body.Export? && u.body.exporting == Exhausted && u.body.snapshot == r.body.snapshot
    ensures var u := TouchedBy(r, Reads(n)); BodyOk(u.body, u.job)
    decreases n
  {
    if n > 0 {
      hide BodyOk;
      assert Reads(n)[1..] == Reads(n - 1) && Reads(n)[0] == ReadChunk;
      var u := Touched(r, ReadChunk, true);
      ReadOnce(r, n);
      ReadKeeps(r.body, r.job);
      ReadsDeliver(u, n - 1);
    }
  }

  lemma ReadOnce(r: Resource, n: nat)
    requires r.handle && r.body.Export? && BodyOk(r.body, r.job) && n > 0
    requires r.body.exporting == Exhausted || (r.body.exporting.Snapshot? && n * MAX_CHUNK >= |r.body.exporting.bytes| - r.body.exporting.offset)
    ensures var u := Touched(r, ReadChunk, true);
            && u.handle && u.job == r.job && u.body == Read(r.body) && u.body.Export? && u.body.snapshot == r.body.snapshot
            && (u.body.exporting == Exhausted
                || (u.body.exporting.Snapshot? && n - 1 > 0
                    && (n - 1) * MAX_CHUNK >= |u.body.exporting.bytes| - u.body.exporting.offset))
  {
  }

  function Exporting(id: nat, request: nat, pieces: seq<seq<Byte>>, count: nat): seq<Event> {
    [BeginExport(true)] + Calling(id, Preparing4(request, pieces) + Reads(count))
  }

  lemma PreparingRise(request: nat, pieces: seq<seq<Byte>>, n: nat, last: nat)
    requires request > last
    ensures Rising(Preparing4(request, pieces) + Reads(n), last)
  {
    var calls := Preparing4(request, pieces) + Reads(n);
    assert calls[1..] == [StartJob, ExecuteJob(true, pieces), PublishJob] + Reads(n);
    assert calls[1..][1..] == [ExecuteJob(true, pieces), PublishJob] + Reads(n);
    assert calls[1..][1..][1..] == [PublishJob] + Reads(n);
    assert calls[1..][1..][1..][1..] == Reads(n);
    ReadsRise(n, request);
    assert Rising([PublishJob] + Reads(n), request);
    assert Rising(calls[1..][1..], request);
  }

  lemma {:induction false} ReadsRise(n: nat, last: nat)
    ensures Rising(Reads(n), last)
  {
    if n > 0 {
      assert Reads(n)[1..] == Reads(n - 1);
      ReadsRise(n - 1, last);
    }
  }

  lemma PreparedExport(r: Resource, request: nat, pieces: seq<seq<Byte>>)
    requires r.handle && r.job == NoJob && r.body == Export(Idle, None, []) && |Flatten(pieces)| <= MAX_EXPORT
    ensures TouchedBy(r, Preparing4(request, pieces)) ==
            r.(body := Export(Snapshot(request, Flatten(pieces), 0), Some(Flatten(pieces)), []))
  {
    FourCalls(r, PrepareExport(request), StartJob, ExecuteJob(true, pieces), PublishJob);
  }

  /** Left alone, an export of up to 16 MiB is delivered whole by as many reads as it has chunks of
      65536 bytes, and at least one. */
  lemma ExportGoesThrough(events: seq<Event>, pieces: seq<seq<Byte>>, request: nat, count: nat)
    requires var s := Run(events); request > s.last && forall id :: 0 <= id < |s.resources| ==> !Alive(s.resources[id])
    requires |Flatten(pieces)| <= 16777216 && count > 0 && count * 65536 >= |Flatten(pieces)|
    ensures var id := |Run(events).resources|;
            var u := Run(events + Exporting(id, request, pieces, count));
            id < |u.resources| && u.resources[id].body == Export(Exhausted, Some(Flatten(pieces)), Flatten(pieces))
  {
    hide Step, TouchedBy, Touched, BodyOk;
    var s, all := Run(events), Flatten(pieces);
    var id, body := |s.resources|, Export(Idle, None, []);
    var calls := Preparing4(request, pieces) + Reads(count);
    var begun := Step(s, BeginExport(true));
    assert begun == Began(s, body) by { BeginStep(s, 1); }
    BeginStep(s, 1);
    BeginsExactly(events, body);
    var r := Resource(s.generation, true, NoJob, body);
    PreparingRise(request, pieces, count, s.last);
    CallsTouch(begun, id, calls);
    TouchedThen(r, Preparing4(request, pieces), Reads(count));
    PreparedExport(r, request, pieces);
    var ready := r.(body := Export(Snapshot(request, all, 0), Some(all), []));
    assert BodyOk(ready.body, ready.job) by { FreshSnapshotOk(request, all); }
    ReadsDeliver(ready, count);
    var u := TouchedBy(ready, Reads(count));
    assert u.body == Export(Exhausted, Some(all), all) by { ExhaustedIsAll(u.body, u.job, all); }
    RunThen(events, Exporting(id, request, pieces, count));
    assert ([BeginExport(true)] + Calling(id, calls))[1..] == Calling(id, calls);
  }

  lemma FreshSnapshotOk(request: nat, all: seq<Byte>)
    requires |all| <= MAX_EXPORT
    ensures BodyOk(Export(Snapshot(request, all, 0), Some(all), []), NoJob)
  {
  }

  lemma ExhaustedIsAll(body: Body, job: Job, all: seq<Byte>)
    requires BodyOk(body, job) && body.Export? && body.exporting == Exhausted && body.snapshot == Some(all)
    ensures body == Export(Exhausted, Some(all), all)
  {
  }

  // ---- Limits ---------------------------------------------------------------------------

  /** Nothing, and more than 16 MiB, cannot be imported. */
  lemma SizesRefused(s: Session, count: nat)
    requires count == 0 || count > 16777216
    ensures Step(s, BeginImport(count, true)) == s
  {
  }

  /** A chunk is received exactly when it has at most 65536 bytes and fits what was declared;
      any other closes the import. */
  lemma ReceivedExactly(r: Resource, chunk: seq<Byte>)
    requires BodyOk(r.body, r.job) && r.handle && r.body.Import? && r.body.importing.Receiving?
    ensures var u := Touched(r, Append(chunk), true);
            if |chunk| <= 65536 && |r.body.received| + |chunk| <= r.body.expected
            then u.body == Import(Receiving(r.body.received + chunk, r.body.expected), r.body.expected, r.body.received + chunk, [])
            else u.body == r.body.(importing := ImportClosed)
  {
  }

  /** An import is reviewed exactly when all that was declared is there. */
  lemma ReviewedExactly(r: Resource, request: nat)
    requires BodyOk(r.body, r.job) && r.handle && r.body.Import? && r.body.importing.Receiving?
    ensures var u := Touched(r, Review(request), true);
            if |r.body.received| == r.body.expected
            then u.body.importing == Reviewing(request) && u.job == ReviewJob(request, Queued, false, r.body.received, None)
            else u == r
  {
  }

  /** A chunk of an export is what is left, up to 65536 bytes. */
  lemma ChunkSize(id: nat, bytes: seq<Byte>, offset: nat)
    requires offset <= |bytes|
    ensures ChunkRead(Snapshot(id, bytes, offset)).1 ==
            Some(if |bytes| - offset <= 65536 then bytes[offset..] else bytes[offset..offset + 65536])
  {
    assert bytes[offset..|bytes|] == bytes[offset..];
  }

  /** Without the authority's consent, or a handle, callers change nothing. */
  lemma NoConsentNoChange(r: Resource, call: Call, go: bool)
    requires !go || !r.handle
    requires call.Append? || call.Review? || call.Commit? || call.PrepareExport? || call.ReadChunk?
    ensures Touched(r, call, go) == r
  {
  }

  /** A used request number is not used again. */
  lemma UsedRequestsRefused(s: Session, id: nat, call: Call, accepted: bool)
    requires (call.Review? || call.Commit? || call.PrepareExport?) && call.request <= s.last
    ensures Step(s, On(id, call, accepted)) == s
  {
  }

  // ---- The worker -----------------------------------------------------------------------

  /** The worker honours cancellation and revocation twice: queued work does not start, and
      finished work is not published. */
  lemma WorkerHonoursCancel(r: Resource, go: bool)
    requires r.job != NoJob && (!go || r.job.canceled)
    ensures r.job.stage == Queued ==> Touched(r, StartJob, go) == r.(job := NoJob)
    ensures r.job.stage == Done && BodyOk(r.body, r.job) ==> Touched(r, PublishJob, go) == r.(job := NoJob)
  {
  }

  /** A review or an export that fails closes its resource; so does an export of more than 16 MiB. */
  lemma FailureCloses(r: Resource, ok: bool, pieces: seq<seq<Byte>>)
    requires BodyOk(r.body, r.job) && r.job != NoJob && !r.job.CommitJob? && r.job.stage == Running && !r.job.canceled
    requires !ok || (r.job.ExportJob? && |Flatten(pieces)| > 16777216)
    ensures IsClosed(Touched(Touched(r, ExecuteJob(ok, pieces), true), PublishJob, true).body)
    ensures Yield(Touched(Touched(r, ExecuteJob(ok, pieces), true), PublishJob, true).body) == Yield(r.body)
  {
  }

  /** A commit that fails commits nothing, and is not tried again. */
  lemma FailedCommitIsOver(r: Resource, pieces: seq<seq<Byte>>)
    requires BodyOk(r.body, r.job) && r.job.CommitJob? && r.job.stage == Running
    ensures var u := Touched(Touched(r, ExecuteJob(false, pieces), true), PublishJob, true);
            u.body == r.body && u.job == NoJob && forall request :: Touched(u, Commit(request), true) == u
  {
  }
}
