/** One revocable upload: parts admitted one at a time, executed by the single Core worker, and
    a commit that cancellation can race but not undo.
 */
module FileWriter {
  import opened Common

  const MAX_WRITE: nat := 1024 * 1024

  // ---- The resource ---------------------------------------------------------------------

  datatype Phase = Ready | Preparing | Committed | Closed

  datatype WriteState = WriteState(phase: Phase, request: Option<nat>, node: Option<nat>, uploaded: nat)

  const FRESH := WriteState(Ready, None, None, 0)

  /** One admitted part, or the finish. */
  datatype Work = Work(request: nat, node: Option<nat>, offset: nat, bytes: seq<Byte>, finish: bool, succeeded: bool)

  /** What Core answers: an error, something unreadable, or where the upload stands. */
  datatype Reply = Rejected | Malformed | Upload(node: nat, uploaded: nat, completed: bool, created: bool)

  datatype WriteError = StateError | LengthError

  /** `prepare_file_write` before admission. */
  function Refusal(s: WriteState, byteCount: nat, bytes: seq<Byte>, finish: bool): Option<WriteError> {
    if s.phase != Ready then Some(StateError)
    else if |bytes| > MAX_WRITE || (!finish && bytes == [])
            || |bytes| > (if byteCount < s.uploaded then 0 else byteCount - s.uploaded)
            || (finish && s.uploaded != byteCount)
    then Some(LengthError)
    else None
  }

  function Executed(s: WriteState, work: Work, reply: Reply): (WriteState, Work) {
    match reply
    case Rejected => (s, work)
    case Malformed => (s, work)
    case Upload(node, uploaded, completed, created) =>
      (s.(node := Some(node), uploaded := uploaded, phase := if completed then Committed else s.phase),
       work.(succeeded := created && uploaded == work.offset + |work.bytes| && completed == work.finish
                          && (work.node == None || work.node == Some(node))))
  }

  function Published(s: WriteState, work: Work): WriteState {
    if s.phase == Closed then s
    else if !work.succeeded then s.(phase := Closed)
    else if s.phase != Committed then s.(phase := Ready)
    else s
  }

  function Dropped(s: WriteState, work: Work): WriteState {
    if s.phase == Preparing && s.request == Some(work.request) then s.(phase := Closed) else s
  }

  /** Cancellation and revocation alike. */
  function Revoked(s: WriteState): WriteState {
    if s.phase != Committed then s.(phase := Closed) else s
  }

  class UploadResource {
    var phase: Phase
    var request: Option<nat>
    var node: Option<nat>
    var uploaded: nat

    function View(): WriteState
      reads this
    {
      WriteState(phase, request, node, uploaded)
    }

    constructor ()
      ensures View() == FRESH
    {
      phase, request, node, uploaded := Ready, None, None, 0;
    }

    /** Admits one part, or the finish; a refusal changes nothing. */
    method Prepare(byteCount: nat, id: nat, bytes: seq<Byte>, finish: bool) returns (error: Option<WriteError>, work: Option<Work>)
      modifies this
      ensures error == Refusal(old(View()), byteCount, bytes, finish)
      ensures error.Some? ==> View() == old(View()) && work == None
      ensures error == None ==>
                && View() == old(View()).(phase := Preparing, request := Some(id))
                && work == Some(Work(id, old(node), old(uploaded), bytes, finish, false))
    {
      work := None;
      if phase != Ready {
        return Some(StateError), None;
      }
      var room := if byteCount < uploaded then 0 else byteCount - uploaded;
      if |bytes| > MAX_WRITE || (!finish && bytes == []) || |bytes| > room || (finish && uploaded != byteCount) {
        return Some(LengthError), None;
      }
      phase, request := Preparing, Some(id);
      return None, Some(Work(id, node, uploaded, bytes, finish, false));
    }

    method Execute(work: Work, reply: Reply) returns (done: Work)
      modifies this
      ensures (View(), done) == Executed(old(View()), work, reply)
    {
      done := work;
      if reply.Upload? {
        node, uploaded := Some(reply.node), reply.uploaded;
        if reply.completed {
          phase := Committed;
        }
        done := work.(succeeded := reply.created && reply.uploaded == work.offset + |work.bytes|
                                   && reply.completed == work.finish && (work.node == None || work.node == Some(reply.node)));
      }
    }

    method Publish(work: Work) returns (ok: bool)
      modifies this
      ensures View() == Published(old(View()), work) && ok == (old(phase) != Closed)
    {
      ok := phase != Closed;
      if ok && !work.succeeded {
        phase := Closed;
      } else if ok && phase != Committed {
        phase := Ready;
      }
    }

    method Drop(work: Work)
      modifies this
      ensures View() == Dropped(old(View()), work)
    {
      if phase == Preparing && request == Some(work.request) {
        phase := Closed;
      }
    }

    method Revoke()
      modifies this
      ensures View() == Revoked(old(View()))
    {
      if phase != Committed {
        phase := Closed;
      }
    }
  }

  // ---- The upload with its worker and Core ----------------------------------------------

  /** Where the work is: nowhere, waiting for the worker, on the worker, or waiting there to be
      published; and its cancel flag. */
  datatype Flight =
    | Grounded
    | Queued(work: Work, canceled: bool)
    | Running(work: Work, canceled: bool)
    | Done(work: Work, canceled: bool)

  /** Core's side: the bytes staged for a node, and whether the file is complete. */
  datatype Core = Core(node: Option<nat>, staged: seq<Byte>, completed: bool)

  /** Everything about one upload, with the parts admitted so far. `live` is the generation. */
  datatype World = World(state: WriteState, flight: Flight, core: Core, live: bool, last: nat, parts: seq<seq<Byte>>)

  const START := World(FRESH, Grounded, Core(None, [], false), true, 0, [])

  /** Core takes a part at the end of what it has for that node, and says so; or it refuses and
      keeps what it has. */
  function CoreUpload(core: Core, work: Work, ok: bool, newNode: nat): (Core, Reply) {
    if !ok || work.node != core.node || work.offset != |core.staged| || core.completed then (core, Rejected)
    else
      var node := if core.node.Some? then core.node.value else newNode;
      var next := Core(Some(node), core.staged + work.bytes, work.finish);
      (next, Upload(node, |next.staged|, next.completed, true))
  }

  /** `accepted` is the rest of what the authority checks beside the generation. */
  datatype Event =
    | Prepare(request: nat, bytes: seq<Byte>, finish: bool, accepted: bool)
    | Start(accepted: bool)
    | Execute(ok: bool, newNode: nat)
    | Publish(accepted: bool)
    | Abandon
    | Cancel
    | CancelRequest(request: nat)
    | Revoke
    | Cleanup

  function Flagged(flight: Flight): Flight {
    match flight
    case Grounded => Grounded
    case Queued(work, _) => Queued(work, true)
    case Running(work, _) => Running(work, true)
    case Done(work, _) => Done(work, true)
  }

  function RequestOf(flight: Flight): Option<nat> {
    if flight.Grounded? then None else Some(flight.work.request)
  }

  function Step(w: World, byteCount: nat, e: Event): World {
    match e
    case Prepare(request, bytes, finish, accepted) =>
      if !w.live || !accepted || Refusal(w.state, byteCount, bytes, finish).Some? || request <= w.last then w
      else w.(state := w.state.(phase := Preparing, request := Some(request)), last := request, parts := w.parts + [bytes],
              flight := Queued(Work(request, w.state.node, w.state.uploaded, bytes, finish, false), false))
    case Start(accepted) =>
      if !w.flight.Queued? then w
      else if w.live && accepted && !w.flight.canceled then w.(flight := Running(w.flight.work, false))
      else w.(flight := Grounded, state := Dropped(w.state, w.flight.work))
    case Execute(ok, newNode) =>
      if !w.flight.Running? then w
      else
        var (core, reply) := CoreUpload(w.core, w.flight.work, ok, newNode);
        var (state, work) := Executed(w.state, w.flight.work, reply);
        w.(core := core, state := state, flight := Done(work, w.flight.canceled))
    case Publish(accepted) =>
      if !w.flight.Done? then w
      else
        var state := if w.live && accepted && !w.flight.canceled then Published(w.state, w.flight.work) else w.state;
        w.(flight := Grounded, state := Dropped(state, w.flight.work))
    case Abandon =>
      if !w.flight.Queued? then w else w.(flight := Grounded, state := Dropped(w.state, w.flight.work))
    case Cancel =>
      w.(flight := if w.state.request.Some? && RequestOf(w.flight) == w.state.request then Flagged(w.flight) else w.flight,
         state := Revoked(w.state))
    case CancelRequest(request) =>
      w.(flight := if RequestOf(w.flight) == Some(request) then Flagged(w.flight) else w.flight,
         state := if w.state.request == Some(request) then Revoked(w.state) else w.state)
    case Revoke =>
      w.(live := false, flight := Flagged(w.flight), state := Revoked(w.state))
    case Cleanup =>
      // The worker that aborts is the one that executes, so never both at once.
      if w.flight.Running? || w.flight.Done? || w.state.phase != Closed then w
      else w.(core := Core(None, [], false))
  }

  function Run(byteCount: nat, events: seq<Event>): World {
    if events == [] then START else Step(Run(byteCount, events[..|events| - 1]), byteCount, events[|events| - 1])
  }

  // ---- The invariant --------------------------------------------------------------------

  lemma FlattenOneMore(parts: seq<seq<Byte>>, part: seq<Byte>)
    ensures Flatten(parts + [part]) == Flatten(parts) + part
  {
    assert (parts + [part])[..|parts|] == parts;
  }

  /** The work continues exactly where Core stands. */
  ghost predicate Fits(w: World, work: Work, byteCount: nat) {
    && Flatten(w.parts) == w.core.staged + work.bytes
    && work.offset == |w.core.staged| && work.node == w.core.node
    && |w.core.staged| + |work.bytes| <= byteCount
    && (work.finish ==> work.bytes == [] && |w.core.staged| == byteCount)
  }

  /** Core has every admitted part, and the resource knows. */
  ghost predicate InStep(w: World, byteCount: nat) {
    && w.core.staged == Flatten(w.parts) && |w.core.staged| <= byteCount
    && w.state.node == w.core.node && w.state.uploaded == |w.core.staged|
  }

  ghost predicate FlightOk(w: World, byteCount: nat) {
    match w.flight
    case Grounded =>
      w.state.phase != Preparing && (w.state.phase == Ready ==> InStep(w, byteCount))
    case Queued(work, canceled) =>
      && (w.state.phase == Preparing || w.state.phase == Closed) && !work.succeeded
      && (w.state.phase == Preparing ==> Fits(w, work, byteCount))
      && (w.state.phase == Closed ==> canceled || !w.live)
    case Running(work, canceled) =>
      (w.state.phase == Preparing || w.state.phase == Closed) && !work.succeeded && Fits(w, work, byteCount)
    case Done(work, canceled) =>
      w.state.phase != Ready && (work.succeeded ==> InStep(w, byteCount)) && (w.state.phase == Committed ==> work.succeeded)
  }

  ghost predicate Inv(w: World, byteCount: nat) {
    && FlightOk(w, byteCount)
    && (!w.flight.Grounded? ==> w.state.request == Some(w.flight.work.request))
    && (w.core.completed <==> w.state.phase == Committed)
    && (w.core.completed ==> w.core.staged == Flatten(w.parts) && |w.core.staged| == byteCount)
  }

  lemma ExecuteKeeps(w: World, byteCount: nat, ok: bool, newNode: nat)
    requires Inv(w, byteCount)
    ensures Inv(Step(w, byteCount, Execute(ok, newNode)), byteCount)
  {
    if w.flight.Running? && w.flight.work.finish {
      assert w.core.staged + [] == w.core.staged;
    }
  }

  lemma StepKeeps(w: World, byteCount: nat, e: Event)
    requires Inv(w, byteCount)
    ensures Inv(Step(w, byteCount, e), byteCount)
  {
    match e
    case Prepare(request, bytes, finish, accepted) =>
      FlattenOneMore(w.parts, bytes);
    case Execute(ok, newNode) =>
      ExecuteKeeps(w, byteCount, ok, newNode);
    case _ =>
  }

  lemma {:induction false} Reachable(byteCount: nat, events: seq<Event>)
    ensures Inv(Run(byteCount, events), byteCount)
  {
    if events != [] {
      Reachable(byteCount, events[..|events| - 1]);
      StepKeeps(Run(byteCount, events[..|events| - 1]), byteCount, events[|events| - 1]);
    }
  }

  // ---- What it means --------------------------------------------------------------------

  /** The resource says committed exactly when Core completed the file; a completed file is the
      admitted parts in order and has the declared size; a part on the worker starts where Core
      stands and fits what is left. */
  lemma CommittedFileIsTheParts(byteCount: nat, events: seq<Event>)
    ensures var w := Run(byteCount, events);
            && (w.core.completed <==> w.state.phase == Committed)
            && (w.core.completed ==> w.core.staged == Flatten(w.parts) && |w.core.staged| == byteCount)
            && (w.flight.Running? ==>
                  && w.flight.work.offset == |w.core.staged| && w.flight.work.node == w.core.node
                  && w.core.staged + w.flight.work.bytes == Flatten(w.parts)
                  && |w.core.staged| + |w.flight.work.bytes| <= byteCount)
            && (w.state.phase == Ready ==> w.flight == Grounded && w.core.staged == Flatten(w.parts))
  {
    Reachable(byteCount, events);
  }

  lemma CommitStays(w: World, byteCount: nat, e: Event)
    requires Inv(w, byteCount) && w.core.completed
    ensures Step(w, byteCount, e).core == w.core && Step(w, byteCount, e).parts == w.parts
  {
  }

  /** No later cancel, drop, revocation or cleanup undoes a commit. */
  lemma {:induction false} CommitIsFinal(byteCount: nat, events: seq<Event>, more: seq<Event>)
    requires Run(byteCount, events).core.completed
    ensures Run(byteCount, events + more).core == Run(byteCount, events).core
    ensures Run(byteCount, events + more).state.phase == Committed
    decreases |more|
  {
    Reachable(byteCount, events + more);
    if more == [] {
      assert events + more == events;
    } else {
      var less := more[..|more| - 1];
      assert (events + more)[..|events + more| - 1] == events + less;
      CommitIsFinal(byteCount, events, less);
      Reachable(byteCount, events + less);
      CommitStays(Run(byteCount, events + less), byteCount, more[|more| - 1]);
    }
  }

  /** A finish that is already on the worker commits although a cancel came between. */
  lemma FinishWinsTheRace(byteCount: nat, events: seq<Event>, newNode: nat)
    requires Run(byteCount, events).flight.Running? && Run(byteCount, events).flight.work.finish
    ensures Run(byteCount, events + [Cancel, Execute(true, newNode)]).state.phase == Committed
    ensures Run(byteCount, events + [Cancel, Execute(true, newNode)]).core.completed
  {
    Reachable(byteCount, events);
    var w := Run(byteCount, events);
    assert (events + [Cancel, Execute(true, newNode)])[..|events| + 1] == events + [Cancel];
    assert (events + [Cancel])[..|events|] == events;
    Reachable(byteCount, events + [Cancel, Execute(true, newNode)]);
  }

  // ---- What is admitted, and that it goes through ---------------------------------------

  /** A ready resource admits exactly the non-empty parts of up to a MiB that still fit, and the
      finish once everything declared is there; anything else changes nothing. */
  lemma AdmittedExactly(byteCount: nat, events: seq<Event>, request: nat, bytes: seq<Byte>, finish: bool)
    requires var w := Run(byteCount, events); w.live && w.state.phase == Ready && request > w.last
    ensures var w := Run(byteCount, events);
            var u := Step(w, byteCount, Prepare(request, bytes, finish, true));
            if if finish then bytes == [] && |w.core.staged| == byteCount
               else 1 <= |bytes| <= 1048576 && |w.core.staged| + |bytes| <= byteCount
            then u.state.phase == Preparing && u.parts == w.parts + [bytes]
                 && u.flight == Queued(Work(request, w.core.node, |w.core.staged|, bytes, finish, false), false)
            else u == w
  {
    Reachable(byteCount, events);
  }

  function Continue(w: World, byteCount: nat, events: seq<Event>): World
    decreases |events|
  {
    if events == [] then w else Continue(Step(w, byteCount, events[0]), byteCount, events[1..])
  }

  lemma {:induction false} RunThen(byteCount: nat, events: seq<Event>, more: seq<Event>)
    ensures Run(byteCount, events + more) == Continue(Run(byteCount, events), byteCount, more)
    decreases |more|
  {
    if more == [] {
      assert events + more == events;
    } else {
      assert events + more == (events + [more[0]]) + more[1..];
      assert (events + [more[0]])[..|events|] == events;
      RunThen(byteCount, events + [more[0]], more[1..]);
    }
  }

  /** One request carried out without disturbance. */
  function Writing(request: nat, bytes: seq<Byte>, finish: bool): seq<Event> {
    [Prepare(request, bytes, finish, true), Start(true), Execute(true, 0), Publish(true)]
  }

  /** The parts one by one, then the finish. */
  function Uploading(parts: seq<seq<Byte>>, request: nat): seq<Event> {
    if parts == [] then Writing(request, [], true)
    else Writing(request, parts[0], false) + Uploading(parts[1..], request + 1)
  }

  lemma Unfold(w: World, byteCount: nat, e: Event, rest: seq<Event>)
    ensures Continue(w, byteCount, [e] + rest) == Continue(Step(w, byteCount, e), byteCount, rest)
  {
    assert ([e] + rest)[1..] == rest;
  }

  lemma ContinueFour(w: World, byteCount: nat, a: Event, b: Event, c: Event, d: Event, rest: seq<Event>)
    ensures Continue(w, byteCount, [a, b, c, d] + rest) ==
            Continue(Step(Step(Step(Step(w, byteCount, a), byteCount, b), byteCount, c), byteCount, d), byteCount, rest)
  {
    hide Step, Continue;
    var w1 := Step(w, byteCount, a);
    var w2 := Step(w1, byteCount, b);
    Unfold(w, byteCount, a, [b, c, d] + rest);
    Unfold(w1, byteCount, b, [c, d] + rest);
    Unfold(w2, byteCount, c, [d] + rest);
    Unfold(Step(w2, byteCount, c), byteCount, d, rest);
    assert [a] + ([b, c, d] + rest) == [a, b, c, d] + rest && [b] + ([c, d] + rest) == [b, c, d] + rest;
    assert [c] + ([d] + rest) == [c, d] + rest;
  }

  /** Ready for the next part, with Core holding all so far. */
  ghost predicate Waiting(w: World, byteCount: nat) {
    Inv(w, byteCount) && w.live && w.state.phase == Ready
  }

  lemma PartGoesThrough(w: World, byteCount: nat, request: nat, bytes: seq<Byte>, rest: seq<Event>)
    requires Waiting(w, byteCount) && request > w.last
    requires 1 <= |bytes| <= MAX_WRITE && |w.core.staged| + |bytes| <= byteCount
    ensures exists u :: && Waiting(u, byteCount) && u.last == request && u.core.staged == w.core.staged + bytes
                        && Continue(w, byteCount, Writing(request, bytes, false) + rest) == Continue(u, byteCount, rest)
  {
    var w1 := Step(w, byteCount, Prepare(request, bytes, false, true));
    var w2 := Step(w1, byteCount, Start(true));
    var w3 := Step(w2, byteCount, Execute(true, 0));
    var u := Step(w3, byteCount, Publish(true));
    ContinueFour(w, byteCount, Prepare(request, bytes, false, true), Start(true), Execute(true, 0), Publish(true), rest);
    StepKeeps(w, byteCount, Prepare(request, bytes, false, true));
    StepKeeps(w1, byteCount, Start(true));
    StepKeeps(w2, byteCount, Execute(true, 0));
    StepKeeps(w3, byteCount, Publish(true));
    hide Inv, Continue;
    assert Waiting(u, byteCount) && u.core.staged == w.core.staged + bytes;
  }

  lemma FinishGoesThrough(w: World, byteCount: nat, request: nat)
    requires Waiting(w, byteCount) && request > w.last && |w.core.staged| == byteCount
    ensures Continue(w, byteCount, Writing(request, [], true)).core.completed
    ensures Continue(w, byteCount, Writing(request, [], true)).core.staged == w.core.staged
  {
    var writing := Writing(request, [], true);
    ContinueFour(w, byteCount, Prepare(request, [], true, true), Start(true), Execute(true, 0), Publish(true), []);
    assert writing + [] == writing;
    assert w.core.staged + [] == w.core.staged;
  }

  lemma {:induction false} PartsGoThrough(w: World, byteCount: nat, parts: seq<seq<Byte>>, request: nat)
    requires Waiting(w, byteCount) && request > w.last
    requires forall i :: 0 <= i < |parts| ==> 1 <= |parts[i]| <= MAX_WRITE
    requires |w.core.staged| + |Flatten(parts)| == byteCount
    ensures var u := Continue(w, byteCount, Uploading(parts, request));
            u.core.completed && u.core.staged == w.core.staged + Flatten(parts)
    decreases |parts|
  {
    hide Waiting;
    if parts == [] {
      FinishGoesThrough(w, byteCount, request);
      assert w.core.staged + [] == w.core.staged;
    } else {
      FlattenFirst(parts);
      PartGoesThrough(w, byteCount, request, parts[0], Uploading(parts[1..], request + 1));
      var u :| && Waiting(u, byteCount) && u.last == request && u.core.staged == w.core.staged + parts[0]
               && Continue(w, byteCount, Uploading(parts, request)) == Continue(u, byteCount, Uploading(parts[1..], request + 1));
      PartsGoThrough(u, byteCount, parts[1..], request + 1);
      assert w.core.staged + (parts[0] + Flatten(parts[1..])) == (w.core.staged + parts[0]) + Flatten(parts[1..]);
    }
  }

  lemma {:induction false} FlattenFirst(parts: seq<seq<Byte>>)
    requires parts != []
    ensures Flatten(parts) == parts[0] + Flatten(parts[1..])
  {
    var n := |parts| - 1;
    if n > 0 {
      FlattenFirst(parts[..n]);
      assert parts[..n][1..] == parts[1..][..n - 1];
      assert parts[0] + (Flatten(parts[1..][..n - 1]) + parts[n]) == (parts[0] + Flatten(parts[1..][..n - 1])) + parts[n];
    } else {
      assert parts[..0] == [] && parts[1..] == [] && parts[0] + [] == parts[0] && [] + parts[0] == parts[0];
    }
  }

  /** Left alone, any parts of up to a MiB that add up to the declared size become the file. */
  lemma UploadGoesThrough(byteCount: nat, parts: seq<seq<Byte>>)
    requires forall i :: 0 <= i < |parts| ==> 1 <= |parts[i]| <= 1048576
    requires |Flatten(parts)| == byteCount
    ensures var u := Run(byteCount, Uploading(parts, 1)); u.core.completed && u.core.staged == Flatten(parts)
  {
    Reachable(byteCount, []);
    RunThen(byteCount, [], Uploading(parts, 1));
    assert [] + Uploading(parts, 1) == Uploading(parts, 1);
    PartsGoThrough(START, byteCount, parts, 1);
    assert START.core.staged + Flatten(parts) == Flatten(parts);
  }

  // ---- Cancellation ---------------------------------------------------------------------

  /** Closed, with no finish on the worker. */
  ghost predicate GivenUp(w: World) {
    w.state.phase == Closed && !(w.flight.Running? && w.flight.work.finish)
  }

  lemma GivenUpStays(w: World, byteCount: nat, e: Event)
    requires Inv(w, byteCount) && GivenUp(w)
    ensures GivenUp(Step(w, byteCount, e)) && Step(w, byteCount, e).parts == w.parts
  {
  }

  lemma {:induction false} GivenUpRuns(byteCount: nat, events: seq<Event>, more: seq<Event>)
    requires GivenUp(Run(byteCount, events))
    ensures GivenUp(Run(byteCount, events + more)) && Run(byteCount, events + more).parts == Run(byteCount, events).parts
    decreases |more|
  {
    hide Step, Inv, GivenUp;
    if more == [] {
      assert events + more == events;
    } else {
      var less := more[..|more| - 1];
      assert (events + more)[..|events + more| - 1] == events + less;
      GivenUpRuns(byteCount, events, less);
      Reachable(byteCount, events + less);
      GivenUpStays(Run(byteCount, events + less), byteCount, more[|more| - 1]);
    }
  }

  /** What stops an upload: its handle canceled or dropped, its session revoked, or the request it
      is at canceled. */
  predicate Stops(w: World, stop: Event) {
    stop == Cancel || stop == Revoke || (stop.CancelRequest? && w.state.request == Some(stop.request))
  }

  /** Unless the file is already complete or its finish is on the worker, stopping it is final: no
      part is admitted any more, and the file is never completed. */
  lemma StopIsFinal(byteCount: nat, events: seq<Event>, stop: Event, more: seq<Event>)
    requires var w := Run(byteCount, events);
             Stops(w, stop) && !w.core.completed && !(w.flight.Running? && w.flight.work.finish)
    ensures var u := Run(byteCount, events + [stop] + more);
            !u.core.completed && u.state.phase == Closed && u.parts == Run(byteCount, events).parts
  {
    assert (events + [stop])[..|events|] == events;
    Reachable(byteCount, events);
    GivenUpRuns(byteCount, events + [stop], more);
    Reachable(byteCount, events + [stop] + more);
  }

  /** And once the worker is free its cleanup leaves nothing staged. */
  lemma StopIsCleanedUp(byteCount: nat, events: seq<Event>, stop: Event)
    requires var w := Run(byteCount, events);
             Stops(w, stop) && !w.core.completed && (w.flight.Grounded? || w.flight.Queued?)
    ensures Run(byteCount, events + [stop, Cleanup]).core == Core(None, [], false)
  {
    Reachable(byteCount, events);
    assert (events + [stop, Cleanup])[..|events| + 1] == events + [stop] && (events + [stop])[..|events|] == events;
  }

  // ---- Replies no honest Core gives -----------------------------------------------------

  /** The same upload with a Core that may answer anything at all. */
  datatype Move = Ordinary(event: Event) | Claim(reply: Reply)

  function StepAny(w: World, byteCount: nat, move: Move): World {
    match move
    case Ordinary(event) => Step(w, byteCount, event)
    case Claim(reply) =>
      if !w.flight.Running? then w
      else
        var (state, work) := Executed(w.state, w.flight.work, reply);
        w.(state := state, flight := Done(work, w.flight.canceled))
  }

  function RunAny(w: World, byteCount: nat, moves: seq<Move>): World
    decreases |moves|
  {
    if moves == [] then w else RunAny(StepAny(w, byteCount, moves[0]), byteCount, moves[1..])
  }

  /** Nothing in the reply contradicts the request. */
  predicate Consistent(work: Work, reply: Reply) {
    && reply.Upload? && reply.created && reply.uploaded == work.offset + |work.bytes|
    && reply.completed == work.finish && (work.node == None || work.node == Some(reply.node))
  }

  /** Waiting to be published after a reply that said completed. */
  ghost predicate Claimed(w: World, succeeded: bool) {
    w.flight.Done? && w.flight.work.succeeded == succeeded && w.state.phase == Committed
  }

  lemma ClaimedStays(w: World, byteCount: nat, move: Move, succeeded: bool)
    requires Claimed(w, succeeded) && !(move.Ordinary? && move.event.Publish?)
    ensures Claimed(StepAny(w, byteCount, move), succeeded)
  {
  }

  lemma {:induction false} ClaimedRuns(w: World, byteCount: nat, moves: seq<Move>, succeeded: bool)
    requires Claimed(w, succeeded) && forall move :: move in moves ==> !(move.Ordinary? && move.event.Publish?)
    ensures Claimed(RunAny(w, byteCount, moves), succeeded)
    decreases |moves|
  {
    if moves != [] {
      assert moves[0] in moves;
      ClaimedStays(w, byteCount, moves[0], succeeded);
      ClaimedRuns(StepAny(w, byteCount, moves[0]), byteCount, moves[1..], succeeded);
    }
  }

  /** Nothing is left to happen to the phase. */
  ghost predicate Settled(w: World, phase: Phase) {
    w.flight == Grounded && w.state.phase == phase && (phase == Committed || phase == Closed)
  }

  lemma {:induction false} SettledRuns(w: World, byteCount: nat, moves: seq<Move>, phase: Phase)
    requires Settled(w, phase)
    ensures Settled(RunAny(w, byteCount, moves), phase)
    decreases |moves|
  {
    if moves != [] {
      SettledRuns(StepAny(w, byteCount, moves[0]), byteCount, moves[1..], phase);
    }
  }

  lemma {:induction false} RunAnyTwice(w: World, byteCount: nat, moves: seq<Move>, more: seq<Move>)
    ensures RunAny(w, byteCount, moves + more) == RunAny(RunAny(w, byteCount, moves), byteCount, more)
    decreases |moves|
  {
    if moves == [] {
      assert moves + more == more;
    } else {
      assert (moves + more)[1..] == moves[1..] + more;
      RunAnyTwice(StepAny(w, byteCount, moves[0]), byteCount, moves[1..], more);
    }
  }

  /** The authority lets the waiting work be published. */
  predicate Publishes(w: World, accepted: bool) {
    w.flight.Done? && w.live && accepted && !w.flight.canceled
  }

  /** Whatever Core claims: after a reply that says completed the resource is committed until it
      is published, and from then on, whatever else happens, committed exactly when the reply
      contradicts nothing or publication was refused as canceled or revoked. */
  lemma CompletedReplyEnds(w: World, byteCount: nat, reply: Reply, between: seq<Move>, accepted: bool, after: seq<Move>)
    requires w.flight.Running? && reply.Upload? && reply.completed
    requires forall move :: move in between ==> !(move.Ordinary? && move.event.Publish?)
    ensures var waiting := RunAny(w, byteCount, [Claim(reply)] + between);
            var ended := RunAny(w, byteCount, [Claim(reply)] + between + [Ordinary(Publish(accepted))] + after);
            && waiting.state.phase == Committed
            && (ended.state.phase == Committed <==> Consistent(w.flight.work, reply) || !Publishes(waiting, accepted))
            && (ended.state.phase != Committed ==> ended.state.phase == Closed)
  {
    var claim, publish := [Claim(reply)], [Ordinary(Publish(accepted))];
    var claimed := StepAny(w, byteCount, Claim(reply));
    assert claim[1..] == [] && RunAny(w, byteCount, claim) == claimed;
    RunAnyTwice(w, byteCount, claim, between);
    ClaimedRuns(claimed, byteCount, between, Consistent(w.flight.work, reply));
    var waiting := RunAny(claimed, byteCount, between);
    var published := StepAny(waiting, byteCount, Ordinary(Publish(accepted)));
    assert publish[1..] == [] && RunAny(waiting, byteCount, publish) == published;
    RunAnyTwice(w, byteCount, claim + between, publish);
    RunAnyTwice(w, byteCount, claim + between + publish, after);
    SettledRuns(published, byteCount, after, published.state.phase);
  }

  /** Any finish on the worker, answered as completed but not created: published, it closes the
      resource; canceled meanwhile, it leaves the resource committed. */
  lemma InconsistentReply(w: World, byteCount: nat, node: nat, after: seq<Move>)
    requires w.flight.Running? && w.live && !w.flight.canceled && w.state.request == Some(w.flight.work.request)
    ensures var claim := [Claim(Upload(node, byteCount, true, false))];
            && RunAny(w, byteCount, claim).state.phase == Committed
            && RunAny(w, byteCount, claim + [] + [Ordinary(Publish(true))] + after).state.phase == Closed
            && RunAny(w, byteCount, claim + [Ordinary(Cancel)] + [Ordinary(Publish(true))] + after).state.phase == Committed
  {
    var reply := Upload(node, byteCount, true, false);
    CompletedReplyEnds(w, byteCount, reply, [], true, after);
    CompletedReplyEnds(w, byteCount, reply, [Ordinary(Cancel)], true, after);
    WhileWaiting(w, byteCount, reply, []);
    WhileWaiting(w, byteCount, reply, [Ordinary(Cancel)]);
  }

  /** Such a finish is reached, for an empty file at once. */
  lemma FinishIsReached()
    ensures var w := RunAny(START, 0, [Ordinary(Prepare(1, [], true, true)), Ordinary(Start(true))]);
            && w.flight == Running(Work(1, None, 0, [], true, false), false)
            && w.live && w.state.request == Some(1)
  {
    var moves := [Ordinary(Prepare(1, [], true, true)), Ordinary(Start(true))];
    assert moves[1..] == [Ordinary(Start(true))] && moves[1..][1..] == [];
    assert RunAny(StepAny(START, 0, moves[0]), 0, moves[1..]) == StepAny(StepAny(START, 0, moves[0]), 0, moves[1]);
  }

  lemma WhileWaiting(w: World, byteCount: nat, reply: Reply, between: seq<Move>)
    requires w.flight.Running? && reply.Upload? && reply.completed && w.live && !w.flight.canceled
    requires w.state.request == Some(w.flight.work.request) && (between == [] || between == [Ordinary(Cancel)])
    ensures RunAny(w, byteCount, [Claim(reply)] + between).flight.Done?
    ensures RunAny(w, byteCount, [Claim(reply)] + between).live
    ensures RunAny(w, byteCount, [Claim(reply)] + between).flight.canceled == (between != [])
    ensures RunAny(w, byteCount, [Claim(reply)]).state.phase == Committed
  {
    var claimed := StepAny(w, byteCount, Claim(reply));
    assert [Claim(reply)][1..] == [] && [Ordinary(Cancel)][1..] == [];
    RunAnyTwice(w, byteCount, [Claim(reply)], between);
    assert RunAny(w, byteCount, [Claim(reply)]) == claimed;
    assert between != [] ==> RunAny(claimed, byteCount, between) == StepAny(claimed, byteCount, between[0]);
  }
}
