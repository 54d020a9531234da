/** Positioned reads of one file through a revocable handle, while the file may be replaced and
    the request canceled at any moment.
 */
module FileReader {
  import opened Common

  const MAX_READ: nat := 512 * 1024

  // ---- The handle -----------------------------------------------------------------------

  datatype Metadata = Metadata(revision: nat, size: nat)

  datatype ReadState =
    | Idle(pinned: Option<Metadata>)
    | Preparing(id: nat)
    | Ready(request: nat, metadata: Metadata, bytes: seq<Byte>)
    | Closed

  /** A range asked for. */
  datatype Range = Range(offset: nat, length: nat)

  datatype Work = Work(range: Range, pinned: Option<Metadata>, prepared: Option<(Metadata, seq<Byte>)>)

  predicate Admissible(s: ReadState, range: Range) {
    0 < range.length <= MAX_READ && s.Idle?
  }

  /** The chunk a caller takes, and the state afterwards. */
  function Taken(s: ReadState): (ReadState, Option<seq<Byte>>) {
    match s
    case Ready(_, metadata, bytes) => (Idle(Some(metadata)), Some(bytes))
    case _ => (s, None)
  }

  function Published(s: ReadState, work: Work): ReadState {
    match s
    case Preparing(id) =>
      if work.prepared.Some? then Ready(id, work.prepared.value.0, work.prepared.value.1) else Closed
    case _ => s
  }

  function CanceledRequest(s: ReadState, request: nat): ReadState {
    match s
    case Preparing(id) => if id == request then Closed else s
    case Ready(id, _, _) => if id == request then Closed else s
    case _ => s
  }

  class FileReaderHandle {
    var state: ReadState

    constructor ()
      ensures state == Idle(None)
    {
      state := Idle(None);
    }

    method Prepare(request: nat, range: Range) returns (work: Option<Work>)
      modifies this
      ensures work.Some? == Admissible(old(state), range)
      ensures work.Some? ==> state == Preparing(request) && work.value == Work(range, old(state).pinned, None)
      ensures work == None ==> state == old(state)
    {
      work := None;
      if range.length == 0 || range.length > MAX_READ {
        return;
      }
      match state
      case Idle(pinned) =>
        state := Preparing(request);
        work := Some(Work(range, pinned, None));
      case _ =>
    }

    /** The state is closed while the chunk is moved out, and put back if there is none. */
    method TakeChunk() returns (chunk: Option<seq<Byte>>)
      modifies this
      ensures (state, chunk) == Taken(old(state))
    {
      var previous := state;
      state := Closed;
      match previous
      case Ready(_, metadata, bytes) =>
        state := Idle(Some(metadata));
        chunk := Some(bytes);
      case _ =>
        state := previous;
        chunk := None;
    }

    method Publish(work: Work) returns (ok: bool)
      modifies this
      ensures state == Published(old(state), work) && ok == old(state).Preparing?
    {
      ok := state.Preparing?;
      if ok {
        match work.prepared
        case Some((metadata, bytes)) => state := Ready(state.id, metadata, bytes);
        case None => state := Closed;
      }
    }

    method CancelRequest(request: nat)
      modifies this
      ensures state == CanceledRequest(old(state), request)
    {
      var id := match state case Preparing(id) => Some(id) case Ready(id, _, _) => Some(id) case _ => None;
      if id == Some(request) {
        state := Closed;
      }
    }

    method Cancel()
      modifies this
      ensures state == Closed
    {
      state := Closed;
    }
  }

  // ---- The handle with its worker and the file ------------------------------------------

  /** Where the work is, with its request and cancel flag. Between `Running` and `Done` the
      metadata is known and the range is still to be read. */
  datatype Flight =
    | Grounded
    | Queued(request: nat, work: Work, canceled: bool)
    | Running(request: nat, work: Work, canceled: bool)
    | Probed(request: nat, work: Work, canceled: bool, metadata: Metadata)
    | Done(request: nat, work: Work, canceled: bool)

  /** A chunk handed out, with the request it answers. */
  datatype Chunk = Chunk(request: nat, metadata: Metadata, bytes: seq<Byte>)

  /** Every revision the file has had, the current one, and what was asked and handed out. */
  datatype World = World(
    state: ReadState, flight: Flight, live: bool, last: nat,
    contents: map<nat, seq<Byte>>, current: nat, asked: map<nat, Range>, chunks: seq<Chunk>)

  function Start(revision: nat, data: seq<Byte>): World {
    World(Idle(None), Grounded, true, 0, map[revision := data], revision, map[], [])
  }

  datatype Event =
    | Replace(revision: nat, data: seq<Byte>)
    | Prepare(request: nat, range: Range, accepted: bool)
    | Begin(accepted: bool)
    | Probe(ok: bool)
    | Fetch(ok: bool)
    | Publish(accepted: bool)
    | Abandon
    | Take(accepted: bool)
    | Cancel
    | CancelRequest(request: nat)
    | Revoke

  function Flagged(flight: Flight): Flight {
    if flight.Grounded? then flight else flight.(canceled := true)
  }

  /** What is left of a range at the end of the file. */
  function Clamped(range: Range, size: nat): nat
    requires range.offset <= size
  {
    Min(range.length, size - range.offset)
  }

  /** The metadata call and the checks that follow it. */
  function AfterProbe(w: World, ok: bool): Flight
    requires w.flight.Running? && w.current in w.contents
  {
    var metadata := Metadata(w.current, |w.contents[w.current]|);
    var work := w.flight.work;
    if !ok || (work.pinned.Some? && work.pinned.value != metadata) || work.range.offset > metadata.size
    then Done(w.flight.request, work, w.flight.canceled)
    else if Clamped(work.range, metadata.size) == 0
    then Done(w.flight.request, work.(prepared := Some((metadata, []))), w.flight.canceled)
    else Probed(w.flight.request, work, w.flight.canceled, metadata)
  }

  /** The range call: Core reads the revision it was told to expect, or refuses. */
  function AfterFetch(w: World, ok: bool): Flight
    requires w.flight.Probed? && w.current in w.contents
  {
    var metadata, work := w.flight.metadata, w.flight.work;
    if !ok || w.current != metadata.revision || work.range.offset > |w.contents[w.current]|
    then Done(w.flight.request, work, w.flight.canceled)
    else
      var data := w.contents[w.current];
      var bytes := data[work.range.offset..work.range.offset + Clamped(work.range, |data|)];
      Done(w.flight.request, work.(prepared := Some((metadata, bytes))), w.flight.canceled)
  }

  function Step(w: World, e: Event): World {
    match e
    case Replace(revision, data) =>
      if revision in w.contents then w else w.(contents := w.contents[revision := data], current := revision)
    case Prepare(request, range, accepted) =>
      if !w.live || !accepted || !Admissible(w.state, range) || request <= w.last then w
      else w.(state := Preparing(request), last := request, asked := w.asked[request := range],
              flight := Queued(request, Work(range, w.state.pinned, None), false))
    case Begin(accepted) =>
      if !w.flight.Queued? then w
      else if w.live && accepted && !w.flight.canceled then w.(flight := Running(w.flight.request, w.flight.work, false))
      else w.(flight := Grounded)
    case Probe(ok) =>
      if !w.flight.Running? || w.current !in w.contents then w else w.(flight := AfterProbe(w, ok))
    case Fetch(ok) =>
      if !w.flight.Probed? || w.current !in w.contents then w else w.(flight := AfterFetch(w, ok))
    case Publish(accepted) =>
      if !w.flight.Done? then w
      else w.(flight := Grounded,
              state := if w.live && accepted && !w.flight.canceled then Published(w.state, w.flight.work) else w.state)
    case Abandon =>
      if w.flight.Queued? then w.(flight := Grounded) else w
    case Take(accepted) =>
      if !w.live || !accepted || !w.state.Ready? then w
      else w.(state := Taken(w.state).0, chunks := w.chunks + [Chunk(w.state.request, w.state.metadata, w.state.bytes)])
    case Cancel =>
      w.(state := Closed, flight := if w.state.Preparing? && !w.flight.Grounded? && w.flight.request == w.state.id
                                    then Flagged(w.flight) else w.flight)
    case CancelRequest(request) =>
      w.(state := CanceledRequest(w.state, request),
         flight := if !w.flight.Grounded? && w.flight.request == request then Flagged(w.flight) else w.flight)
    case Revoke =>
      w.(live := false, state := Closed, flight := Flagged(w.flight))
  }

  function Run(revision: nat, data: seq<Byte>, events: seq<Event>): World {
    if events == [] then Start(revision, data)
    else Step(Run(revision, data, events[..|events| - 1]), events[|events| - 1])
  }

  // ---- The invariant --------------------------------------------------------------------

  /** What was ever in the file and what was ever asked. */
  datatype Records = Records(contents: map<nat, seq<Byte>>, asked: map<nat, Range>)

  function RecordsOf(w: World): Records {
    Records(w.contents, w.asked)
  }

  /** The bytes are what the range of that request covers in that revision. */
  ghost predicate Answers(r: Records, request: nat, metadata: Metadata, bytes: seq<Byte>) {
    && IsOf(r, metadata) && request in r.asked
    && var range := r.asked[request];
       && range.offset <= metadata.size && range.length > 0
       && bytes == r.contents[metadata.revision][range.offset..range.offset + Clamped(range, metadata.size)]
  }

  ghost predicate IsOf(r: Records, metadata: Metadata) {
    metadata.revision in r.contents && metadata.size == |r.contents[metadata.revision]|
  }

  /** The revision and size of the first chunk handed out. */
  function Pinned(chunks: seq<Chunk>): Option<Metadata> {
    if chunks == [] then None else Some(chunks[0].metadata)
  }

  ghost predicate FitsPin(pinned: Option<Metadata>, metadata: Metadata) {
    pinned == None || pinned == Some(metadata)
  }

  ghost predicate WorkOk(r: Records, pinned: Option<Metadata>, request: nat, work: Work) {
    && request in r.asked && r.asked[request] == work.range && work.range.length > 0
    && work.pinned == pinned
    && (work.prepared.Some? ==>
          FitsPin(pinned, work.prepared.value.0) && Answers(r, request, work.prepared.value.0, work.prepared.value.1))
  }

  ghost predicate FlightOk(r: Records, pinned: Option<Metadata>, flight: Flight) {
    && (!flight.Grounded? ==> WorkOk(r, pinned, flight.request, flight.work))
    && (flight.Probed? ==> FitsPin(pinned, flight.metadata) && IsOf(r, flight.metadata))
  }

  ghost predicate StateOk(r: Records, pinned: Option<Metadata>, state: ReadState) {
    && (state.Idle? ==> state.pinned == pinned)
    && (state.Ready? ==> FitsPin(pinned, state.metadata) && Answers(r, state.request, state.metadata, state.bytes))
  }

  ghost predicate ChunksOk(r: Records, chunks: seq<Chunk>) {
    forall i :: 0 <= i < |chunks| ==>
      && chunks[i].metadata == chunks[0].metadata
      && Answers(r, chunks[i].request, chunks[i].metadata, chunks[i].bytes)
  }

  /** While the handle waits for a request, a flight, if there still is one, is that one's. */
  ghost predicate Matched(state: ReadState, flight: Flight) {
    flight.Grounded? || state == Closed || state == Preparing(flight.request)
  }

  ghost predicate Inv(w: World) {
    && w.current in w.contents && Matched(w.state, w.flight)
    && FlightOk(RecordsOf(w), Pinned(w.chunks), w.flight)
    && StateOk(RecordsOf(w), Pinned(w.chunks), w.state)
    && ChunksOk(RecordsOf(w), w.chunks)
    && (forall request :: request in w.asked ==> request <= w.last)
  }

  ghost predicate Extends(r: Records, more: Records) {
    && (forall k :: k in r.contents ==> k in more.contents && more.contents[k] == r.contents[k])
    && (forall k :: k in r.asked ==> k in more.asked && more.asked[k] == r.asked[k])
  }

  /** Later revisions and later requests do not change what a chunk answers. */
  lemma AnswersStay(r: Records, more: Records, request: nat, metadata: Metadata, bytes: seq<Byte>)
    requires Extends(r, more) && Answers(r, request, metadata, bytes)
    ensures Answers(more, request, metadata, bytes)
  {
  }

  lemma GrowthKeeps(r: Records, more: Records, chunks: seq<Chunk>, flight: Flight, state: ReadState)
    requires Extends(r, more) && ChunksOk(r, chunks)
    ensures ChunksOk(more, chunks)
    ensures FlightOk(r, Pinned(chunks), flight) ==> FlightOk(more, Pinned(chunks), flight)
    ensures StateOk(r, Pinned(chunks), state) ==> StateOk(more, Pinned(chunks), state)
  {
    hide Answers;
    forall request, metadata, bytes | Answers(r, request, metadata, bytes) ensures Answers(more, request, metadata, bytes) {
      AnswersStay(r, more, request, metadata, bytes);
    }
  }

  lemma ProbeKeeps(w: World, ok: bool)
    requires Inv(w) && w.flight.Running?
    ensures FlightOk(RecordsOf(w), Pinned(w.chunks), AfterProbe(w, ok)) && AfterProbe(w, ok).request == w.flight.request
  {
  }

  lemma FetchKeeps(w: World, ok: bool)
    requires Inv(w) && w.flight.Probed?
    ensures FlightOk(RecordsOf(w), Pinned(w.chunks), AfterFetch(w, ok)) && AfterFetch(w, ok).request == w.flight.request
    ensures AfterFetch(w, ok).Done?
  {
  }

  lemma TakeKeeps(w: World, accepted: bool)
    requires Inv(w)
    ensures Inv(Step(w, Take(accepted)))
  {
    hide Answers;
  }

  lemma PublishKeeps(w: World, accepted: bool)
    requires Inv(w)
    ensures Inv(Step(w, Publish(accepted)))
  {
    hide Answers;
  }

  lemma StepKeeps(w: World, e: Event)
    requires Inv(w)
    ensures Inv(Step(w, e))
  {
    hide Answers, AfterProbe, AfterFetch, ChunksOk;
    var u := Step(w, e);
    match e
    case Replace(revision, data) =>
      GrowthKeeps(RecordsOf(w), RecordsOf(u), w.chunks, w.flight, w.state);
    case Prepare(request, range, accepted) =>
      GrowthKeeps(RecordsOf(w), RecordsOf(u), w.chunks, Grounded, w.state);
    case Probe(ok) =>
      if w.flight.Running? {
        ProbeKeeps(w, ok);
      }
    case Fetch(ok) =>
      if w.flight.Probed? {
        FetchKeeps(w, ok);
      }
    case Publish(accepted) =>
      PublishKeeps(w, accepted);
    case Take(accepted) =>
      TakeKeeps(w, accepted);
    case _ =>
  }

  lemma {:induction false} Reachable(revision: nat, data: seq<Byte>, events: seq<Event>)
    ensures Inv(Run(revision, data, events))
  {
    if events != [] {
      Reachable(revision, data, events[..|events| - 1]);
      StepKeeps(Run(revision, data, events[..|events| - 1]), events[|events| - 1]);
    }
  }

  // ---- What it means --------------------------------------------------------------------

  /** All chunks taken from one handle come from one revision of the file; each is the range
      asked for under its own request, cut at the end of the file; an empty one is the end. */
  lemma ChunksAreConsistent(revision: nat, data: seq<Byte>, events: seq<Event>, i: nat)
    requires i < |Run(revision, data, events).chunks|
    ensures var w := Run(revision, data, events);
            var chunk := w.chunks[i];
            && chunk.metadata == w.chunks[0].metadata
            && chunk.metadata.revision in w.contents && chunk.request in w.asked
            && var whole, range := w.contents[chunk.metadata.revision], w.asked[chunk.request];
               && chunk.metadata.size == |whole| && range.offset <= |whole|
               && chunk.bytes == whole[range.offset..Min(range.offset + range.length, |whole|)]
               && (chunk.bytes == [] <==> range.offset == |whole|)
  {
    Reachable(revision, data, events);
  }

  /** A closed handle stays closed. */
  lemma ClosedIsFinal(w: World, e: Event)
    requires Inv(w) && w.state == Closed
    ensures Step(w, e).state == Closed && Step(w, e).chunks == w.chunks
  {
  }

  /** What is ready belongs to the request it is labelled with. */
  lemma ReadyIsTheAnswer(revision: nat, data: seq<Byte>, events: seq<Event>)
    ensures var w := Run(revision, data, events);
            w.state.Ready? ==> Answers(RecordsOf(w), w.state.request, w.state.metadata, w.state.bytes)
  {
    Reachable(revision, data, events);
  }

  // ---- Cancellation ---------------------------------------------------------------------

  /** The handle does not wait for the request and has nothing ready for it. */
  ghost predicate Dismissed(w: World, request: nat) {
    && request in w.asked && w.state != Preparing(request)
    && !(w.state.Ready? && w.state.request == request)
  }

  lemma DismissedStays(w: World, e: Event, request: nat)
    requires Inv(w) && Dismissed(w, request)
    ensures Dismissed(Step(w, e), request)
    ensures var u := Step(w, e); w.chunks <= u.chunks && forall i :: |w.chunks| <= i < |u.chunks| ==> u.chunks[i].request != request
  {
    hide Answers, ChunksOk, AfterProbe, AfterFetch;
  }

  lemma {:induction false} DismissedRuns(revision: nat, data: seq<Byte>, events: seq<Event>, request: nat, more: seq<Event>)
    requires Dismissed(Run(revision, data, events), request)
    ensures Dismissed(Run(revision, data, events + more), request)
    ensures var w, u := Run(revision, data, events), Run(revision, data, events + more);
            w.chunks <= u.chunks && forall i :: |w.chunks| <= i < |u.chunks| ==> u.chunks[i].request != request
    decreases |more|
  {
    hide Step, Inv;
    if more == [] {
      assert events + more == events;
    } else {
      var less := more[..|more| - 1];
      assert (events + more)[..|events + more| - 1] == events + less;
      DismissedRuns(revision, data, events, request, less);
      Reachable(revision, data, events + less);
      DismissedStays(Run(revision, data, events + less), more[|more| - 1], request);
    }
  }

  /** After a request is canceled nothing is handed out for it any more, whatever else happens. */
  lemma CanceledIsNeverTaken(revision: nat, data: seq<Byte>, events: seq<Event>, request: nat, more: seq<Event>, i: nat)
    requires request in Run(revision, data, events).asked
    requires |Run(revision, data, events).chunks| <= i < |Run(revision, data, events + [CancelRequest(request)] + more).chunks|
    ensures Run(revision, data, events + [CancelRequest(request)] + more).chunks[i].request != request
  {
    var canceled := events + [CancelRequest(request)];
    assert canceled[..|events|] == events;
    DismissedRuns(revision, data, canceled, request, more);
  }

  /** Canceling the request a handle is at closes it; canceling another leaves it alone. */
  lemma CancelClosesItsOwn(w: World, request: nat)
    ensures var u := Step(w, CancelRequest(request));
            && u.chunks == w.chunks
            && (w.state == Preparing(request) || (w.state.Ready? && w.state.request == request) ==> u.state == Closed)
            && (w.state != Preparing(request) && !(w.state.Ready? && w.state.request == request) ==> u.state == w.state)
  {
  }

  lemma {:induction false} ClosedRuns(revision: nat, data: seq<Byte>, events: seq<Event>, more: seq<Event>)
    requires Run(revision, data, events).state == Closed
    ensures Run(revision, data, events + more).state == Closed
    ensures Run(revision, data, events + more).chunks == Run(revision, data, events).chunks
    decreases |more|
  {
    hide Step, Inv;
    if more == [] {
      assert events + more == events;
    } else {
      var less := more[..|more| - 1];
      assert (events + more)[..|events + more| - 1] == events + less;
      ClosedRuns(revision, data, events, less);
      Reachable(revision, data, events + less);
      ClosedIsFinal(Run(revision, data, events + less), more[|more| - 1]);
    }
  }

  /** A handle that is canceled, or whose session is revoked, or whose own request is canceled,
      is closed for good and hands out nothing more. */
  lemma CancelIsFinal(revision: nat, data: seq<Byte>, events: seq<Event>, stop: Event, more: seq<Event>)
    requires var w := Run(revision, data, events);
             || stop == Cancel || stop == Revoke
             || (stop.CancelRequest? && (w.state == Preparing(stop.request) || (w.state.Ready? && w.state.request == stop.request)))
    ensures Run(revision, data, events + [stop] + more).state == Closed
    ensures Run(revision, data, events + [stop] + more).chunks == Run(revision, data, events).chunks
  {
    assert (events + [stop])[..|events|] == events;
    ClosedRuns(revision, data, events + [stop], more);
  }

  // ---- An undisturbed read --------------------------------------------------------------

  function Reading(request: nat, range: Range): seq<Event> {
    [Prepare(request, range, true), Begin(true), Probe(true), Fetch(true), Publish(true), Take(true)]
  }

  function Continue(w: World, events: seq<Event>): World
    decreases |events|
  {
    if events == [] then w else Continue(Step(w, events[0]), events[1..])
  }

  lemma {:induction false} RunThen(revision: nat, data: seq<Byte>, events: seq<Event>, more: seq<Event>)
    ensures Run(revision, data, events + more) == Continue(Run(revision, data, events), more)
    decreases |more|
  {
    if more == [] {
      assert events + more == events;
    } else {
      assert events + more == (events + [more[0]]) + more[1..];
      assert (events + [more[0]])[..|events|] == events;
      RunThen(revision, data, events + [more[0]], more[1..]);
    }
  }

  lemma ContinueSix(w: World, a: Event, b: Event, c: Event, d: Event, e: Event, f: Event)
    ensures Continue(w, [a, b, c, d, e, f]) == Step(Step(Step(Step(Step(Step(w, a), b), c), d), e), f)
  {
    hide Step, Continue;
    Unfold(w, a, [b, c, d, e, f]);
    var w1 := Step(w, a);
    Unfold(w1, b, [c, d, e, f]);
    var w2 := Step(w1, b);
    Unfold(w2, c, [d, e, f]);
    var w3 := Step(w2, c);
    Unfold(w3, d, [e, f]);
    var w4 := Step(w3, d);
    Unfold(w4, e, [f]);
    Unfold(Step(w4, e), f, []);
    assert [a] + [b, c, d, e, f] == [a, b, c, d, e, f] && [b] + [c, d, e, f] == [b, c, d, e, f];
    assert [c] + [d, e, f] == [c, d, e, f] && [d] + [e, f] == [d, e, f] && [e] + [f] == [e, f] && [f] + [] == [f];
    ContinueNone(Step(Step(w4, e), f));
  }

  lemma Unfold(w: World, e: Event, rest: seq<Event>)
    ensures Continue(w, [e] + rest) == Continue(Step(w, e), rest)
  {
    assert ([e] + rest)[1..] == rest;
  }

  lemma ContinueNone(w: World)
    ensures Continue(w, []) == w
  {
  }

  /** A read of 1 to 524288 bytes from an idle handle, left alone, hands out the range, cut at the
      end, of the file as it is, exactly when the file is still the one pinned and the range
      starts within it. Otherwise it hands out nothing and closes the handle. */
  lemma ReadGoesThrough(revision: nat, data: seq<Byte>, events: seq<Event>, request: nat, range: Range)
    requires var w := Run(revision, data, events); w.live && w.state.Idle? && request > w.last
    requires 1 <= range.length <= 524288
    ensures var w := Run(revision, data, events);
            var u := Run(revision, data, events + Reading(request, range));
            && w.current in w.contents
            && var whole := w.contents[w.current];
               var metadata := Metadata(w.current, |whole|);
               if (w.chunks == [] || w.chunks[0].metadata == metadata) && range.offset <= |whole|
               then u.state == Idle(Some(metadata)) && u.chunks ==
                    w.chunks + [Chunk(request, metadata, whole[range.offset..Min(range.offset + range.length, |whole|)])]
               else u.state == Closed && u.chunks == w.chunks
  {
    hide Answers, ChunksOk;
    var w := Run(revision, data, events);
    Reachable(revision, data, events);
    RunThen(revision, data, events, Reading(request, range));
    ContinueSix(w, Prepare(request, range, true), Begin(true), Probe(true), Fetch(true), Publish(true), Take(true));
    ReadSteps(w, request, range);
  }

  lemma ReadSteps(w: World, request: nat, range: Range)
    requires Inv(w) && w.live && w.state.Idle? && request > w.last && 1 <= range.length <= MAX_READ
    ensures var u := Step(Step(Step(Step(Step(Step(w, Prepare(request, range, true)), Begin(true)), Probe(true)), Fetch(true)), Publish(true)), Take(true));
            var whole := w.contents[w.current];
            var metadata := Metadata(w.current, |whole|);
            if (w.chunks == [] || w.chunks[0].metadata == metadata) && range.offset <= |whole|
            then u.state == Idle(Some(metadata)) && u.chunks ==
                 w.chunks + [Chunk(request, metadata, whole[range.offset..Min(range.offset + range.length, |whole|)])]
            else u.state == Closed && u.chunks == w.chunks
  {
    hide Answers, ChunksOk;
    var running := Step(Step(w, Prepare(request, range, true)), Begin(true));
    var whole := w.contents[w.current];
    var metadata := Metadata(w.current, |whole|);
    assert running.flight == Running(request, Work(range, w.state.pinned, None), false) && running.state == Preparing(request);
    var done := Step(Step(running, Probe(true)), Fetch(true));
    if (w.chunks == [] || w.chunks[0].metadata == metadata) && range.offset <= |whole| {
      var end := Min(range.offset + range.length, |whole|);
      assert range.offset + Clamped(range, |whole|) == end;
      assert range.offset == end ==> whole[range.offset..end] == [];
      assert done.flight == Done(request, Work(range, w.state.pinned, Some((metadata, whole[range.offset..end]))), false);
    } else {
      assert done.flight == Done(request, Work(range, w.state.pinned, None), false);
    }
  }

  /** A read is refused, and changes nothing, without the authority's consent, with a used request
      number, of no bytes or more than 524288, and from a handle that is not idle. */
  lemma ReadRefused(w: World, request: nat, range: Range, accepted: bool)
    requires !w.live || !accepted || request <= w.last || range.length == 0 || range.length > 524288 || !w.state.Idle?
    ensures Step(w, Prepare(request, range, accepted)) == w
  {
  }

  /** The worker honours cancellation and revocation twice: queued work does not start, and
      finished work is not published. */
  lemma WorkerHonoursCancel(w: World, accepted: bool)
    requires !w.flight.Grounded? && (!w.live || !accepted || w.flight.canceled)
    ensures w.flight.Queued? ==> Step(w, Begin(accepted)) == w.(flight := Grounded)
    ensures w.flight.Done? ==> Step(w, Publish(accepted)) == w.(flight := Grounded)
  {
  }
}
