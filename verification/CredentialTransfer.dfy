/** Credential import and export: at most one of them alive in a session, an import committed at
    most once and only as reviewed, an export read as one snapshot.
 */
module CredentialTransfer {
  import opened Common

  const MAX_IMPORT: nat := 16 * 1024 * 1024
  const MAX_EXPORT: nat := 16 * 1024 * 1024
  const MAX_CHUNK: nat := 64 * 1024

  // ---- Import: one handle ---------------------------------------------------------------

  /** What a review makes of the bytes, to be committed as it is. */
  datatype Payload = Payload(bytes: seq<Byte>)

  datatype ImportState =
    | Receiving(bytes: seq<Byte>, expected: nat)
    | Reviewing(id: nat)
    | Reviewed(id: nat, payload: Payload)
    | Committing(id: nat)
    | ImportClosed

  datatype ImportError = StateError | LengthError | TooLarge

  function Appended(s: ImportState, chunk: seq<Byte>): (ImportState, Option<ImportError>) {
    if !s.Receiving? then (s, Some(StateError))
    else if |chunk| > MAX_CHUNK then (ImportClosed, Some(TooLarge))
    else if |chunk| > (if s.expected < |s.bytes| then 0 else s.expected - |s.bytes|) then (ImportClosed, Some(LengthError))
    else (Receiving(s.bytes + chunk, s.expected), None)
  }

  function ReviewRefusal(s: ImportState): Option<ImportError> {
    if !s.Receiving? then Some(StateError)
    else if |s.bytes| != s.expected then Some(LengthError)
    else None
  }

  /** The state under review and the bytes that leave for it. */
  function ReviewBegun(s: ImportState, request: nat): Option<(ImportState, seq<Byte>)> {
    if ReviewRefusal(s).Some? then None else Some((Reviewing(request), s.bytes))
  }

  /** The committing state and the payload that leaves for it. */
  function CommitBegun(s: ImportState, request: nat): Option<(ImportState, Payload)> {
    if !s.Reviewed? then None else Some((Committing(request), s.payload))
  }

  function PublishedReview(s: ImportState, prepared: Option<Payload>): ImportState {
    match s
    case Reviewing(id) => if prepared.Some? then Reviewed(id, prepared.value) else ImportClosed
    case _ => s
  }

  function ImportRequest(s: ImportState): Option<nat> {
    match s
    case Reviewing(id) => Some(id)
    case Reviewed(id, _) => Some(id)
    case Committing(id) => Some(id)
    case _ => None
  }

  class ImportHandle {
    var state: ImportState

    /** `begin_root_import` has checked the size. */
    constructor (expected: nat)
      ensures state == Receiving([], expected)
    {
      state := Receiving([], expected);
    }

    method Append(chunk: seq<Byte>) returns (error: Option<ImportError>)
      modifies this
      ensures (state, error) == Appended(old(state), chunk)
    {
      if !state.Receiving? {
        return Some(StateError);
      }
      if |chunk| > MAX_CHUNK {
        state := ImportClosed;
        return Some(TooLarge);
      }
      var room := if state.expected < |state.bytes| then 0 else state.expected - |state.bytes|;
      if |chunk| > room {
        state := ImportClosed;
        return Some(LengthError);
      }
      state := Receiving(state.bytes + chunk, state.expected);
      error := None;
    }

    /** The bytes leave the handle for the review. */
    method Review(request: nat) returns (error: Option<ImportError>, bytes: seq<Byte>)
      modifies this
      ensures error == ReviewRefusal(old(state))
      ensures error == None ==> ReviewBegun(old(state), request) == Some((state, bytes))
      ensures error.Some? ==> state == old(state)
    {
      bytes := [];
      if !state.Receiving? {
        return Some(StateError), [];
      }
      if |state.bytes| != state.expected {
        return Some(LengthError), [];
      }
      bytes := state.bytes;
      state := Reviewing(request);
      error := None;
    }

    /** The reviewed payload leaves the handle for the commit. */
    method Commit(request: nat) returns (payload: Option<Payload>)
      modifies this
      ensures payload.Some? ==> CommitBegun(old(state), request) == Some((state, payload.value))
      ensures payload == None ==> CommitBegun(old(state), request) == None && state == old(state)
    {
      if !state.Reviewed? {
        return None;
      }
      payload := Some(state.payload);
      state := Committing(request);
    }

    method Publish(prepared: Option<Payload>) returns (ok: bool)
      modifies this
      ensures state == PublishedReview(old(state), prepared) && ok == old(state).Reviewing?
    {
      ok := state.Reviewing?;
      if ok {
        match prepared
        case Some(payload) => state := Reviewed(state.id, payload);
        case None => state := ImportClosed;
      }
    }

    method CancelRequest(request: nat)
      modifies this
      ensures state == if ImportRequest(old(state)) == Some(request) then ImportClosed else old(state)
    {
      if ImportRequest(state) == Some(request) {
        state := ImportClosed;
      }
    }
  }

  // ---- Export: one handle ---------------------------------------------------------------

  datatype ExportState =
    | Idle
    | Preparing(id: nat)
    | Snapshot(id: nat, bytes: seq<Byte>, offset: nat)
    | Exhausted
    | ExportClosed

  function ExportBegun(s: ExportState, request: nat): Option<ExportState> {
    if s.Idle? then Some(Preparing(request)) else None
  }

  /** The next chunk, if there is anything to read from. */
  function ChunkRead(s: ExportState): (ExportState, Option<seq<Byte>>) {
    match s
    case Exhausted => (s, Some([]))
    case Snapshot(id, bytes, offset) =>
      if offset > |bytes| then (s, None)
      else
        var end := if offset + MAX_CHUNK < |bytes| then offset + MAX_CHUNK else |bytes|;
        (if end == |bytes| then Exhausted else Snapshot(id, bytes, end), Some(bytes[offset..end]))
    case _ => (s, None)
  }

  function PublishedExport(s: ExportState, prepared: Option<seq<Byte>>): ExportState {
    match s
    case Preparing(id) => if prepared.Some? then Snapshot(id, prepared.value, 0) else ExportClosed
    case _ => s
  }

  function ExportRequest(s: ExportState): Option<nat> {
    match s
    case Preparing(id) => Some(id)
    case Snapshot(id, _, _) => Some(id)
    case _ => None
  }

  class ExportHandle {
    var state: ExportState

    constructor ()
      ensures state == Idle
    {
      state := Idle;
    }

    method Prepare(request: nat) returns (ok: bool)
      modifies this
      ensures ExportBegun(old(state), request) == if ok then Some(state) else None
      ensures !ok ==> state == old(state)
    {
      ok := state.Idle?;
      if ok {
        state := Preparing(request);
      }
    }

    method ReadChunk() returns (chunk: Option<seq<Byte>>)
      requires state.Snapshot? ==> state.offset <= |state.bytes|
      modifies this
      ensures (state, chunk) == ChunkRead(old(state))
    {
      if state == Exhausted {
        return Some([]);
      }
      if !state.Snapshot? {
        return None;
      }
      var bytes, offset := state.bytes, state.offset;
      var end := if offset + MAX_CHUNK < |bytes| then offset + MAX_CHUNK else |bytes|;
      chunk := Some(bytes[offset..end]);
      state := state.(offset := end);
      if end == |bytes| {
        state := Exhausted;
      }
    }

    method Publish(prepared: Option<seq<Byte>>) returns (ok: bool)
      modifies this
      ensures state == PublishedExport(old(state), prepared) && ok == old(state).Preparing?
    {
      ok := state.Preparing?;
      if ok {
        match prepared
        case Some(bytes) => state := Snapshot(state.id, bytes, 0);
        case None => state := ExportClosed;
      }
    }

    method CancelRequest(request: nat)
      modifies this
      ensures state == if ExportRequest(old(state)) == Some(request) then ExportClosed else old(state)
    {
      if ExportRequest(state) == Some(request) {
        state := ExportClosed;
      }
    }
  }

  // ---- Serializing within a limit -------------------------------------------------------

  /** The serializer hands its output over in pieces and gives up at the first one refused. */
  method WriteBounded(pieces: seq<seq<Byte>>, limit: nat) returns (output: Option<seq<Byte>>)
    ensures output == if |Flatten(pieces)| <= limit then Some(Flatten(pieces)) else None
  {
    var bytes := [];
    for i := 0 to |pieces|
      invariant bytes == Flatten(pieces[..i]) && |bytes| <= limit
    {
      assert pieces[..i + 1][..i] == pieces[..i];
      if |pieces[i]| > limit - |bytes| {
        FlattenGrows(pieces, i + 1);
        return None;
      }
      bytes := bytes + pieces[i];
    }
    assert pieces[..|pieces|] == pieces;
    output := Some(bytes);
  }

  lemma {:induction false} FlattenGrows(pieces: seq<seq<Byte>>, i: nat)
    requires i <= |pieces|
    ensures |Flatten(pieces[..i])| <= |Flatten(pieces)|
    decreases |pieces|
  {
    if i < |pieces| {
      assert pieces[..|pieces| - 1][..i] == pieces[..i];
      FlattenGrows(pieces[..|pieces| - 1], i);
    } else {
      assert pieces[..i] == pieces;
    }
  }

  // ---- A resource with its worker -------------------------------------------------------

  datatype Stage = Queued | Running | Done

  /** What the worker holds of a resource: it keeps the resource alive as the handle does. */
  datatype Job =
    | NoJob
    | ReviewJob(request: nat, stage: Stage, canceled: bool, bytes: seq<Byte>, prepared: Option<Payload>)
    | CommitJob(request: nat, stage: Stage, canceled: bool, payload: Payload)
    | ExportJob(request: nat, stage: Stage, canceled: bool, output: Option<seq<Byte>>)

  /** Beside its state an import records what went in and what was committed, an export the
      published snapshot and what came out. */
  datatype Body =
    | Import(importing: ImportState, expected: nat, received: seq<Byte>, committed: seq<Payload>)
    | Export(exporting: ExportState, snapshot: Option<seq<Byte>>, delivered: seq<Byte>)

  datatype Resource = Resource(generation: nat, handle: bool, job: Job, body: Body)

  predicate Alive(r: Resource) {
    r.handle || r.job != NoJob
  }

  /** What callers and the worker do to one resource. */
  datatype Call =
    | Append(chunk: seq<Byte>)
    | Review(request: nat)
    | Commit(request: nat)
    | PrepareExport(request: nat)
    | ReadChunk
    | StartJob
    | ExecuteJob(ok: bool, pieces: seq<seq<Byte>>)
    | PublishJob
    | AbandonJob
    | CancelHandle
    | DropHandle
    | CancelId(request: nat)
    | CloseAll

  function Flagged(job: Job): Job {
    if job == NoJob then NoJob else job.(canceled := true)
  }

  function Closed(body: Body): Body {
    match body
    case Import(_, _, _, _) => body.(importing := ImportClosed)
    case Export(_, _, _) => body.(exporting := ExportClosed)
  }

  function RequestOf(body: Body): Option<nat> {
    match body
    case Import(state, _, _, _) => ImportRequest(state)
    case Export(state, _, _) => ExportRequest(state)
  }

  /** The calls that ask for a new request, with what they leave when it is admitted. */
  function Admitted(body: Body, call: Call): Option<(Body, Job)> {
    match (body, call)
    case (Import(state, _, _, _), Review(request)) =>
      var begun := ReviewBegun(state, request);
      if begun == None then None
      else Some((body.(importing := begun.value.0), ReviewJob(request, Queued, false, begun.value.1, None)))
    case (Import(state, _, _, _), Commit(request)) =>
      var begun := CommitBegun(state, request);
      if begun == None then None
      else Some((body.(importing := begun.value.0), CommitJob(request, Queued, false, begun.value.1)))
    case (Export(state, _, _), PrepareExport(request)) =>
      var begun := ExportBegun(state, request);
      if begun == None then None
      else Some((body.(exporting := begun.value), ExportJob(request, Queued, false, None)))
    case _ => None
  }

  /** Core does what a running job asks for. */
  function Executed(body: Body, job: Job, ok: bool, pieces: seq<seq<Byte>>): (Body, Job) {
    match (body, job)
    case (Import(_, _, _, _), ReviewJob(request, Running, canceled, bytes, _)) =>
      (body, ReviewJob(request, Done, canceled, [], if ok then Some(Payload(bytes)) else None))
    case (Import(_, _, _, committed), CommitJob(request, Running, canceled, payload)) =>
      (body.(committed := if ok then committed + [payload] else committed), CommitJob(request, Done, canceled, payload))
    case (Export(_, _, _), ExportJob(request, Running, canceled, _)) =>
      var output := Flatten(pieces);
      (body, ExportJob(request, Done, canceled, if ok && |output| <= MAX_EXPORT then Some(output) else None))
    case _ => (body, job)
  }

  /** The result of a job is published, given consent and no cancellation, and the job is over. */
  function Ended(body: Body, job: Job, go: bool): (Body, Job) {
    match (body, job)
    case (Import(state, _, _, _), ReviewJob(_, Done, canceled, _, prepared)) =>
      (body.(importing := if go && !canceled then PublishedReview(state, prepared) else state), NoJob)
    case (Import(_, _, _, _), CommitJob(_, Done, _, _)) => (body, NoJob)
    case (Export(state, snapshot, _), ExportJob(_, Done, canceled, output)) =>
      var next := if go && !canceled then PublishedExport(state, output) else state;
      (body.(exporting := next, snapshot := if next.Snapshot? then output else snapshot), NoJob)
    case _ => (body, job)
  }

  /** Waiting jobs start, given consent and no cancellation, or are dropped. */
  function Started(job: Job, go: bool): Job {
    if job == NoJob || job.stage != Queued then job
    else if go && !job.canceled then job.(stage := Running)
    else NoJob
  }

  function Read(body: Body): Body {
    match body
    case Import(_, _, _, _) => body
    case Export(state, _, delivered) =>
      var (next, chunk) := ChunkRead(state);
      body.(exporting := next, delivered := if chunk.Some? then delivered + chunk.value else delivered)
  }

  function Fed(body: Body, chunk: seq<Byte>): Body {
    match body
    case Export(_, _, _) => body
    case Import(state, _, received, _) =>
      var (next, error) := Appended(state, chunk);
      body.(importing := next, received := if error == None then received + chunk else received)
  }

  /** One call on one resource; `go` is the authority's consent. */
  function Touched(r: Resource, call: Call, go: bool): Resource {
    match call
    case Append(chunk) => if go && r.handle then r.(body := Fed(r.body, chunk)) else r
    case ReadChunk => if go && r.handle then r.(body := Read(r.body)) else r
    case StartJob => r.(job := Started(r.job, go))
    case ExecuteJob(ok, pieces) =>
      var (body, job) := Executed(r.body, r.job, ok, pieces);
      r.(body := body, job := job)
    case PublishJob =>
      var (body, job) := Ended(r.body, r.job, go);
      r.(body := body, job := job)
    case AbandonJob => r.(job := if r.job != NoJob && r.job.stage == Queued then NoJob else r.job)
    case CancelHandle => r.(job := if RequestOf(r.body).Some? then Flagged(r.job) else r.job, body := Closed(r.body))
    case DropHandle =>
      r.(handle := false, job := if RequestOf(r.body).Some? then Flagged(r.job) else r.job, body := Closed(r.body))
    case CancelId(request) =>
      r.(job := if r.job != NoJob && r.job.request == request then Flagged(r.job) else r.job,
         body := if RequestOf(r.body) == Some(request) then Closed(r.body) else r.body)
    case CloseAll => r.(job := Flagged(r.job), body := Closed(r.body))
    case _ =>
      var admitted := Admitted(r.body, call);
      if go && r.handle && admitted.Some? then r.(body := admitted.value.0, job := admitted.value.1) else r
  }

  // ---- What one resource keeps ----------------------------------------------------------

  ghost predicate ImportStateOk(body: Body, job: Job)
    requires body.Import?
  {
    match body.importing
    case Receiving(bytes, expected) =>
      bytes == body.received && expected == body.expected && |bytes| <= expected && job == NoJob && body.committed == []
    case Reviewing(id) =>
      && |body.received| == body.expected && body.committed == []
      && (job == NoJob || (job.ReviewJob? && job.request == id))
    case Reviewed(_, payload) =>
      |body.received| == body.expected && payload == Payload(body.received) && job == NoJob && body.committed == []
    case Committing(id) => job == NoJob || (job.CommitJob? && job.request == id)
    case ImportClosed => job == NoJob || job.canceled
  }

  ghost predicate ImportJobOk(body: Body, job: Job)
    requires body.Import?
  {
    match job
    case NoJob => true
    case ReviewJob(_, stage, _, bytes, prepared) =>
      && |body.received| == body.expected && body.committed == []
      && (stage != Done ==> bytes == body.received)
      && (prepared.Some? ==> stage == Done && prepared.value == Payload(body.received))
    case CommitJob(_, stage, _, payload) =>
      && |body.received| == body.expected && payload == Payload(body.received)
      && (stage != Done ==> body.committed == [])
      && (body.importing.Committing? || body.importing == ImportClosed)
    case ExportJob(_, _, _, _) => false
  }

  ghost predicate ExportStateOk(body: Body, job: Job)
    requires body.Export?
  {
    match body.exporting
    case Idle => body.snapshot == None && job == NoJob
    case Preparing(id) => body.snapshot == None && (job == NoJob || (job.ExportJob? && job.request == id))
    case Snapshot(_, bytes, offset) =>
      && offset <= |bytes| && body.snapshot == Some(bytes) && body.delivered == bytes[..offset]
      && (offset == |bytes| ==> bytes == [])
    case Exhausted => body.snapshot == Some(body.delivered)
    case ExportClosed => job == NoJob || job.canceled
  }

  ghost predicate ExportJobOk(body: Body, job: Job)
    requires body.Export?
  {
    && (job == NoJob || job.ExportJob?)
    && (job.ExportJob? ==>
          && (body.exporting.Preparing? || body.exporting == ExportClosed) && body.snapshot == None
          && (job.output.Some? ==> |job.output.value| <= MAX_EXPORT))
  }

  ghost predicate BodyOk(body: Body, job: Job) {
    match body
    case Import(_, expected, received, committed) =>
      && ImportStateOk(body, job) && ImportJobOk(body, job)
      && |committed| <= 1 && (committed != [] ==> |received| == expected && committed[0] == Payload(received))
    case Export(_, snapshot, delivered) =>
      && ExportStateOk(body, job) && ExportJobOk(body, job)
      && (snapshot == None ==> delivered == [])
      && (snapshot.Some? ==> delivered <= snapshot.value && |snapshot.value| <= MAX_EXPORT)
  }

  lemma FeedKeeps(body: Body, job: Job, chunk: seq<Byte>)
    requires BodyOk(body, job)
    ensures BodyOk(Fed(body, chunk), job)
  {
  }

  lemma ReadKeeps(body: Body, job: Job)
    requires BodyOk(body, job)
    ensures BodyOk(Read(body), job)
  {
    if body.Export? {
      assert body.delivered + [] == body.delivered;
      if body.exporting.Snapshot? {
        var bytes, offset := body.exporting.bytes, body.exporting.offset;
        var end := if offset + MAX_CHUNK < |bytes| then offset + MAX_CHUNK else |bytes|;
        assert bytes[..offset] + bytes[offset..end] == bytes[..end];
        assert bytes[..|bytes|] == bytes;
      }
    }
  }

  lemma ExecuteKeeps(body: Body, job: Job, ok: bool, pieces: seq<seq<Byte>>)
    requires BodyOk(body, job)
    ensures var (b, j) := Executed(body, job, ok, pieces);
            BodyOk(b, j) && b.Import? == body.Import? && (j == NoJob <==> job == NoJob)
  {
  }

  lemma EndKeeps(body: Body, job: Job, go: bool)
    requires BodyOk(body, job)
    ensures var (b, j) := Ended(body, job, go);
            BodyOk(b, j) && b.Import? == body.Import? && (job == NoJob ==> j == NoJob)
  {
  }

  lemma AdmitKeeps(body: Body, job: Job, call: Call)
    requires BodyOk(body, job) && Admitted(body, call).Some?
    ensures var (b, j) := Admitted(body, call).value; BodyOk(b, j) && b.Import? == body.Import?
  {
  }

  lemma StartKeeps(body: Body, job: Job, go: bool)
    requires BodyOk(body, job)
    ensures BodyOk(body, Started(job, go)) && BodyOk(body, Flagged(job)) && BodyOk(body, NoJob)
  {
  }

  lemma CloseKeeps(body: Body, job: Job)
    requires BodyOk(body, job)
    ensures BodyOk(Closed(body), NoJob) && BodyOk(Closed(body), Flagged(job)) && Closed(body).Import? == body.Import?
    ensures RequestOf(body) == None ==> BodyOk(Closed(body), job)
    ensures RequestOf(body).Some? && job != NoJob ==> job.request == RequestOf(body).value
  {
  }

  lemma TouchKeeps(r: Resource, call: Call, go: bool)
    requires BodyOk(r.body, r.job)
    ensures var u := Touched(r, call, go);
            && BodyOk(u.body, u.job) && (Alive(u) ==> Alive(r))
            && u.body.Import? == r.body.Import? && u.generation == r.generation
  {
    hide BodyOk, Executed, Ended, Admitted, Closed, Read, Fed;
    StartKeeps(r.body, r.job, go);
    CloseKeeps(r.body, r.job);
    match call
    case Append(chunk) => FeedKeeps(r.body, r.job, chunk); FeedFrame(r.body, chunk);
    case ReadChunk => ReadKeeps(r.body, r.job); FeedFrame(r.body, []);
    case ExecuteJob(ok, pieces) => ExecuteKeeps(r.body, r.job, ok, pieces);
    case PublishJob => EndKeeps(r.body, r.job, go);
    case Review(_) => if Admitted(r.body, call).Some? { AdmitKeeps(r.body, r.job, call); }
    case Commit(_) => if Admitted(r.body, call).Some? { AdmitKeeps(r.body, r.job, call); }
    case PrepareExport(_) => if Admitted(r.body, call).Some? { AdmitKeeps(r.body, r.job, call); }
    case _ =>
  }

  lemma FeedFrame(body: Body, chunk: seq<Byte>)
    ensures Fed(body, chunk).Import? == body.Import? && Read(body).Import? == body.Import?
  {
  }

  // ---- The session ----------------------------------------------------------------------

  /** The two lists of weak references, the generation, and every resource there ever was. */
  datatype Session = Session(generation: nat, last: nat, imports: seq<nat>, exports: seq<nat>, resources: seq<Resource>)

  const START := Session(1, 0, [], [], [])

  datatype Event =
    | BeginImport(count: nat, accepted: bool)
    | BeginExport(accepted: bool)
    | On(id: nat, call: Call, accepted: bool)
    | CancelRequest(request: nat)
    | Revoke

  /** The references whose resource is still alive. */
  function Retained(ids: seq<nat>, resources: seq<Resource>): seq<nat> {
    if ids == [] then []
    else
      var rest := Retained(ids[..|ids| - 1], resources);
      var id := ids[|ids| - 1];
      if id < |resources| && Alive(resources[id]) then rest + [id] else rest
  }

  function Began(s: Session, body: Body): Session {
    var imports, exports := Retained(s.imports, s.resources), Retained(s.exports, s.resources);
    if imports != [] || exports != [] then s.(imports := imports, exports := exports)
    else s.(imports := if body.Import? then [|s.resources|] else [],
            exports := if body.Import? then [] else [|s.resources|],
            resources := s.resources + [Resource(s.generation, true, NoJob, body)])
  }

  /** A request that has been used is not admitted again. */
  predicate Stale(s: Session, call: Call) {
    (call.Review? || call.Commit? || call.PrepareExport?) && call.request <= s.last
  }

  function EveryTouched(resources: seq<Resource>, call: Call): seq<Resource> {
    seq(|resources|, i requires 0 <= i < |resources| => Touched(resources[i], call, true))
  }

  function Step(s: Session, e: Event): Session {
    match e
    case BeginImport(count, accepted) =>
      if !accepted || count == 0 || count > MAX_IMPORT then s
      else Began(s, Import(Receiving([], count), count, [], []))
    case BeginExport(accepted) =>
      if !accepted then s else Began(s, Export(Idle, None, []))
    case On(id, call, accepted) =>
      if id >= |s.resources| || Stale(s, call) || call.CancelId? || call.CloseAll? then s
      else
        var r := s.resources[id];
        var next := Touched(r, call, accepted && r.generation == s.generation);
        s.(resources := s.resources[id := next],
           last := if (call.Review? || call.Commit? || call.PrepareExport?) && next != r then call.request else s.last)
    case CancelRequest(request) => s.(resources := EveryTouched(s.resources, CancelId(request)))
    case Revoke => s.(generation := s.generation + 1, resources := EveryTouched(s.resources, CloseAll))
  }

  function Run(events: seq<Event>): Session {
    if events == [] then START else Step(Run(events[..|events| - 1]), events[|events| - 1])
  }

  // ---- What the session keeps -----------------------------------------------------------

  /** Whatever is alive is listed, so the next one cannot begin. */
  ghost predicate Listed(s: Session) {
    forall id :: 0 <= id < |s.resources| && Alive(s.resources[id]) ==>
      id in if s.resources[id].body.Import? then s.imports else s.exports
  }

  ghost predicate OneAlive(s: Session) {
    forall i, j :: 0 <= i < |s.resources| && 0 <= j < |s.resources| && Alive(s.resources[i]) && Alive(s.resources[j]) ==> i == j
  }

  ghost predicate Inv(s: Session) {
    && Listed(s) && OneAlive(s)
    && forall id :: 0 <= id < |s.resources| ==> BodyOk(s.resources[id].body, s.resources[id].job)
  }

  lemma {:induction false} RetainedHas(ids: seq<nat>, resources: seq<Resource>, id: nat)
    ensures id in Retained(ids, resources) <==> id in ids && id < |resources| && Alive(resources[id])
  {
    if ids != [] {
      RetainedHas(ids[..|ids| - 1], resources, id);
      assert ids == ids[..|ids| - 1] + [ids[|ids| - 1]];
    }
  }

  lemma BeginKeeps(s: Session, body: Body)
    requires Inv(s) && BodyOk(body, NoJob)
    ensures Inv(Began(s, body))
  {
    hide BodyOk, Retained;
    var u := Began(s, body);
    forall id | 0 <= id < |s.resources| && Alive(s.resources[id])
      ensures id in if s.resources[id].body.Import? then Retained(s.imports, s.resources) else Retained(s.exports, s.resources)
    {
      RetainedHas(s.imports, s.resources, id);
      RetainedHas(s.exports, s.resources, id);
    }
    forall id | 0 <= id < |u.resources| ensures BodyOk(u.resources[id].body, u.resources[id].job) {
      assert id < |s.resources| ==> u.resources[id] == s.resources[id];
    }
  }

  /** Touching resources revives none of them. */
  lemma TouchedAllKeeps(s: Session, u: Session)
    requires Inv(s) && u.imports == s.imports && u.exports == s.exports && |u.resources| == |s.resources|
    requires forall id :: 0 <= id < |s.resources| ==>
               && (Alive(u.resources[id]) ==> Alive(s.resources[id])) && u.resources[id].body.Import? == s.resources[id].body.Import?
               && BodyOk(u.resources[id].body, u.resources[id].job)
    ensures Inv(u)
  {
    hide BodyOk, Alive;
  }

  lemma EveryKeeps(s: Session, call: Call, u: Session)
    requires Inv(s) && u.imports == s.imports && u.exports == s.exports && u.resources == EveryTouched(s.resources, call)
    ensures Inv(u)
  {
    hide BodyOk, Touched, Alive;
    forall id | 0 <= id < |s.resources|
      ensures && (Alive(u.resources[id]) ==> Alive(s.resources[id])) && u.resources[id].body.Import? == s.resources[id].body.Import?
              && BodyOk(u.resources[id].body, u.resources[id].job)
    {
      TouchKeeps(s.resources[id], call, true);
    }
    TouchedAllKeeps(s, u);
  }

  lemma StepKeeps(s: Session, e: Event)
    requires Inv(s)
    ensures Inv(Step(s, e))
  {
    hide BodyOk, Touched, Alive, Retained, Began, EveryTouched;
    var u := Step(s, e);
    match e
    case BeginImport(count, _) => NewImportOk(count); BeginKeeps(s, Import(Receiving([], count), count, [], []));
    case BeginExport(_) => NewExportOk(); BeginKeeps(s, Export(Idle, None, []));
    case On(id, call, accepted) =>
      if u != s {
        TouchKeeps(s.resources[id], call, accepted && s.resources[id].generation == s.generation);
        TouchedAllKeeps(s, u);
      }
    case CancelRequest(request) => EveryKeeps(s, CancelId(request), u);
    case Revoke => EveryKeeps(s, CloseAll, u);
  }

  lemma NewImportOk(count: nat)
    ensures BodyOk(Import(Receiving([], count), count, [], []), NoJob)
  {
  }

  lemma NewExportOk()
    ensures BodyOk(Export(Idle, None, []), NoJob)
  {
  }

  lemma {:induction false} Reachable(events: seq<Event>)
    ensures Inv(Run(events))
  {
    if events != [] {
      Reachable(events[..|events| - 1]);
      StepKeeps(Run(events[..|events| - 1]), events[|events| - 1]);
    }
  }

  // ---- What it means --------------------------------------------------------------------

  /** No two imports or exports are ever alive together, not even while a canceled worker still
      holds one across a revocation. */
  lemma AtMostOneAlive(events: seq<Event>, i: nat, j: nat)
    requires i < j < |Run(events).resources|
    ensures var a, b := Run(events).resources[i], Run(events).resources[j];
            !((a.handle || a.job != NoJob) && (b.handle || b.job != NoJob))
  {
    Reachable(events);
  }

  /** A handle commits at most once, and only what was reviewed from exactly the declared bytes. */
  lemma CommittedOnceAsReviewed(events: seq<Event>, id: nat)
    requires id < |Run(events).resources| && Run(events).resources[id].body.Import?
    ensures var body := Run(events).resources[id].body;
            && |body.committed| <= 1
            && (body.committed != [] ==> |body.received| == body.expected && body.committed == [Payload(body.received)])
  {
    Reachable(events);
  }

  /** The chunks of an export are the beginning of one snapshot; an empty chunk says that all of
      it was delivered. */
  lemma ExportIsOneSnapshot(events: seq<Event>, id: nat)
    requires id < |Run(events).resources| && Run(events).resources[id].body.Export?
    ensures var body := Run(events).resources[id].body;
            && (body.delivered != [] ==> body.snapshot.Some?)
            && (body.snapshot.Some? ==> body.delivered <= body.snapshot.value && |body.snapshot.value| <= 16777216)
            && (ChunkRead(body.exporting).1 == Some([]) ==> body.snapshot == Some(body.delivered))
  {
    Reachable(events);
    var body := Run(events).resources[id].body;
    if body.exporting.Snapshot? {
      assert body.exporting.bytes[..|body.exporting.bytes|] == body.exporting.bytes;
    }
  }

  /** The snapshot of an export, once published, never changes. */
  lemma SnapshotIsImmutable(events: seq<Event>, e: Event, id: nat)
    requires id < |Run(events).resources| && Run(events).resources[id].body.Export?
    requires Run(events).resources[id].body.snapshot.Some?
    ensures var after := Step(Run(events), e).resources;
            id < |after| && after[id].body.Export? && after[id].body.snapshot == Run(events).resources[id].body.snapshot
  {
    hide BodyOk, Retained, Read, Fed, Admitted, Executed, Ended;
    Reachable(events);
    var r := Run(events).resources[id];
    forall call, go ensures Touched(r, call, go).body.Export? && Touched(r, call, go).body.snapshot == r.body.snapshot {
      TouchKeepsSnapshot(r, call, go);
    }
  }

  lemma TouchKeepsSnapshot(r: Resource, call: Call, go: bool)
    requires BodyOk(r.body, r.job) && r.body.Export? && r.body.snapshot.Some?
    ensures Touched(r, call, go).body.Export? && Touched(r, call, go).body.snapshot == r.body.snapshot
  {
  }

  /** Revoked before its work started: an old generation, closed, with nothing committed. */
  ghost predicate Stopped(s: Session, id: nat) {
    && id < |s.resources|
    && var r := s.resources[id];
       && r.generation < s.generation && (r.job == NoJob || r.job.stage == Queued)
       && r.body.Import? && r.body.importing == ImportClosed && r.body.committed == []
  }

  lemma StoppedTouch(r: Resource, call: Call)
    requires (r.job == NoJob || r.job.stage == Queued) && r.body.Import? && r.body.importing == ImportClosed && r.body.committed == []
    ensures var u := Touched(r, call, false);
            && u.generation == r.generation && (u.job == NoJob || u.job.stage == Queued)
            && u.body.Import? && u.body.importing == ImportClosed && u.body.committed == []
    ensures call.CancelId? || call.CloseAll? ==> Touched(r, call, true) == Touched(r, call, false)
  {
  }

  lemma StoppedStays(s: Session, id: nat, e: Event)
    requires Stopped(s, id)
    ensures Stopped(Step(s, e), id)
  {
    hide Touched, Retained;
    match e
    case On(_, call, _) => StoppedTouch(s.resources[id], call);
    case CancelRequest(request) => StoppedTouch(s.resources[id], CancelId(request));
    case Revoke => StoppedTouch(s.resources[id], CloseAll);
    case _ =>
  }

  /** A commit that is still queued when the session is revoked never reaches Core. */
  lemma {:induction false} RevokedCommitNeverRuns(events: seq<Event>, id: nat, more: seq<Event>)
    requires id < |Run(events).resources| && Run(events).resources[id].generation <= Run(events).generation
    requires Run(events).resources[id].job.CommitJob? && Run(events).resources[id].job.stage == Queued
    ensures Stopped(Run(events + [Revoke] + more), id)
    decreases |more|
  {
    hide Step;
    if more == [] {
      Reachable(events);
      assert (events + [Revoke] + more)[..|events|] == events && (events + [Revoke] + more)[|events|] == Revoke;
      RevokeStops(Run(events), id);
    } else {
      var less := more[..|more| - 1];
      assert (events + [Revoke] + more)[..|events| + |more|] == events + [Revoke] + less;
      RevokedCommitNeverRuns(events, id, less);
      StoppedStays(Run(events + [Revoke] + less), id, more[|more| - 1]);
    }
  }

  lemma RevokeStops(s: Session, id: nat)
    requires Inv(s) && id < |s.resources| && s.resources[id].generation <= s.generation
    requires s.resources[id].job.CommitJob? && s.resources[id].job.stage == Queued
    ensures Stopped(Step(s, Revoke), id)
  {
    assert BodyOk(s.resources[id].body, s.resources[id].job);
  }
}
