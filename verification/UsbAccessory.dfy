/** The USB accessory stream: one reader per attachment, whose incoming side is lent to one
    session after another. Bytes are conserved across hand-overs and the end of the stream is
    never reported early.
 */
module UsbAccessory {
  import opened Common

  const READ_BUFFER_BYTES := 16 * 1024
  const READ_AHEAD_CHUNKS := 16

  // ---- One attachment -------------------------------------------------------------------

  /** The reader thread: reading; past storing `ended`; returned, its sender dropped. */
  datatype Reader = Reading | Ended | Gone

  /** The link, its channel and the incoming side, wherever that is lent. `sent` and `delivered`
      record what the reader queued and what sessions received. */
  datatype Link = Link(
    reader: Reader, queue: seq<seq<Byte>>, chunk: seq<Byte>, offset: nat, parked: bool,
    sent: seq<Byte>, delivered: seq<Byte>)

  datatype Poll = Pending | Ready(bytes: seq<Byte>)

  const FreshLink := Link(Reading, [], [], 0, true, [], [])

  function Joined(chunks: seq<seq<Byte>>): seq<Byte> {
    if chunks == [] then [] else chunks[0] + Joined(chunks[1..])
  }

  ghost predicate LinkValid(l: Link) {
    && l.offset <= |l.chunk|
    && |l.queue| <= READ_AHEAD_CHUNKS
    && (forall i :: 0 <= i < |l.queue| ==> 0 < |l.queue[i]| <= READ_BUFFER_BYTES)
    && l.sent == l.delivered + (l.chunk[l.offset..] + Joined(l.queue))
  }

  /** The next chunk, when the current one is used up and one is queued. */
  function Refilled(l: Link): Link {
    if l.offset == |l.chunk| && l.queue != [] then
      l.(chunk := l.queue[0], offset := 0, queue := l.queue[1..])
    else l
  }

  /** The next `count` bytes of the current chunk handed to the session. */
  function HandedOut(l: Link, count: nat): Link
    requires l.offset + count <= |l.chunk|
  {
    l.(offset := l.offset + count, delivered := l.delivered + l.chunk[l.offset..l.offset + count])
  }

  function Available(l: Link, room: nat): nat
    requires l.offset <= |l.chunk|
  {
    if room < |l.chunk| - l.offset then room else |l.chunk| - l.offset
  }

  /** `poll_read` with room for `room` bytes. */
  function PollRead(l: Link, room: nat): (Link, Poll)
    requires l.offset <= |l.chunk|
  {
    if l.offset == |l.chunk| && l.queue == [] then
      (l, if l.reader == Gone then Ready([]) else Pending)
    else
      var l1 := Refilled(l);
      var count := Available(l1, room);
      (HandedOut(l1, count), Ready(l1.chunk[l1.offset..l1.offset + count]))
  }

  /** One result of the posted read: nothing read ends the reader, bytes are queued. A full
      queue blocks the reader until a session reads. */
  function DeviceRead(l: Link, bytes: seq<Byte>): Link {
    if l.reader != Reading || |bytes| > READ_BUFFER_BYTES then l
    else if bytes == [] then l.(reader := Ended)
    else if |l.queue| >= READ_AHEAD_CHUNKS then l
    else l.(queue := l.queue + [bytes], sent := l.sent + bytes)
  }

  lemma {:induction false} JoinedSnoc(chunks: seq<seq<Byte>>, last: seq<Byte>)
    ensures Joined(chunks + [last]) == Joined(chunks) + last
  {
    if chunks == [] {
      assert [last][1..] == [] && chunks + [last] == [last];
    } else {
      assert (chunks + [last])[1..] == chunks[1..] + [last];
      JoinedSnoc(chunks[1..], last);
    }
  }

  lemma RefilledKeeps(l: Link)
    requires LinkValid(l)
    ensures LinkValid(Refilled(l))
    ensures l.queue != [] ==> Refilled(l).offset < |Refilled(l).chunk|
  {
    if l.offset == |l.chunk| && l.queue != [] {
      assert l.chunk[l.offset..] == [];
      assert l.queue[0][0..] == l.queue[0];
    }
  }

  lemma HandedOutKeeps(l: Link, count: nat)
    requires LinkValid(l) && l.offset + count <= |l.chunk|
    ensures LinkValid(HandedOut(l, count))
  {
    var bytes, rest, queued := l.chunk[l.offset..l.offset + count], l.chunk[l.offset + count..], Joined(l.queue);
    assert l.chunk[l.offset..] == bytes + rest;
    assert l.delivered + ((bytes + rest) + queued) == (l.delivered + bytes) + (rest + queued);
  }

  lemma PollReadKeeps(l: Link, room: nat)
    requires LinkValid(l)
    ensures LinkValid(PollRead(l, room).0)
    ensures PollRead(l, room).1.Ready? ==>
              PollRead(l, room).0.delivered == l.delivered + PollRead(l, room).1.bytes
  {
    if l.offset < |l.chunk| || l.queue != [] {
      RefilledKeeps(l);
      HandedOutKeeps(Refilled(l), Available(Refilled(l), room));
    }
  }

  /** With room in the buffer, a poll hands out a byte exactly when one is left to deliver. */
  lemma PollReadProgress(l: Link, room: nat)
    requires LinkValid(l) && room > 0
    ensures l.delivered == l.sent <==> l.offset == |l.chunk| && l.queue == []
    ensures l.delivered == l.sent ==> PollRead(l, room).1 == if l.reader == Gone then Ready([]) else Pending
    ensures l.delivered != l.sent ==> PollRead(l, room).1.Ready? && PollRead(l, room).1.bytes != []
  {
    assert |l.sent| == |l.delivered| + |l.chunk[l.offset..]| + |Joined(l.queue)|;
    if l.queue != [] {
      assert Joined(l.queue) == l.queue[0] + Joined(l.queue[1..]);
      RefilledKeeps(l);
    } else if l.offset == |l.chunk| {
      assert l.chunk[l.offset..] == [];
    }
  }

  lemma DeviceReadKeeps(l: Link, bytes: seq<Byte>)
    requires LinkValid(l)
    ensures LinkValid(DeviceRead(l, bytes))
  {
    JoinedSnoc(l.queue, bytes);
  }

  // ---- Sessions sharing attachments -----------------------------------------------------

  /** A session between choosing its link and taking the incoming side, then holding it. */
  datatype Session = Choosing(link: nat) | Live(link: nat)

  datatype World = World(links: seq<Link>, current: int, sessions: map<nat, Session>)

  datatype Event =
    | Choose(session: nat)
    | Take(session: nat)
    | Read(session: nat, room: nat)
    | Drop(session: nat)
    | FromDevice(link: nat, bytes: seq<Byte>)
    | LoseDevice(link: nat)
    | ReaderReturns(link: nat)

  const Start := World([], -1, map[])

  /** Every interleaving of sessions and readers; an event that cannot happen changes nothing. */
  function Step(w: World, e: Event): World
    requires WellTyped(w)
  {
    match e
    case Choose(s) =>
      if s in w.sessions then w
      else if w.current >= 0 && w.links[w.current].reader == Reading then
        w.(sessions := w.sessions[s := Choosing(w.current)])
      else
        World(w.links + [FreshLink], |w.links|, w.sessions[s := Choosing(|w.links|)])
    case Take(s) =>
      if s !in w.sessions || !w.sessions[s].Choosing? then w
      else
        var i := w.sessions[s].link;
        if !w.links[i].parked then w.(sessions := w.sessions - {s})
        else World(w.links[i := w.links[i].(parked := false)], w.current, w.sessions[s := Live(i)])
    case Read(s, room) =>
      if s !in w.sessions || !w.sessions[s].Live? then w
      else
        var i := w.sessions[s].link;
        w.(links := w.links[i := PollRead(w.links[i], room).0])
    case Drop(s) =>
      if s !in w.sessions || !w.sessions[s].Live? then w
      else
        var i := w.sessions[s].link;
        w.(links := w.links[i := w.links[i].(parked := true)], sessions := w.sessions - {s})
    case FromDevice(i, bytes) =>
      if i >= |w.links| then w else w.(links := w.links[i := DeviceRead(w.links[i], bytes)])
    case LoseDevice(i) =>
      if i >= |w.links| || w.links[i].reader != Reading then w
      else w.(links := w.links[i := w.links[i].(reader := Ended)])
    case ReaderReturns(i) =>
      if i >= |w.links| || w.links[i].reader != Ended then w
      else w.(links := w.links[i := w.links[i].(reader := Gone)])
  }

  ghost predicate WellTyped(w: World) {
    && -1 <= w.current < |w.links|
    && (forall s :: s in w.sessions ==> w.sessions[s].link < |w.links|)
    && (forall i :: 0 <= i < |w.links| ==> w.links[i].offset <= |w.links[i].chunk|)
  }

  ghost predicate Holds(w: World, s: nat, i: nat) {
    s in w.sessions && w.sessions[s] == Live(i)
  }

  ghost predicate LinksValid(w: World) {
    && WellTyped(w)
    && w.current == |w.links| - 1
    && (forall i :: 0 <= i < |w.links| ==> LinkValid(w.links[i]))
    && (forall i :: 0 <= i < w.current ==> w.links[i].reader != Reading)
  }

  ghost predicate OneHolder(w: World) {
    && (forall s: nat, t: nat, i: nat :: Holds(w, s, i) && Holds(w, t, i) ==> s == t)
    && (forall s: nat, i: nat :: Holds(w, s, i) ==> i < |w.links| && !w.links[i].parked)
    && (forall i: nat :: i < |w.links| && !w.links[i].parked ==> exists s: nat :: Holds(w, s, i))
  }

  ghost predicate Inv(w: World) {
    LinksValid(w) && OneHolder(w)
  }

  lemma UpdatedLink(w: World, i: nat, l: Link, sessions: map<nat, Session>)
    requires LinksValid(w) && i < |w.links| && LinkValid(l)
    requires l.reader == Reading ==> w.links[i].reader == Reading
    requires forall s :: s in sessions ==> sessions[s].link < |w.links|
    ensures LinksValid(World(w.links[i := l], w.current, sessions))
  {
  }

  lemma ReadKeepsLinks(w: World, s: nat, room: nat)
    requires LinksValid(w)
    ensures LinksValid(Step(w, Read(s, room)))
  {
    if s in w.sessions && w.sessions[s].Live? {
      var i := w.sessions[s].link;
      PollReadKeeps(w.links[i], room);
      UpdatedLink(w, i, PollRead(w.links[i], room).0, w.sessions);
    }
  }

  lemma ChooseKeepsLinks(w: World, s: nat)
    requires LinksValid(w)
    ensures LinksValid(Step(w, Choose(s)))
  {
    assert LinkValid(FreshLink);
    var v := Step(w, Choose(s));
    assert forall i :: 0 <= i < |w.links| ==> v.links[i] == w.links[i];
  }

  lemma HandOverKeepsLinks(w: World, e: Event)
    requires LinksValid(w) && (e.Take? || e.Drop?)
    ensures LinksValid(Step(w, e))
  {
    match e
    case Take(s) =>
      if s in w.sessions && w.sessions[s].Choosing? {
        var i := w.sessions[s].link;
        UpdatedLink(w, i, w.links[i].(parked := false), w.sessions[s := Live(i)]);
      }
    case Drop(s) =>
      if s in w.sessions && w.sessions[s].Live? {
        var i := w.sessions[s].link;
        UpdatedLink(w, i, w.links[i].(parked := true), w.sessions - {s});
      }
  }

  lemma ReaderKeepsLinks(w: World, e: Event)
    requires LinksValid(w) && (e.FromDevice? || e.LoseDevice? || e.ReaderReturns?) && e.link < |w.links|
    ensures LinksValid(Step(w, e))
  {
    var l := w.links[e.link];
    match e
    case FromDevice(i, bytes) =>
      DeviceReadKeeps(l, bytes);
      UpdatedLink(w, i, DeviceRead(l, bytes), w.sessions);
    case LoseDevice(i) =>
      UpdatedLink(w, i, l.(reader := Ended), w.sessions);
    case ReaderReturns(i) =>
      UpdatedLink(w, i, l.(reader := Gone), w.sessions);
  }

  lemma StepKeepsLinks(w: World, e: Event)
    requires LinksValid(w)
    ensures LinksValid(Step(w, e))
  {
    match e
    case Read(s, room) => ReadKeepsLinks(w, s, room);
    case FromDevice(i, _) => if i < |w.links| { ReaderKeepsLinks(w, e); }
    case LoseDevice(i) => if i < |w.links| { ReaderKeepsLinks(w, e); }
    case ReaderReturns(i) => if i < |w.links| { ReaderKeepsLinks(w, e); }
    case Choose(s) => ChooseKeepsLinks(w, s);
    case _ => HandOverKeepsLinks(w, e);
  }

  lemma SameHolders(w: World, v: World)
    requires OneHolder(w) && |w.links| <= |v.links|
    requires forall s: nat, i: nat :: Holds(v, s, i) <==> Holds(w, s, i)
    requires forall i: nat :: i < |v.links| ==> v.links[i].parked == (i < |w.links| ==> w.links[i].parked)
    ensures OneHolder(v)
  {
    forall i: nat | i < |v.links| && !v.links[i].parked ensures exists s: nat :: Holds(v, s, i) {
      var s: nat :| Holds(w, s, i);
      assert Holds(v, s, i);
    }
  }

  lemma TakeKeepsHolder(w: World, s: nat)
    requires LinksValid(w) && OneHolder(w)
    ensures OneHolder(Step(w, Take(s)))
  {
    var v := Step(w, Take(s));
    if s in w.sessions && w.sessions[s].Choosing? && w.links[w.sessions[s].link].parked {
      var i := w.sessions[s].link;
      assert Holds(v, s, i);
      assert forall t: nat, j: nat :: Holds(v, t, j) <==> Holds(w, t, j) || (t == s && j == i);
      forall j: nat | j < |v.links| && !v.links[j].parked ensures exists t: nat :: Holds(v, t, j) {
        if j != i {
          var t: nat :| Holds(w, t, j);
          assert Holds(v, t, j);
        }
      }
    } else {
      SameHolders(w, v);
    }
  }

  lemma DropKeepsHolder(w: World, s: nat)
    requires LinksValid(w) && OneHolder(w)
    ensures OneHolder(Step(w, Drop(s)))
  {
    var v := Step(w, Drop(s));
    if s in w.sessions && w.sessions[s].Live? {
      var i := w.sessions[s].link;
      assert Holds(w, s, i);
      assert forall t: nat, j: nat :: Holds(v, t, j) <==> Holds(w, t, j) && t != s;
      forall j: nat | j < |v.links| && !v.links[j].parked ensures exists t: nat :: Holds(v, t, j) {
        var t: nat :| Holds(w, t, j);
        assert Holds(v, t, j);
      }
    } else {
      SameHolders(w, v);
    }
  }

  lemma ReaderKeepsHolder(w: World, e: Event)
    requires LinksValid(w) && OneHolder(w) && (e.FromDevice? || e.LoseDevice? || e.ReaderReturns?)
    ensures OneHolder(Step(w, e))
  {
    SameHolders(w, Step(w, e));
  }

  lemma StepKeepsHolder(w: World, e: Event)
    requires LinksValid(w) && OneHolder(w)
    ensures OneHolder(Step(w, e))
  {
    match e
    case Take(s) => TakeKeepsHolder(w, s);
    case Drop(s) => DropKeepsHolder(w, s);
    case Choose(s) => SameHolders(w, Step(w, e));
    case Read(s, room) => SameHolders(w, Step(w, e));
    case _ => ReaderKeepsHolder(w, e);
  }

  lemma StepKeepsInv(w: World, e: Event)
    requires Inv(w)
    ensures Inv(Step(w, e))
  {
    StepKeepsLinks(w, e);
    StepKeepsHolder(w, e);
  }

  // ---- Whole runs -----------------------------------------------------------------------

  ghost function Run(events: seq<Event>): (w: World)
    ensures Inv(w)
  {
    if events == [] then Start
    else
      var w := Run(events[..|events| - 1]);
      StepKeepsInv(w, events[|events| - 1]);
      Step(w, events[|events| - 1])
  }

  /** In every reachable state, on every attachment: what sessions received in order, then the
      unread rest of the current chunk, then the queued chunks, is everything the reader queued;
      and at most one session holds the incoming side. */
  lemma BytesAreConserved(events: seq<Event>, i: nat)
    requires i < |Run(events).links|
    ensures var l := Run(events).links[i];
            l.sent == l.delivered + (l.chunk[l.offset..] + Joined(l.queue))
    ensures forall s: nat, t: nat :: Holds(Run(events), s, i) && Holds(Run(events), t, i) ==> s == t
  {
    assert LinkValid(Run(events).links[i]);
  }

  /** What the bytes a session was handed are: the next ones in the order they were sent. */
  lemma ReadsContinue(events: seq<Event>, s: nat, room: nat)
    requires s in Run(events).sessions && Run(events).sessions[s].Live?
    ensures var l := Run(events).links[Run(events).sessions[s].link];
            var poll := PollRead(l, room).1;
            poll.Ready? ==> l.delivered + poll.bytes <= l.sent && |poll.bytes| <= room
  {
    var l := Run(events).links[Run(events).sessions[s].link];
    PollReadKeeps(l, room);
  }

  /** A live session's read into a non-empty buffer comes back empty only when the attachment's
      reader has returned and every byte it queued has been delivered; otherwise, whenever a
      byte is left, it delivers at least one. */
  lemma NoFalseEnd(events: seq<Event>, s: nat, room: nat)
    requires s in Run(events).sessions && Run(events).sessions[s].Live? && room > 0
    ensures var l := Run(events).links[Run(events).sessions[s].link];
            && (PollRead(l, room).1 == Ready([]) <==> l.reader == Gone && l.delivered == l.sent)
            && (PollRead(l, room).1 == Pending <==> l.reader != Gone && l.delivered == l.sent)
  {
    PollReadProgress(Run(events).links[Run(events).sessions[s].link], room);
  }

  /** The incoming side always waits on the link or is lent to a session, so the reader's send
      never fails while it lives, and a link without a session can be attached to. */
  lemma IncomingIsNeverLost(events: seq<Event>, i: nat)
    requires i < |Run(events).links|
    ensures Run(events).links[i].parked <==> !exists s: nat :: Holds(Run(events), s, i)
  {
  }

  /** A new attachment starts only once the reader of every earlier one has ended. */
  lemma OneReaderAtATime(events: seq<Event>, i: nat, j: nat)
    requires i < j < |Run(events).links|
    ensures Run(events).links[i].reader != Reading
  {
  }

  // ---- What an attachment is for --------------------------------------------------------

  lemma RunTwoMore(events: seq<Event>, a: Event, b: Event)
    ensures Inv(Run(events))
    ensures Inv(Step(Run(events), a))
    ensures Run(events + [a, b]) == Step(Step(Run(events), a), b)
  {
    hide Step, LinksValid, OneHolder;
    assert (events + [a, b])[..|events| + 1] == events + [a] && (events + [a])[..|events|] == events;
    StepKeepsInv(Run(events), a);
  }

  /** The state after a session attached: to the latest attachment while its reader reads, if no
      other session has the incoming side, and to a fresh one, with nothing in it, otherwise. */
  ghost predicate Attached(w: World, u: World, s: nat) {
    if w.links != [] && w.links[|w.links| - 1].reader == Reading
    then if w.links[|w.links| - 1].parked
         then && u.sessions == w.sessions[s := Live(|w.links| - 1)]
              && u.links == w.links[|w.links| - 1 := w.links[|w.links| - 1].(parked := false)]
         else u.sessions == w.sessions && u.links == w.links
    else && u.sessions == w.sessions[s := Live(|w.links|)]
         && u.links == w.links + [Link(Reading, [], [], 0, false, [], [])]
  }

  lemma AttachSteps(w: World, s: nat)
    requires LinksValid(w) && s !in w.sessions
    ensures WellTyped(Step(w, Choose(s))) && Attached(w, Step(Step(w, Choose(s)), Take(s)), s)
  {
    hide LinkValid;
    var n := |w.links|;
    var chosen := Step(w, Choose(s));
    var i := if w.links != [] && w.links[n - 1].reader == Reading then n - 1 else n;
    assert chosen.sessions == w.sessions[s := Choosing(i)];
    assert w.sessions[s := Choosing(i)] - {s} == w.sessions && w.sessions[s := Choosing(i)][s := Live(i)] == w.sessions[s := Live(i)];
    if i == n {
      assert (w.links + [FreshLink])[n := FreshLink.(parked := false)] == w.links + [FreshLink.(parked := false)];
    }
  }

  lemma AttachesExactly(events: seq<Event>, s: nat)
    requires s !in Run(events).sessions
    ensures Attached(Run(events), Run(events + [Choose(s), Take(s)]), s)
  {
    hide Step, Attached, OneHolder, LinksValid;
    RunTwoMore(events, Choose(s), Take(s));
    AttachSteps(Run(events), s);
  }

  lemma DropParks(w: World, s: nat, i: nat)
    requires Inv(w) && s in w.sessions && w.sessions[s] == Live(i)
    ensures !w.links[i].parked
    ensures Step(w, Drop(s)) == World(w.links[i := w.links[i].(parked := true)], w.current, w.sessions - {s})
  {
    hide LinkValid;
    assert Holds(w, s, i);
  }

  /** A session that ends leaves the incoming side, and what is in it, to the next. */
  lemma HandsOver(events: seq<Event>, s: nat, t: nat)
    requires var w := Run(events);
             w.links != [] && s in w.sessions && w.sessions[s] == Live(|w.links| - 1) && w.links[|w.links| - 1].reader == Reading
    requires t !in Run(events).sessions
    ensures var w, u := Run(events), Run(events + [Drop(s)] + [Choose(t), Take(t)]);
            && u.links == w.links && t in u.sessions && u.sessions[t] == Live(|w.links| - 1) && s !in u.sessions
  {
    hide Step, Inv;
    var w, dropped := Run(events), events + [Drop(s)];
    var n := |w.links| - 1;
    assert dropped[..|events|] == events;
    DropParks(w, s, n);
    AttachesExactly(dropped, t);
    assert w.links[n := w.links[n].(parked := true)][n := w.links[n].(parked := true).(parked := false)] == w.links;
  }

  /** A read hands out as much of the current chunk as there is room for. */
  lemma ReadAmount(l: Link, room: nat)
    requires LinkValid(l) && (l.offset < |l.chunk| || l.queue != [])
    ensures var chunk := if l.offset < |l.chunk| then l.chunk[l.offset..] else l.queue[0];
            PollRead(l, room).1 == Ready(if room < |chunk| then chunk[..room] else chunk)
  {
    var chunk := if l.offset < |l.chunk| then l.chunk[l.offset..] else l.queue[0];
    var l1 := Refilled(l);
    assert l1.chunk[l1.offset..] == chunk;
    var count := Available(l1, room);
    assert l1.chunk[l1.offset..l1.offset + count] == chunk[..count];
    assert chunk[..|chunk|] == chunk;
  }

  /** What the device hands over is sent, up to 16 KiB at a time, while the reader reads and fewer
      than 16 chunks wait; an empty read ends the reader. */
  lemma DeviceBytesAreSent(events: seq<Event>, i: nat, bytes: seq<Byte>)
    requires i < |Run(events).links| && Run(events).links[i].reader == Reading
    requires |Run(events).links[i].queue| < 16 && |bytes| <= 16384
    ensures var l := Run(events).links[i];
            var u := Run(events + [FromDevice(i, bytes)]).links;
            |u| == |Run(events).links| && u[i].sent == l.sent + bytes && u[i].delivered == l.delivered
            && (u[i].reader == Ended <==> bytes == [])
  {
    assert (events + [FromDevice(i, bytes)])[..|events|] == events;
    assert Run(events).links[i].sent + [] == Run(events).links[i].sent;
  }

  // ---- The incoming side, updated in place ----------------------------------------------

  class Incoming {
    var queue: seq<seq<Byte>>
    var chunk: seq<Byte>
    var offset: nat

    constructor ()
      ensures queue == [] && chunk == [] && offset == 0
    {
      queue, chunk, offset := [], [], 0;
    }

    ghost function On(reader: Reader, sent: seq<Byte>, delivered: seq<Byte>): Link
      reads this
    {
      Link(reader, queue, chunk, offset, false, sent, delivered)
    }

    /** `poll_read`, given whether the reader has returned. */
    method ReadInto(room: nat, reader: Reader, ghost sent: seq<Byte>, ghost delivered: seq<Byte>)
      returns (poll: Poll)
      requires offset <= |chunk|
      modifies this
      ensures offset <= |chunk|
      ensures (On(reader, sent, delivered + if poll.Ready? then poll.bytes else []), poll) ==
              PollRead(old(On(reader, sent, delivered)), room)
    {
      if offset == |chunk| {
        if queue == [] {
          poll := if reader == Gone then Ready([]) else Pending;
          assert delivered + [] == delivered;
          return;
        }
        chunk, queue, offset := queue[0], queue[1..], 0;
      }
      var left := |chunk| - offset;
      var count := if room < left then room else left;
      poll := Ready(chunk[offset..offset + count]);
      offset := offset + count;
    }
  }

  // ---- Retry loops ----------------------------------------------------------------------

  /** What one `read` on the descriptor reports: bytes, an interruption, nothing yet, EIO or
      ENODEV while the link settles, or any other error. */
  datatype ReadOutcome = Bytes(bytes: seq<Byte>) | Interrupted | WouldBlock | Settling | Broken

  datatype ReadAttempt = ReadAttempt(closed: bool, outcome: ReadOutcome)

  datatype ReadResult = Got(bytes: seq<Byte>) | Reset | Failed | Waiting

  predicate Retried(a: ReadAttempt) {
    !a.closed && (a.outcome.Interrupted? || a.outcome.WouldBlock? || a.outcome.Settling?)
  }

  function SettlingCount(attempts: seq<ReadAttempt>): nat {
    if attempts == [] then 0
    else SettlingCount(attempts[..|attempts| - 1]) + if attempts[|attempts| - 1].outcome.Settling? then 1 else 0
  }

  function Longest(budget: nat): nat {
    if budget == 0 then 1 else budget
  }

  /** `read_with_retries` against the attempts the device makes of it. `used` says how many were
      made. The budget is spent by settling errors only, and the one that reaches it ends the
      read: a budget of 0 acts as 1. */
  method ReadWithRetries(attempts: seq<ReadAttempt>, budget: nat) returns (r: ReadResult, used: nat)
    ensures used <= |attempts|
    ensures forall i :: 0 <= i < used - 1 ==> Retried(attempts[i])
    ensures r.Waiting? <==>
              && (forall i :: 0 <= i < |attempts| ==> Retried(attempts[i]))
              && SettlingCount(attempts) < Longest(budget)
    ensures r.Waiting? ==> used == |attempts|
    ensures !r.Waiting? ==>
              && used > 0
              && SettlingCount(attempts[..used - 1]) < Longest(budget)
              && var last := attempts[used - 1];
                 && (r.Reset? <==> !last.closed && last.outcome.Settling?)
                 && (r.Reset? ==> SettlingCount(attempts[..used]) == Longest(budget))
                 && (r.Failed? <==> !last.closed && last.outcome.Broken?)
                 && (r.Got? ==> if last.closed then r.bytes == [] else last.outcome == Bytes(r.bytes))
  {
    var settling := 0;
    used := 0;
    while used < |attempts|
      invariant 0 <= used <= |attempts|
      invariant forall i :: 0 <= i < used ==> Retried(attempts[i])
      invariant settling == SettlingCount(attempts[..used]) < Longest(budget)
    {
      var attempt := attempts[used];
      ghost var before := attempts[..used];
      used := used + 1;
      assert attempts[..used][..used - 1] == before && attempts[..used][used - 1] == attempt;
      if attempt.closed {
        return Got([]), used;
      }
      match attempt.outcome
      case Bytes(bytes) =>
        return Got(bytes), used;
      case Interrupted =>
      case WouldBlock =>
      case Settling =>
        settling := settling + 1;
        if settling >= budget {
          SettlingGrows(attempts, used);
          return Reset, used;
        }
      case Broken =>
        return Failed, used;
    }
    assert attempts[..used] == attempts;
    r := Waiting;
  }

  lemma {:induction false} SettlingGrows(attempts: seq<ReadAttempt>, k: nat)
    requires k <= |attempts|
    ensures SettlingCount(attempts[..k]) <= SettlingCount(attempts)
    decreases |attempts|
  {
    if k < |attempts| {
      assert attempts[..|attempts| - 1][..k] == attempts[..k];
      SettlingGrows(attempts[..|attempts| - 1], k);
    } else {
      assert attempts[..k] == attempts;
    }
  }

  const SETTLING_RETRIES_BEFORE_DATA := 4_000
  const SETTLING_RETRIES := 400

  /** The bytes the device handed over in some attempts. */
  function BytesOf(attempts: seq<ReadAttempt>): seq<Byte> {
    if attempts == [] then []
    else
      var last := attempts[|attempts| - 1];
      BytesOf(attempts[..|attempts| - 1]) + if !last.closed && last.outcome.Bytes? then last.outcome.bytes else []
  }

  lemma {:induction false} BytesOfRetries(attempts: seq<ReadAttempt>, from: nat, k: nat)
    requires from <= k <= |attempts| && forall i :: from <= i < k ==> Retried(attempts[i])
    ensures BytesOf(attempts[..k]) == BytesOf(attempts[..from])
    decreases k
  {
    if from < k {
      assert attempts[..k][..k - 1] == attempts[..k - 1];
      BytesOfRetries(attempts, from, k - 1);
    }
  }

  /** The settling errors since the device last handed over bytes. */
  function SettlingSince(attempts: seq<ReadAttempt>): nat {
    if attempts == [] || attempts[|attempts| - 1].outcome.Bytes? then 0
    else SettlingSince(attempts[..|attempts| - 1]) + if attempts[|attempts| - 1].outcome.Settling? then 1 else 0
  }

  lemma {:induction false} SettlingSinceFrom(attempts: seq<ReadAttempt>, from: nat, k: nat)
    requires from <= k <= |attempts| && forall i :: from <= i < k ==> !attempts[i].outcome.Bytes?
    ensures SettlingSince(attempts[..k]) == SettlingSince(attempts[..from]) + SettlingCount(attempts[from..k])
    decreases k
  {
    if from < k {
      assert attempts[..k][..k - 1] == attempts[..k - 1];
      assert attempts[from..k][..k - 1 - from] == attempts[from..k - 1];
      SettlingSinceFrom(attempts, from, k - 1);
    }
  }

  /** One turn of the reader's loop, from attempt `used` on. */
  method NextRead(attempts: seq<ReadAttempt>, used: nat, budget: nat) returns (read: ReadResult, next: nat)
    requires used < |attempts| && forall i :: 0 <= i < |attempts| ==> !attempts[i].closed
    ensures used < next <= |attempts|
    ensures BytesOf(attempts[..next]) == BytesOf(attempts[..used]) + if read.Got? then read.bytes else []
    ensures match read
            case Got(bytes) => attempts[next - 1].outcome == Bytes(bytes)
            case Reset => attempts[next - 1].outcome.Settling?
            case Failed => attempts[next - 1].outcome.Broken?
            case Waiting => next == |attempts|
    ensures read.Reset? ==> SettlingSince(attempts[..next]) == SettlingSince(attempts[..used]) + Longest(budget)
    ensures read.Waiting? ==> SettlingSince(attempts) < SettlingSince(attempts[..used]) + Longest(budget)
  {
    var rest := attempts[used..];
    var more;
    read, more := ReadWithRetries(rest, budget);
    next := used + more;
    assert rest[..more] == attempts[used..next];
    forall i | 0 <= i < more ensures attempts[used + i] == rest[i] {
    }
    hide BytesOf, SettlingSince, SettlingCount;
    if read.Waiting? {
      TurnWaits(attempts, used);
    } else {
      TurnEnds(attempts, used, next, read);
    }
  }

  lemma TurnWaits(attempts: seq<ReadAttempt>, used: nat)
    requires used <= |attempts| && forall i :: 0 <= i < |attempts| - used ==> Retried(attempts[used..][i])
    ensures BytesOf(attempts) == BytesOf(attempts[..used]) + []
    ensures SettlingSince(attempts) == SettlingSince(attempts[..used]) + SettlingCount(attempts[used..])
    ensures attempts[..|attempts|] == attempts
  {
    assert forall i :: used <= i < |attempts| ==> attempts[i] == attempts[used..][i - used];
    assert attempts[..|attempts|] == attempts && attempts[used..|attempts|] == attempts[used..];
    BytesOfRetries(attempts, used, |attempts|);
    SettlingSinceFrom(attempts, used, |attempts|);
  }

  lemma TurnEnds(attempts: seq<ReadAttempt>, used: nat, next: nat, read: ReadResult)
    requires used < next <= |attempts| && forall i :: 0 <= i < next - used - 1 ==> Retried(attempts[used..][i])
    requires !attempts[next - 1].closed && (read.Got? <==> attempts[next - 1].outcome.Bytes?)
    requires read.Got? ==> attempts[next - 1].outcome == Bytes(read.bytes)
    ensures BytesOf(attempts[..next]) == BytesOf(attempts[..used]) + if read.Got? then read.bytes else []
    ensures !read.Got? ==> SettlingSince(attempts[..next]) == SettlingSince(attempts[..used]) + SettlingCount(attempts[used..next])
  {
    forall i | used <= i < next - 1 ensures Retried(attempts[i]) {
      assert attempts[i] == attempts[used..][i - used];
    }
    BytesOfRetries(attempts, used, next - 1);
    assert attempts[..next][..next - 1] == attempts[..next - 1];
    if !read.Got? {
      SettlingSinceFrom(attempts, used, next);
    }
  }

  /** How many settling errors in a row end the reader. */
  function Patience(anyData: bool): nat {
    if anyData then SETTLING_RETRIES else SETTLING_RETRIES_BEFORE_DATA
  }

  /** What ends the reader: an empty read, or an error other than a tolerated one. */
  predicate EndsReader(outcome: ReadOutcome) {
    outcome == Bytes([]) || outcome.Settling? || outcome.Broken?
  }

  /** `keep_reading`: the reader queues exactly the bytes the device handed over, in order and
      in non-empty chunks, until the first empty read or error. Settling errors end it only when
      as many as its patience have come since the last bytes. */
  method KeepReading(attempts: seq<ReadAttempt>) returns (chunks: seq<seq<Byte>>, used: nat, ended: bool)
    requires forall i :: 0 <= i < |attempts| ==> !attempts[i].closed
    ensures used <= |attempts| && Joined(chunks) == BytesOf(attempts[..used])
    ensures forall i :: 0 <= i < |chunks| ==> chunks[i] != []
    ensures if ended then used > 0 && EndsReader(attempts[used - 1].outcome) else used == |attempts|
    ensures ended && attempts[used - 1].outcome.Settling? ==>
              SettlingSince(attempts[..used]) == if chunks == [] then 4_000 else 400
    ensures !ended ==> SettlingSince(attempts) < if chunks == [] then 4_000 else 400
  {
    chunks, used, ended := [], 0, false;
    while !ended && used < |attempts|
      invariant 0 <= used <= |attempts|
      invariant Joined(chunks) == BytesOf(attempts[..used])
      invariant forall i :: 0 <= i < |chunks| ==> chunks[i] != []
      invariant ended ==> used > 0 && EndsReader(attempts[used - 1].outcome)
      invariant ended && attempts[used - 1].outcome.Settling? ==> SettlingSince(attempts[..used]) == Patience(chunks != [])
      invariant !ended && used < |attempts| ==> SettlingSince(attempts[..used]) == 0
      invariant !ended && used == |attempts| ==> SettlingSince(attempts) < Patience(chunks != [])
      decreases |attempts| - used
    {
      var budget := Patience(chunks != []);
      var read;
      read, used := NextRead(attempts, used, budget);
      if read.Got? && read.bytes != [] {
        JoinedSnoc(chunks, read.bytes);
        chunks := chunks + [read.bytes];
        assert attempts[..used][used - 1] == attempts[used - 1];
        assert attempts[..|attempts|] == attempts;
      } else {
        ended := !read.Waiting?;
      }
    }
  }

  datatype WriteOutcome = Took(count: nat) | Interruption | Full | Refused

  datatype WriteAttempt = WriteAttempt(closed: bool, outcome: WriteOutcome)

  datatype WriteResult = Done | Stopped | Unfinished

  /** `write_all`: success means the device took exactly the data, anything else that it took a
      strict prefix of it, piece by piece in order. */
  method WriteAll(data: seq<Byte>, attempts: seq<WriteAttempt>) returns (r: WriteResult, taken: seq<seq<Byte>>)
    ensures Joined(taken) <= data
    ensures r.Done? <==> Joined(taken) == data
    ensures forall i :: 0 <= i < |taken| ==> taken[i] != []
    ensures r.Unfinished? ==> |taken| <= |attempts|
  {
    taken := [];
    var rest := data;
    var i := 0;
    while rest != [] && i < |attempts|
      invariant 0 <= i <= |attempts| && |taken| <= i
      invariant Joined(taken) + rest == data
      invariant forall k :: 0 <= k < |taken| ==> taken[k] != []
    {
      var attempt := attempts[i];
      i := i + 1;
      if attempt.closed {
        return Stopped, taken;
      }
      match attempt.outcome
      case Took(count) =>
        if count == 0 {
          return Stopped, taken;
        }
        var n := if count < |rest| then count else |rest|;
        JoinedSnoc(taken, rest[..n]);
        assert rest == rest[..n] + rest[n..];
        taken := taken + [rest[..n]];
        rest := rest[n..];
      case Interruption =>
      case Full =>
      case Refused =>
        return Stopped, taken;
    }
    r := if rest == [] then Done else Unfinished;
  }
}
