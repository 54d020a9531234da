/** Password-save requests handed out under one-shot tokens: launched at most once, finished at
    most once, and unreadable once finished, invalidated or expired.
 */
module PasswordSave {
  import opened Common
  import opened Text

  const TTL: nat := 300_000

  datatype Payload = Payload(title: string, username: string, password: string, urls: string)
  datatype Status = Pending | Launched | Saved | Dismissed | Expired
  datatype Request = Request(payload: Payload, createdAt: nat, status: Status)

  predicate Terminal(status: Status) {
    status == Saved || status == Dismissed || status == Expired
  }

  /** A clock that reads earlier than the creation counts as no time passed. */
  predicate Keeps(request: Request, now: nat) {
    !Terminal(request.status) && (if now < request.createdAt then 0 else now - request.createdAt) < TTL
  }

  // ---- The store ------------------------------------------------------------------------

  function Pruned(requests: map<string, Request>, now: nat): map<string, Request> {
    map token | token in requests && Keeps(requests[token], now) :: requests[token]
  }

  function Registered(requests: map<string, Request>, token: string, payload: Payload, now: nat): map<string, Request> {
    if Trim(payload.password) == [] then requests
    else Pruned(requests, now)[token := Request(payload, now, Pending)]
  }

  function Lookup(requests: map<string, Request>, token: string, now: nat): Option<(Payload, Status)> {
    var kept := Pruned(requests, now);
    if token in kept then Some((kept[token].payload, kept[token].status)) else None
  }

  predicate CanLaunch(requests: map<string, Request>, token: string, now: nat) {
    token in Pruned(requests, now) && requests[token].status == Pending
  }

  function AfterLaunch(requests: map<string, Request>, token: string, now: nat): map<string, Request> {
    var kept := Pruned(requests, now);
    if CanLaunch(requests, token, now) then kept[token := kept[token].(status := Launched)] else kept
  }

  class PasswordSaveStore {
    var requests: map<string, Request>

    constructor ()
      ensures requests == map[]
    {
      requests := map[];
    }

    method Prune(now: nat) returns (removed: nat)
      modifies this
      ensures requests == Pruned(old(requests), now)
      ensures removed == |old(requests)| - |requests|
    {
      var before := |requests|;
      var rest := requests.Keys;
      while rest != {}
        invariant rest <= requests.Keys <= old(requests).Keys
        invariant forall token :: token in requests ==> requests[token] == old(requests)[token]
        invariant forall token :: token in old(requests) && token !in rest ==> (token in requests <==> Keeps(old(requests)[token], now))
        invariant |requests| <= before
        decreases |rest|
      {
        var token :| token in rest;
        rest := rest - {token};
        if !Keeps(requests[token], now) {
          OneLess(requests, token);
          requests := requests - {token};
        }
      }
      assert requests == Pruned(old(requests), now);
      removed := before - |requests|;
    }

    /** The token is the caller's fresh one. */
    method Register(token: string, payload: Payload, now: nat) returns (ok: bool)
      modifies this
      ensures ok == (Trim(payload.password) != [])
      ensures requests == Registered(old(requests), token, payload, now)
    {
      ok := Trim(payload.password) != [];
      if ok {
        var _ := Prune(now);
        requests := requests[token := Request(payload, now, Pending)];
      }
    }

    method Get(token: string, now: nat) returns (found: Option<(Payload, Status)>)
      modifies this
      ensures requests == Pruned(old(requests), now)
      ensures found == Lookup(old(requests), token, now)
    {
      var _ := Prune(now);
      found := if token in requests then Some((requests[token].payload, requests[token].status)) else None;
    }

    method MarkLaunched(token: string, now: nat) returns (ok: bool)
      modifies this
      ensures ok == CanLaunch(old(requests), token, now)
      ensures requests == AfterLaunch(old(requests), token, now)
    {
      var _ := Prune(now);
      if token !in requests || requests[token].status != Pending {
        return false;
      }
      requests := requests[token := requests[token].(status := Launched)];
      ok := true;
    }

    method Finish(token: string, now: nat) returns (ok: bool)
      modifies this
      ensures ok == (token in Pruned(old(requests), now))
      ensures requests == Pruned(old(requests), now) - {token}
    {
      var _ := Prune(now);
      if token !in requests {
        return false;
      }
      ok := !Terminal(requests[token].status);
      requests := requests - {token};
    }

    /** Everything goes; the count leaves out what had expired by itself. */
    method InvalidateAll(now: nat) returns (invalidated: nat)
      modifies this
      ensures requests == map[] && invalidated == |Pruned(old(requests), now)|
    {
      var _ := Prune(now);
      invalidated := |requests|;
      requests := map[];
    }
  }

  lemma OneLess(requests: map<string, Request>, token: string)
    requires token in requests
    ensures |requests - {token}| == |requests| - 1
  {
    assert (requests - {token})[token := requests[token]] == requests;
  }

  // ---- Whole runs -----------------------------------------------------------------------

  datatype Operation =
    | Register(token: string, payload: Payload)
    | Get(token: string)
    | Launch(token: string)
    | Finish(token: string)
    | InvalidateAll

  datatype Event = Event(operation: Operation, now: nat)

  /** The store with what was registered when, and how often each token was launched and
      finished. A finished or invalidated token is dead. */
  datatype World = World(
    requests: map<string, Request>, registered: map<string, Request>,
    launches: map<string, nat>, finishes: map<string, nat>, dead: set<string>)

  const START := World(map[], map[], map[], map[], {})

  function Step(w: World, e: Event): World {
    match e.operation
    case Register(token, payload) =>
      if Trim(payload.password) == [] || token in w.registered then w
      else w.(requests := Registered(w.requests, token, payload, e.now),
              registered := w.registered[token := Request(payload, e.now, Pending)],
              launches := w.launches[token := 0], finishes := w.finishes[token := 0])
    case Get(token) => w.(requests := Pruned(w.requests, e.now))
    case Launch(token) =>
      w.(requests := AfterLaunch(w.requests, token, e.now),
         launches := if CanLaunch(w.requests, token, e.now) && token in w.launches
                     then w.launches[token := w.launches[token] + 1] else w.launches)
    case Finish(token) =>
      var ok := token in Pruned(w.requests, e.now);
      w.(requests := Pruned(w.requests, e.now) - {token},
         finishes := if ok && token in w.finishes then w.finishes[token := w.finishes[token] + 1] else w.finishes,
         dead := if ok then w.dead + {token} else w.dead)
    case InvalidateAll => w.(requests := map[], dead := w.dead + w.requests.Keys)
  }

  function Run(events: seq<Event>): World {
    if events == [] then START else Step(Run(events[..|events| - 1]), events[|events| - 1])
  }

  ghost predicate TokenOk(w: World, token: string)
    requires token in w.registered
  {
    && token in w.launches && w.launches[token] <= 1
    && token in w.finishes && w.finishes[token] <= 1
    && (w.finishes[token] == 1 ==> token in w.dead)
    && (token in w.requests ==>
          && w.requests[token].payload == w.registered[token].payload
          && w.requests[token].createdAt == w.registered[token].createdAt
          && w.requests[token].status == (if w.launches[token] == 0 then Pending else Launched)
          && token !in w.dead)
  }

  ghost predicate Inv(w: World) {
    && w.requests.Keys <= w.registered.Keys && w.dead <= w.registered.Keys
    && forall token :: token in w.registered ==> TokenOk(w, token)
  }

  lemma TokenKeeps(w: World, e: Event, token: string)
    requires Inv(w) && token in w.registered
    ensures token in Step(w, e).registered && Step(w, e).registered[token] == w.registered[token]
    ensures TokenOk(Step(w, e), token)
  {
    assert TokenOk(w, token);
  }

  lemma NewTokenOk(w: World, e: Event, token: string)
    requires Inv(w) && token !in w.registered && token in Step(w, e).registered
    ensures TokenOk(Step(w, e), token)
  {
  }

  lemma KeysKeep(w: World, e: Event)
    requires w.requests.Keys <= w.registered.Keys && w.dead <= w.registered.Keys
    ensures Step(w, e).requests.Keys <= Step(w, e).registered.Keys && w.dead <= Step(w, e).dead <= Step(w, e).registered.Keys
  {
  }

  lemma StepKeeps(w: World, e: Event)
    requires Inv(w)
    ensures Inv(Step(w, e))
    ensures w.dead <= Step(w, e).dead
    ensures forall token :: token in w.registered ==> token in Step(w, e).registered && Step(w, e).registered[token] == w.registered[token]
  {
    hide Step, TokenOk;
    KeysKeep(w, e);
    forall token | token in w.registered || token in Step(w, e).registered
      ensures token in Step(w, e).registered && TokenOk(Step(w, e), token)
      ensures token in w.registered ==> Step(w, e).registered[token] == w.registered[token]
    {
      if token in w.registered {
        TokenKeeps(w, e, token);
      } else {
        NewTokenOk(w, e, token);
      }
    }
  }

  lemma {:induction false} Reachable(events: seq<Event>)
    ensures Inv(Run(events))
  {
    if events != [] {
      Reachable(events[..|events| - 1]);
      StepKeeps(Run(events[..|events| - 1]), events[|events| - 1]);
    }
  }

  /** However the calls come, a token is launched at most once and finished at most once. */
  lemma OneLaunchOneFinish(events: seq<Event>, token: string)
    requires token in Run(events).registered
    ensures token in Run(events).launches && Run(events).launches[token] <= 1
    ensures token in Run(events).finishes && Run(events).finishes[token] <= 1
  {
    Reachable(events);
    assert TokenOk(Run(events), token);
  }

  /** What a token yields is what was registered under it, within its lifetime, and before it
      was finished or invalidated. */
  lemma ReadableOnlyWhileAlive(events: seq<Event>, token: string, now: nat)
    requires Lookup(Run(events).requests, token, now).Some?
    ensures token in Run(events).registered && token !in Run(events).dead
    ensures Lookup(Run(events).requests, token, now).value.0 == Run(events).registered[token].payload
    ensures now < Run(events).registered[token].createdAt + TTL
  {
    Reachable(events);
    assert TokenOk(Run(events), token);
  }

  lemma {:induction false} DeadStays(events: seq<Event>, more: seq<Event>)
    ensures Run(events).dead <= Run(events + more).dead
    decreases |more|
  {
    if more == [] {
      assert events + more == events;
    } else {
      var less := more[..|more| - 1];
      assert (events + more)[..|events + more| - 1] == events + less;
      DeadStays(events, less);
      Reachable(events + less);
      StepKeeps(Run(events + less), more[|more| - 1]);
    }
  }

  /** A token that was finished or invalidated is never readable, launchable or finishable again. */
  lemma DeadTokensAreUnusable(events: seq<Event>, more: seq<Event>, token: string, now: nat)
    requires token in Run(events).dead
    ensures var requests := Run(events + more).requests;
            Lookup(requests, token, now) == None && !CanLaunch(requests, token, now) && token !in requests
  {
    DeadStays(events, more);
    Reachable(events + more);
    assert TokenOk(Run(events + more), token);
  }

  // ---- A token's ordinary life ----------------------------------------------------------

  lemma RunOneMore(events: seq<Event>, e: Event)
    ensures Run(events + [e]) == Step(Run(events), e)
  {
    assert (events + [e])[..|events|] == events;
  }

  /** A registered token yields its payload, pending, until exactly five minutes have passed. */
  lemma TokenLivesFiveMinutes(events: seq<Event>, token: string, payload: Payload, now: nat, later: nat)
    requires token !in Run(events).registered && Trim(payload.password) != []
    ensures var w := Run(events + [Event(Register(token, payload), now)]);
            && Lookup(w.requests, token, later) == (if later < now + 300_000 then Some((payload, Pending)) else None)
            && (CanLaunch(w.requests, token, later) <==> later < now + 300_000)
  {
    RunOneMore(events, Event(Register(token, payload), now));
  }

  /** Within that time it is launched, still read, and finished, each once, and then gone. */
  lemma TokenGoesThrough(events: seq<Event>, token: string, payload: Payload, now: nat, launch: nat, finish: nat)
    requires token !in Run(events).registered && Trim(payload.password) != []
    requires launch < now + 300_000 && finish < now + 300_000
    ensures var registered := events + [Event(Register(token, payload), now)];
            var launched := registered + [Event(Launch(token), launch)];
            var finished := launched + [Event(Finish(token), finish)];
            && token in Run(launched).launches && Run(launched).launches[token] == 1
            && !CanLaunch(Run(launched).requests, token, finish)
            && Lookup(Run(launched).requests, token, finish) == Some((payload, Launched))
            && token in Run(finished).finishes && Run(finished).finishes[token] == 1
            && Lookup(Run(finished).requests, token, finish) == None
            && token in Run(finished).dead
  {
    var registered := events + [Event(Register(token, payload), now)];
    var launched := registered + [Event(Launch(token), launch)];
    RunOneMore(events, Event(Register(token, payload), now));
    RunOneMore(registered, Event(Launch(token), launch));
    RunOneMore(launched, Event(Finish(token), finish));
  }

  /** A blank password is not registered; any other is, and what had expired goes. */
  lemma RegisteredExactly(requests: map<string, Request>, token: string, payload: Payload, now: nat)
    ensures Trim(payload.password) == [] ==> Registered(requests, token, payload, now) == requests
    ensures Trim(payload.password) != [] ==>
              var after := Registered(requests, token, payload, now);
              && token in after && after[token] == Request(payload, now, Pending)
              && forall other :: other != token ==>
                   (other in after <==> other in requests && !Terminal(requests[other].status) && now < requests[other].createdAt + 300_000)
                   && (other in after ==> after[other] == requests[other])
  {
  }

  /** What is done with other tokens does not touch one that is alive; invalidating takes all. */
  lemma OthersAreLeftAlone(w: World, e: Event, token: string)
    requires token in w.requests && Keeps(w.requests[token], e.now)
    ensures e.operation.InvalidateAll? ==> Step(w, e).requests == map[] && token in Step(w, e).dead
    ensures !e.operation.InvalidateAll? && (e.operation.Get? || e.operation.token != token) ==>
              token in Step(w, e).requests && Step(w, e).requests[token] == w.requests[token]
  {
  }
}
