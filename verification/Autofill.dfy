/** Autofill request sessions: each allows one secret request, for a credential listed when it
    was created and in the context it was created for.
 */
module Autofill {
  import opened Common

  const TTL: nat := 120_000
  const MAX_U64: nat := 0xffff_ffff_ffff_ffff

  datatype Context = Context(origin: string, domain: string)
  datatype Session = Session(context: Context, allowed: set<string>, expiresAt: nat)

  function ExpiryOf(now: nat): nat {
    if now + TTL > MAX_U64 then MAX_U64 else now + TTL
  }

  // ---- The store ------------------------------------------------------------------------

  function Pruned(sessions: map<string, Session>, now: nat): map<string, Session> {
    map id | id in sessions && sessions[id].expiresAt > now :: sessions[id]
  }

  function Listed(candidates: seq<string>): set<string> {
    set c | c in candidates
  }

  /** What is asked of the provider for a secret. */
  datatype SecretRequest = SecretRequest(credential: string, context: Context)

  /** `get_secret`: the allowlist decides before the provider is asked anything. */
  function Ask(session: Session, credential: string): Option<SecretRequest> {
    if credential in session.allowed then Some(SecretRequest(credential, session.context)) else None
  }

  class AutofillStore {
    var sessions: map<string, Session>

    constructor ()
      ensures sessions == map[]
    {
      sessions := map[];
    }

    method Prune(now: nat)
      modifies this
      ensures sessions == Pruned(old(sessions), now)
    {
      var rest := sessions.Keys;
      while rest != {}
        invariant rest <= sessions.Keys <= old(sessions).Keys
        invariant forall id :: id in sessions ==> sessions[id] == old(sessions)[id]
        invariant forall id :: id in old(sessions) && id !in rest ==> (id in sessions <==> old(sessions)[id].expiresAt > now)
        decreases |rest|
      {
        var id :| id in rest;
        rest := rest - {id};
        if sessions[id].expiresAt <= now {
          sessions := sessions - {id};
        }
      }
    }

    /** The identifier is the caller's fresh one; without candidates there is no session. */
    method CreateSession(id: string, context: Context, candidates: seq<string>, now: nat) returns (created: bool)
      modifies this
      ensures created == (candidates != [])
      ensures !created ==> sessions == old(sessions)
      ensures created ==>
                sessions == Pruned(old(sessions), now)[id := Session(context, Listed(candidates), ExpiryOf(now))]
    {
      created := candidates != [];
      if !created {
        return;
      }
      var allowed := {};
      for i := 0 to |candidates|
        invariant allowed == Listed(candidates[..i])
      {
        assert candidates[..i + 1] == candidates[..i] + [candidates[i]];
        allowed := allowed + {candidates[i]};
      }
      assert candidates[..|candidates|] == candidates;
      Prune(now);
      sessions := sessions[id := Session(context, allowed, ExpiryOf(now))];
    }

    method TakeSession(id: string, now: nat) returns (session: Option<Session>)
      modifies this
      ensures sessions == Pruned(old(sessions), now) - {id}
      ensures session == if id in Pruned(old(sessions), now) then Some(old(sessions)[id]) else None
    {
      Prune(now);
      session := None;
      if id in sessions {
        session := Some(sessions[id]);
        sessions := sessions - {id};
      }
    }

    /** The session is gone whether or not the credential was allowed. */
    method GetSecret(id: string, credential: string, now: nat) returns (asked: Option<SecretRequest>)
      modifies this
      ensures sessions == Pruned(old(sessions), now) - {id}
      ensures asked == if id in Pruned(old(sessions), now) then Ask(old(sessions)[id], credential) else None
    {
      var session := TakeSession(id, now);
      if session == None {
        return None;
      }
      asked := Ask(session.value, credential);
    }
  }

  // ---- Whole runs -----------------------------------------------------------------------

  datatype Event =
    | Create(id: string, context: Context, candidates: seq<string>, now: nat)
    | GetSecret(id: string, credential: string, now: nat)
    | Close(id: string, now: nat)

  /** A secret request with the session it used up. */
  datatype Use = Use(id: string, request: SecretRequest, now: nat)

  datatype World = World(sessions: map<string, Session>, created: map<string, Session>, uses: seq<Use>)

  function Step(w: World, e: Event): World {
    match e
    case Create(id, context, candidates, now) =>
      if candidates == [] || id in w.created then w
      else
        var session := Session(context, Listed(candidates), ExpiryOf(now));
        w.(sessions := Pruned(w.sessions, now)[id := session], created := w.created[id := session])
    case GetSecret(id, credential, now) =>
      var kept := Pruned(w.sessions, now);
      var asked := if id in kept then Ask(kept[id], credential) else None;
      w.(sessions := kept - {id}, uses := if asked.Some? then w.uses + [Use(id, asked.value, now)] else w.uses)
    case Close(id, now) => w.(sessions := Pruned(w.sessions, now) - {id})
  }

  function Run(events: seq<Event>): World {
    if events == [] then World(map[], map[], []) else Step(Run(events[..|events| - 1]), events[|events| - 1])
  }

  ghost predicate UseOk(w: World, use: Use) {
    && use.id in w.created && use.id !in w.sessions
    && use.request.credential in w.created[use.id].allowed
    && use.request.context == w.created[use.id].context
    && use.now < w.created[use.id].expiresAt
  }

  ghost predicate Inv(w: World) {
    && (forall id :: id in w.sessions ==> id in w.created && w.sessions[id] == w.created[id])
    && (forall i :: 0 <= i < |w.uses| ==> UseOk(w, w.uses[i]))
    && (forall i, j :: 0 <= i < j < |w.uses| ==> w.uses[i].id != w.uses[j].id)
  }

  lemma StepKeeps(w: World, e: Event)
    requires Inv(w)
    ensures Inv(Step(w, e))
  {
    var u := Step(w, e);
    forall i | 0 <= i < |w.uses| ensures UseOk(u, w.uses[i]) {
      assert UseOk(w, w.uses[i]);
    }
    if |u.uses| > |w.uses| {
      var last := u.uses[|w.uses|];
      assert last.id in w.sessions;
      forall i | 0 <= i < |w.uses| ensures w.uses[i].id != last.id {
        assert UseOk(w, w.uses[i]);
      }
      assert UseOk(u, last);
    }
  }

  lemma {:induction false} Reachable(events: seq<Event>)
    ensures Inv(Run(events))
  {
    if events != [] {
      Reachable(events[..|events| - 1]);
      StepKeeps(Run(events[..|events| - 1]), events[|events| - 1]);
    }
  }

  /** No session serves two secret requests. */
  lemma OneSecretPerSession(events: seq<Event>, i: nat, j: nat)
    requires i < j < |Run(events).uses|
    ensures Run(events).uses[i].id != Run(events).uses[j].id
  {
    Reachable(events);
  }

  /** A secret is only asked for a credential listed when the session was created, in that same
      context, and before the session expires. */
  lemma SecretsAreListed(events: seq<Event>, i: nat)
    requires i < |Run(events).uses|
    ensures var use := Run(events).uses[i];
            && use.id in Run(events).created
            && use.request.credential in Run(events).created[use.id].allowed
            && use.request.context == Run(events).created[use.id].context
            && use.now < Run(events).created[use.id].expiresAt
  {
    Reachable(events);
    assert UseOk(Run(events), Run(events).uses[i]);
  }

  lemma {:induction false} RunAgain(events: seq<Event>, more: seq<Event>, id: string)
    requires id in Run(events).created && id !in Run(events).sessions
    ensures id in Run(events + more).created && id !in Run(events + more).sessions
    decreases |more|
  {
    if more == [] {
      assert events + more == events;
    } else {
      assert (events + more)[..|events + more| - 1] == events + more[..|more| - 1];
      RunAgain(events, more[..|more| - 1], id);
    }
  }

  /** A session that was used, even for a credential it does not list, or closed, is of no use
      ever after. */
  lemma UsedUpForGood(events: seq<Event>, more: seq<Event>, id: string, attempt: string, credential: string, now: nat, later: nat)
    requires id in Run(events).created
    ensures var before := events + [GetSecret(id, attempt, now)] + more;
            Run(before + [GetSecret(id, credential, later)]).uses == Run(before).uses
  {
    var spent := events + [GetSecret(id, attempt, now)];
    assert spent[..|events|] == events;
    RunAgain(spent, more, id);
    var before := spent + more;
    assert (before + [GetSecret(id, credential, later)])[..|before|] == before;
  }

  // ---- A session's ordinary life --------------------------------------------------------

  lemma RunOneMore(events: seq<Event>, e: Event)
    ensures Run(events + [e]) == Step(Run(events), e)
  {
    assert (events + [e])[..|events|] == events;
  }

  /** A session serves the request for a credential it lists, in its context, until exactly two
      minutes have passed, and a request for any other credential never. */
  lemma SessionLivesTwoMinutes(events: seq<Event>, id: string, context: Context, candidates: seq<string>,
                               credential: string, now: nat, later: nat)
    requires id !in Run(events).created && candidates != [] && now + 120_000 <= MAX_U64
    ensures var created := events + [Create(id, context, candidates, now)];
            var asked := created + [GetSecret(id, credential, later)];
            Run(asked).uses == Run(events).uses +
              (if later < now + 120_000 && credential in candidates
               then [Use(id, SecretRequest(credential, context), later)] else [])
  {
    var created := events + [Create(id, context, candidates, now)];
    RunOneMore(events, Create(id, context, candidates, now));
    RunOneMore(created, GetSecret(id, credential, later));
    assert Run(events).uses + [] == Run(events).uses;
  }

  /** A closed session serves nothing. */
  lemma ClosedServesNothing(events: seq<Event>, id: string, credential: string, now: nat, later: nat)
    requires id in Run(events).created
    ensures var closed := events + [Close(id, now)];
            Run(closed + [GetSecret(id, credential, later)]).uses == Run(events).uses
  {
    RunOneMore(events, Close(id, now));
    RunOneMore(events + [Close(id, now)], GetSecret(id, credential, later));
  }

  /** What is done with other sessions does not touch one that is alive. */
  lemma OthersAreLeftAlone(w: World, e: Event, id: string)
    requires id in w.sessions && id in w.created && w.sessions[id].expiresAt > e.now && (e.Create? || e.id != id)
    ensures id in Step(w, e).sessions && Step(w, e).sessions[id] == w.sessions[id]
  {
  }
}
