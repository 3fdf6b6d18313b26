/**
 Which finished sessions may be continued: `claimOwnedContinuation` and the completion callback of
 src/agentHost/AhpAgentRuntime.ts, on the Host generations of module RetainedHost.

 `last` and `claims` are history: the latest completion of a session, and the continuations granted since.
 */
module Continuation {
  import opened Wrappers

  type Id = nat

  datatype Session = Session(fingerprint: Id, provider: Id, chat: Id, workspaceId: Id, workspaceIdentity: Id, workspaceUri: Id)

  /** `preserves`: the Host keeps finished sessions. */
  datatype Host = Host(owned: bool, preserves: bool, fingerprint: Option<Id>)

  datatype Request = Request(
    ownedBackend: bool,
    requireEditor: bool,
    continuation: Option<(Id, Id)>,
    provider: Option<Id>,
    workspaceId: Id,
    workspaceIdentity: Id,
    workspaceUri: Id)

  datatype State = State(retained: map<Id, Session>, disposed: bool, last: map<Id, Session>, claims: map<Id, nat>)

  const NEW: State := State(map[], false, map[], map[])

  function Count(m: map<Id, nat>, k: Id): nat {
    if k in m then m[k] else 0
  }

  /** A task on an owned Host has completed. */
  function Complete(s: State, owned: bool, uri: Id, session: Session): State {
    if !owned || s.disposed then s
    else
      State(s.retained[uri := session], s.disposed, s.last[uri := session], s.claims[uri := 0])
  }

  predicate Matches(session: Session, fingerprint: Id, chat: Id, r: Request) {
    && session.fingerprint == fingerprint && session.chat == chat
    && session.workspaceId == r.workspaceId && session.workspaceIdentity == r.workspaceIdentity
    && session.workspaceUri == r.workspaceUri
    && (r.provider.None? || session.provider == r.provider.value)
  }

  /** `Unclaimed`: the start goes on with a session of which this object keeps no record. */
  datatype Reply = Fresh | Continues | Unclaimed | Refused

  /**
   What a start does once it has its Host.  A granted continuation consumes the retained session, whatever becomes of
   the start; on a Host that is not owned there is nothing to consume.
   */
  function Claim(s: State, r: Request, host: Host): (State, Reply) {
    if s.disposed then (s, Refused)
    else if !host.owned then (s, if r.continuation.Some? then Unclaimed else Fresh)
    else if !r.ownedBackend || r.requireEditor || !host.preserves || host.fingerprint.None? then (s, Refused)
    else if r.continuation.None? then (s, Fresh)
    else
      var (uri, chat) := r.continuation.value;
      if uri !in s.retained || !Matches(s.retained[uri], host.fingerprint.value, chat, r) then (s, Refused)
      else (s.(retained := s.retained - {uri}, claims := s.claims[uri := Count(s.claims, uri) + 1]), Continues)
  }

  function Dispose(s: State): State {
    s.(retained := map[], disposed := true)
  }

  datatype Step =
    | DoComplete(owned: bool, uri: Id, session: Session)
    | DoClaim(request: Request, host: Host)
    | DoDispose

  function Apply(s: State, step: Step): State {
    match step
    case DoComplete(owned, uri, session) => Complete(s, owned, uri, session)
    case DoClaim(r, host) => Claim(s, r, host).0
    case DoDispose => Dispose(s)
  }

  function Run(s: State, steps: seq<Step>): State
    decreases |steps|
  {
    if steps == [] then s else Run(Apply(s, steps[0]), steps[1..])
  }

  ghost predicate Inv(s: State) {
    && (forall uri | uri in s.retained ::
          uri in s.last && s.retained[uri] == s.last[uri] && Count(s.claims, uri) == 0)
    && (forall uri :: Count(s.claims, uri) <= 1 && (Count(s.claims, uri) > 0 ==> uri in s.last))
    && (s.disposed ==> s.retained == map[])
  }

  lemma CompleteKeeps(s: State, owned: bool, uri: Id, session: Session)
    requires Inv(s)
    ensures Inv(Complete(s, owned, uri, session))
  {
    var s' := Complete(s, owned, uri, session);
    forall k ensures Count(s'.claims, k) <= 1 && (Count(s'.claims, k) > 0 ==> k in s'.last) {
      assert Count(s.claims, k) <= 1;
    }
  }

  lemma ClaimKeeps(s: State, r: Request, host: Host)
    requires Inv(s)
    ensures Inv(Claim(s, r, host).0)
  {
    hide Matches;
    var s' := Claim(s, r, host).0;
    forall k ensures Count(s'.claims, k) <= 1 && (Count(s'.claims, k) > 0 ==> k in s'.last) {
      assert Count(s.claims, k) <= 1;
    }
  }

  lemma ApplyKeeps(s: State, step: Step)
    requires Inv(s)
    ensures Inv(Apply(s, step))
  {
    hide Complete, Claim;
    match step
    case DoComplete(owned, uri, session) => CompleteKeeps(s, owned, uri, session);
    case DoClaim(r, host) => ClaimKeeps(s, r, host);
    case DoDispose =>
  }

  lemma {:induction false} RunKeeps(s: State, steps: seq<Step>)
    requires Inv(s)
    ensures Inv(Run(s, steps))
    decreases |steps|
  {
    hide Inv, Apply;
    if steps == [] {
    } else {
      ApplyKeeps(s, steps[0]);
      RunKeeps(Apply(s, steps[0]), steps[1..]);
    }
  }

  /**
   On an owned Host a session is continued at most once between two completions, and only on the Host generation,
   chat, workspace and provider it last completed with; no continuation gets past an owned Host in any other way.
   */
  lemma ContinuedAtMostOnce(steps: seq<Step>, r: Request, host: Host)
    ensures var s := Run(NEW, steps); var reply := Claim(s, r, host).1;
      && (forall uri :: Count(s.claims, uri) <= 1)
      && (host.owned && r.continuation.Some? ==> reply == Continues || reply == Refused)
      && (r.continuation.Some? && reply == Continues ==>
            var (uri, chat) := r.continuation.value;
            && Count(s.claims, uri) == 0 && uri in s.last && host.fingerprint.Some?
            && Matches(s.last[uri], host.fingerprint.value, chat, r))
  {
    RunKeeps(NEW, steps);
    hide Run, Matches;
  }

  /** What a request must be like to continue this session on this Host. */
  predicate Fits(session: Session, r: Request, host: Host) {
    && host.owned && host.preserves && r.ownedBackend && !r.requireEditor
    && host.fingerprint.Some? && r.continuation.Some? && Matches(session, host.fingerprint.value, r.continuation.value.1, r)
  }

  /**
   On an owned Host a continuation is granted exactly when the session it names has completed and has not been
   continued or given up since, and the request fits that completion; every fresh start of the right kind goes on.
   */
  lemma ContinuesIff(steps: seq<Step>, r: Request, host: Host)
    requires host.owned && !Run(NEW, steps).disposed
    ensures var s := Run(NEW, steps); var reply := Claim(s, r, host).1;
      && (reply == Continues <==> r.continuation.Some? && r.continuation.value.0 in s.retained
                                  && Fits(s.retained[r.continuation.value.0], r, host))
      && (forall uri :: uri in s.retained <==> uri in s.last && Count(s.claims, uri) == 0)
      && (forall uri | uri in s.retained :: s.retained[uri] == s.last[uri])
      && (r.continuation.None? && r.ownedBackend && !r.requireEditor && host.preserves && host.fingerprint.Some? ==> reply == Fresh)
  {
    RunKeeps(NEW, steps);
    RunRetains(NEW, steps);
    hide Run, Matches;
  }

  /** What has completed and was not continued since is still there, until the object is disposed. */
  ghost predicate Retains(s: State) {
    !s.disposed ==> forall uri | uri in s.last && Count(s.claims, uri) == 0 :: uri in s.retained
  }

  lemma {:induction false} RunRetains(s: State, steps: seq<Step>)
    requires Retains(s)
    ensures Retains(Run(s, steps))
    decreases |steps|
  {
    if steps == [] {
    } else {
      StepRetains(s, steps[0]);
      hide Retains, Apply;
      RunRetains(Apply(s, steps[0]), steps[1..]);
    }
  }

  lemma StepRetains(s: State, step: Step)
    requires Retains(s)
    ensures Retains(Apply(s, step))
  {
    hide Matches;
  }

  /** A task that completes on an owned Host may be continued there, whatever happened before. */
  lemma CompletedMayContinue(steps: seq<Step>, uri: Id, session: Session, r: Request, host: Host)
    requires !Run(NEW, steps).disposed && Fits(session, r, host) && r.continuation.value.0 == uri
    ensures Claim(Apply(Run(NEW, steps), DoComplete(true, uri, session)), r, host).1 == Continues
  {
    hide Run, Matches;
  }

  /** The same request, made several times. */
  function Again(r: Request, host: Host, times: nat): seq<Step> {
    seq(times, i => DoClaim(r, host))
  }

  /**
   A continuation asked for twice on the same Host, with no completion in between, goes on both times exactly when it
   goes on at all and the Host is not owned; there it goes on any number of times.
   */
  lemma RepeatedIffNotOwned(steps: seq<Step>, r: Request, host: Host, times: nat)
    requires r.continuation.Some?
    ensures var s := Run(NEW, steps); var reply := Claim(s, r, host).1;
      && (times > 0 ==> (Claim(Run(s, Again(r, host, times)), r, host).1 != Refused <==> reply != Refused && !host.owned))
      && (!host.owned ==> Run(s, Again(r, host, times)) == s)
  {
    RunKeeps(NEW, steps);
    hide Run;
    ClaimsAgain(Run(NEW, steps), r, host, times);
  }

  lemma {:induction false} ClaimsAgain(s: State, r: Request, host: Host, times: nat)
    requires Inv(s) && r.continuation.Some?
    ensures times > 0 ==> Run(s, Again(r, host, times)) == Claim(s, r, host).0
    ensures !host.owned ==> Run(s, Again(r, host, times)) == s
    ensures times > 0 ==> (Claim(Run(s, Again(r, host, times)), r, host).1 != Refused <==>
                           Claim(s, r, host).1 != Refused && !host.owned)
    decreases times
  {
    hide Matches;
    if times == 0 {
    } else {
      var s' := Claim(s, r, host).0;
      assert Again(r, host, times)[0] == DoClaim(r, host);
      assert Again(r, host, times)[1..] == Again(r, host, times - 1);
      ClaimKeeps(s, r, host);
      ClaimsAgain(s', r, host, times - 1);
    }
  }

  /** Nothing is started or continued once the runtime is disposed. */
  lemma DisposedContinuesNothing(steps: seq<Step>, more: seq<Step>, r: Request, host: Host)
    requires Run(NEW, steps).disposed
    ensures Claim(Run(Run(NEW, steps), more), r, host).1 == Refused
  {
    StaysDisposed(Run(NEW, steps), more);
  }

  lemma {:induction false} StaysDisposed(s: State, steps: seq<Step>)
    requires s.disposed
    ensures Run(s, steps).disposed
    decreases |steps|
  {
    if steps == [] {
    } else {
      StaysDisposed(Apply(s, steps[0]), steps[1..]);
    }
  }

  /** The runtime object with the map it updates. */
  class RetainedSessions {
    var retainedOwnedSessions: map<Id, Session>
    var disposed: bool
    ghost var last: map<Id, Session>
    ghost var claims: map<Id, nat>

    ghost function View(): State
      reads this
    {
      State(retainedOwnedSessions, disposed, last, claims)
    }

    ghost predicate Valid()
      reads this
    {
      Inv(View())
    }

    constructor ()
      ensures Valid() && View() == NEW
    {
      retainedOwnedSessions, disposed, last, claims := map[], false, map[], map[];
    }

    /**
     Whatever happens next: a completion is kept until it is continued, and on owned Hosts no session is continued twice between two completions, none once the
     runtime is disposed, and none that does not match what it last completed with.
     */
    method Perform(step: Step)
      requires Valid()
      modifies this
      ensures Valid() && View() == Apply(old(View()), step)
      ensures old(Retains(View())) ==> Retains(View())
      ensures step.DoComplete? && step.owned && !old(disposed) ==>
        step.uri in retainedOwnedSessions && retainedOwnedSessions[step.uri] == step.session
      ensures forall uri :: Count(claims, uri) <= 1
      ensures old(disposed) ==> disposed && claims == old(claims)
      ensures forall uri | Count(claims, uri) > old(Count(claims, uri)) ::
        && step.DoClaim? && step.host.fingerprint.Some? && step.request.continuation.Some?
        && uri == step.request.continuation.value.0 && uri in old(last)
        && Matches(old(last)[uri], step.host.fingerprint.value, step.request.continuation.value.1, step.request)
    {
      ApplyKeeps(View(), step);
      if Retains(View()) { StepRetains(View(), step); }
      match step {
        case DoComplete(owned, uri, session) => DidComplete(owned, uri, session);
        case DoClaim(r, host) => var _ := ClaimOwnedContinuation(r, host);
        case DoDispose => DisposeSessions();
      }
    }

    method DidComplete(owned: bool, uri: Id, session: Session)
      modifies this
      ensures View() == Complete(old(View()), owned, uri, session)
    {
      if owned && !disposed {
        retainedOwnedSessions := retainedOwnedSessions[uri := session];
        last, claims := last[uri := session], claims[uri := 0];
      }
    }

    /** The check that the runtime is still in use, and `claimOwnedContinuation` right after it. */
    method ClaimOwnedContinuation(r: Request, host: Host) returns (reply: Reply)
      modifies this
      ensures (View(), reply) == Claim(old(View()), r, host)
    {
      if disposed {
        return Refused;
      }
      if !host.owned {
        return if r.continuation.Some? then Unclaimed else Fresh;
      }
      if !r.ownedBackend || r.requireEditor || !host.preserves || host.fingerprint.None? {
        return Refused;
      }
      if r.continuation.None? {
        return Fresh;
      }
      var uri := r.continuation.value.0;
      if uri !in retainedOwnedSessions
         || !Matches(retainedOwnedSessions[uri], host.fingerprint.value, r.continuation.value.1, r) {
        return Refused;
      }
      retainedOwnedSessions := retainedOwnedSessions - {uri};
      claims := claims[uri := Count(claims, uri) + 1];
      return Continues;
    }

    method DisposeSessions()
      modifies this
      ensures View() == Dispose(old(View()))
    {
      disposed := true;
      retainedOwnedSessions := map[];
    }
  }
}
