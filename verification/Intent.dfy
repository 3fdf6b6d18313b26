/**
 Delegation intents: the request hash and the idempotent store of src/application/TaskCoordinator.ts.
 SHA-256 is taken to have no collisions, so a hash is represented by the bytes that are hashed.
 */
module Intent {
  import opened Wrappers
  import opened Utf16
  import opened Utf8

  const COLON: Byte := 58

  function Decimal(n: nat): (digits: seq<Byte>)
    ensures |digits| > 0 && forall i | 0 <= i < |digits| :: 48 <= digits[i] <= 57
  {
    if n < 10 then [48 + n] else Decimal(n / 10) + [48 + n % 10]
  }

  function Value(digits: seq<Byte>): int {
    if digits == [] then 0 else 10 * Value(digits[..|digits| - 1]) + digits[|digits| - 1] - 48
  }

  lemma {:induction false} DecimalReadsBack(n: nat)
    ensures Value(Decimal(n)) == n
    decreases n
  {
    var digits := Decimal(n);
    if n < 10 {
      assert digits[..0] == [];
    } else {
      DecimalReadsBack(n / 10);
      assert digits[..|digits| - 1] == Decimal(n / 10);
    }
  }

  /** One field, preceded by its length. */
  function Frame(field: seq<Byte>): (bytes: seq<Byte>)
    ensures bytes != []
  {
    Decimal(|field|) + [COLON] + field
  }

  function Frames(fields: seq<seq<Byte>>): seq<Byte> {
    if fields == [] then [] else Frame(fields[0]) + Frames(fields[1..])
  }

  /** The first colon ends the length, so equal starts mean equal fields. */
  lemma FrameIsPrefixFree(f: seq<Byte>, g: seq<Byte>, a: seq<Byte>, b: seq<Byte>)
    requires Frame(f) + a == Frame(g) + b
    ensures f == g && a == b
  {
    hide Decimal;
    var df, dg := Decimal(|f|), Decimal(|g|);
    var whole := Frame(f) + a;
    assert forall i | 0 <= i < |df| :: whole[i] == df[i];
    assert forall i | 0 <= i < |dg| :: whole[i] == dg[i];
    assert whole[|df|] == COLON && whole[|dg|] == COLON;
    assert |df| == |dg|;
    assert df == whole[..|df|] && dg == whole[..|dg|];
    DecimalReadsBack(|f|);
    DecimalReadsBack(|g|);
    var start := |df| + 1;
    assert f == whole[start..start + |f|] && g == whole[start..start + |g|];
    assert a == whole[start + |f|..] && b == whole[start + |g|..];
  }

  lemma {:induction false} FramesAreInjective(f: seq<seq<Byte>>, g: seq<seq<Byte>>)
    requires Frames(f) == Frames(g)
    ensures f == g
    decreases |f|
  {
    hide Frame;
    if f == [] || g == [] {
    } else {
      FrameIsPrefixFree(f[0], g[0], Frames(f[1..]), Frames(g[1..]));
      FramesAreInjective(f[1..], g[1..]);
      assert f == [f[0]] + f[1..] && g == [g[0]] + g[1..];
    }
  }

  // ---------- The request ----------

  datatype Request = Request(
    peerId: Option<Text>,
    workspaceId: Text,
    title: Text,
    prompt: Text,
    criteria: seq<Text>,
    timeoutMinutes: Option<nat>)

  const DEFAULT_TIMEOUT: nat := 60

  function EncodeEach(texts: seq<Text>): seq<seq<Byte>> {
    seq(|texts|, i requires 0 <= i < |texts| => Encode(texts[i]))
  }

  function PeerOf(r: Request): Text { if r.peerId.Some? then r.peerId.value else [] }

  function TimeoutOf(r: Request): nat { if r.timeoutMinutes.Some? then r.timeoutMinutes.value else DEFAULT_TIMEOUT }

  /** The strings `hashIntent` joins, the numbers in decimal. */
  function TextsOf(r: Request): seq<Text> {
    [PeerOf(r), r.workspaceId, r.title, r.prompt, Decimal(|r.criteria|)] + r.criteria + [Decimal(TimeoutOf(r))]
  }

  /** Each string is preceded by its length in bytes and a colon. */
  function Joined(texts: seq<Text>): Text {
    if texts == [] then [] else Decimal(Utf8Bytes(texts[0])) + [COLON] + texts[0] + Joined(texts[1..])
  }

  /** What `hashIntent` feeds to the hash: the joined string, encoded as a whole. */
  function PreImage(r: Request): seq<Byte> {
    Encode(Joined(TextsOf(r)))
  }

  function FieldsOf(r: Request): seq<seq<Byte>> {
    [Encode(PeerOf(r)), Encode(r.workspaceId), Encode(r.title), Encode(r.prompt), Decimal(|r.criteria|)]
    + EncodeEach(r.criteria) + [Decimal(TimeoutOf(r))]
  }

  /** Encoding the joined string is joining the encoded ones: no surrogate pair arises where two of them meet. */
  lemma {:induction false} JoinedEncodes(texts: seq<Text>)
    ensures Encode(Joined(texts)) == Frames(EncodeEach(texts))
    decreases |texts|
  {
    hide Decimal, Encode, Utf8Bytes;
    if texts == [] {
      AsciiEncodesItself([]);
    } else {
      var length, field, rest := Decimal(Utf8Bytes(texts[0])), texts[0], Joined(texts[1..]);
      JoinedStartsWithDigit(texts[1..]);
      assert Joined(texts) == (length + [COLON]) + (field + rest);
      EncodeJoins(length + [COLON], field + rest);
      EncodeJoins(field, rest);
      AsciiEncodesItself(length + [COLON]);
      ByteLengthIsEncodedLength(field);
      JoinedEncodes(texts[1..]);
      assert EncodeEach(texts)[1..] == EncodeEach(texts[1..]) && EncodeEach(texts)[0] == Encode(field);
      assert (length + [COLON]) + (Encode(field) + Encode(rest)) == (length + [COLON] + Encode(field)) + Encode(rest);
    }
  }

  lemma JoinedStartsWithDigit(texts: seq<Text>)
    ensures Joined(texts) == [] || 48 <= Joined(texts)[0] <= 57
  {
  }

  lemma PreImageIsFrames(r: Request)
    ensures PreImage(r) == Frames(FieldsOf(r))
  {
    hide Decimal, Encode, Frames, Joined;
    JoinedEncodes(TextsOf(r));
    AsciiEncodesItself(Decimal(|r.criteria|));
    AsciiEncodesItself(Decimal(TimeoutOf(r)));
    assert EncodeEach(TextsOf(r)) == FieldsOf(r);
  }

  function RepairEach(texts: seq<Text>): seq<Text> {
    seq(|texts|, i requires 0 <= i < |texts| => Repaired(texts[i]))
  }

  /** A request as it counts: no peer is the empty peer, no timeout the default, lone surrogates are replaced. */
  function Normal(r: Request): Request {
    Request(Some(Repaired(PeerOf(r))), Repaired(r.workspaceId), Repaired(r.title), Repaired(r.prompt),
            RepairEach(r.criteria), Some(TimeoutOf(r)))
  }

  lemma EachSameBytes(a: seq<Text>, b: seq<Text>)
    ensures EncodeEach(a) == EncodeEach(b) <==> RepairEach(a) == RepairEach(b)
  {
    hide Encode, Repaired;
    if |a| == |b| {
      forall i | 0 <= i < |a| ensures Encode(a[i]) == Encode(b[i]) <==> Repaired(a[i]) == Repaired(b[i]) {
        SameBytesIffSameRepair(a[i], b[i]);
      }
      if EncodeEach(a) == EncodeEach(b) {
        forall i | 0 <= i < |a| ensures RepairEach(a)[i] == RepairEach(b)[i] {
          assert EncodeEach(a)[i] == EncodeEach(b)[i];
        }
      }
      if RepairEach(a) == RepairEach(b) {
        forall i | 0 <= i < |a| ensures EncodeEach(a)[i] == EncodeEach(b)[i] {
          assert RepairEach(a)[i] == RepairEach(b)[i];
        }
      }
    }
  }

  /** The hashed bytes determine the request and are determined by it, up to its normal form. */
  lemma SamePreImageIffSameRequest(a: Request, b: Request)
    ensures PreImage(a) == PreImage(b) <==> Normal(a) == Normal(b)
  {
    PreImageIsFrames(a);
    PreImageIsFrames(b);
    hide PreImage, Frames, Encode, Repaired, Decimal, EncodeEach, RepairEach;
    SameBytesIffSameRepair(PeerOf(a), PeerOf(b));
    SameBytesIffSameRepair(a.workspaceId, b.workspaceId);
    SameBytesIffSameRepair(a.title, b.title);
    SameBytesIffSameRepair(a.prompt, b.prompt);
    EachSameBytes(a.criteria, b.criteria);
    EachLength(a.criteria);
    EachLength(b.criteria);
    DecimalReadsBack(TimeoutOf(a));
    DecimalReadsBack(TimeoutOf(b));
    if PreImage(a) == PreImage(b) {
      FramesAreInjective(FieldsOf(a), FieldsOf(b));
      FieldsSplit(a, b);
    }
  }

  lemma EachLength(texts: seq<Text>)
    ensures |EncodeEach(texts)| == |texts| == |RepairEach(texts)|
  {
  }

  lemma FieldsSplit(a: Request, b: Request)
    requires FieldsOf(a) == FieldsOf(b)
    ensures Encode(PeerOf(a)) == Encode(PeerOf(b)) && Encode(a.workspaceId) == Encode(b.workspaceId)
    ensures Encode(a.title) == Encode(b.title) && Encode(a.prompt) == Encode(b.prompt)
    ensures EncodeEach(a.criteria) == EncodeEach(b.criteria) && Decimal(TimeoutOf(a)) == Decimal(TimeoutOf(b))
  {
    hide Encode, Decimal;
    var f, g := FieldsOf(a), FieldsOf(b);
    assert |f| == |a.criteria| + 6 && |g| == |b.criteria| + 6;
    assert f[0] == g[0] && f[1] == g[1] && f[2] == g[2] && f[3] == g[3] && f[|f| - 1] == g[|g| - 1];
    assert EncodeEach(a.criteria) == f[5..|f| - 1] && EncodeEach(b.criteria) == g[5..|g| - 1];
  }

  predicate WellFormedRequest(r: Request) {
    && WellFormed(PeerOf(r)) && WellFormed(r.workspaceId) && WellFormed(r.title) && WellFormed(r.prompt)
    && forall i | 0 <= i < |r.criteria| :: WellFormed(r.criteria[i])
  }

  /** Without lone surrogates equal bytes mean an equal request, apart from the two defaults. */
  lemma WellFormedRequestsAreDistinguished(a: Request, b: Request)
    requires WellFormedRequest(a) && WellFormedRequest(b)
    ensures PreImage(a) == PreImage(b) <==>
      && PeerOf(a) == PeerOf(b) && a.workspaceId == b.workspaceId && a.title == b.title && a.prompt == b.prompt
      && a.criteria == b.criteria && TimeoutOf(a) == TimeoutOf(b)
  {
    SamePreImageIffSameRequest(a, b);
    NormalOfWellFormed(a);
    NormalOfWellFormed(b);
    hide WellFormed, PreImage, Repaired, Normal;
  }

  lemma NormalOfWellFormed(r: Request)
    requires WellFormedRequest(r)
    ensures Normal(r) == Request(Some(PeerOf(r)), r.workspaceId, r.title, r.prompt, r.criteria, Some(TimeoutOf(r)))
  {
    WellFormedNeedsNoRepair(PeerOf(r));
    WellFormedNeedsNoRepair(r.workspaceId);
    WellFormedNeedsNoRepair(r.title);
    WellFormedNeedsNoRepair(r.prompt);
    forall i | 0 <= i < |r.criteria| ensures RepairEach(r.criteria)[i] == r.criteria[i] {
      WellFormedNeedsNoRepair(r.criteria[i]);
    }
    hide WellFormed, Repaired;
    assert RepairEach(r.criteria) == r.criteria;
  }

  /** With lone surrogates two different titles can be hashed alike. */
  lemma LoneSurrogatesCollide(r: Request)
    ensures var a, b := r.(title := [0xD800]), r.(title := [0xDC00]);
      a != b && PreImage(a) == PreImage(b)
  {
    var a, b := r.(title := [0xD800]), r.(title := [0xDC00]);
    assert Repaired([0xD800]) == [REPLACEMENT] == Repaired([0xDC00]);
    hide Repaired, PreImage;
    SamePreImageIffSameRequest(a, b);
  }

  // ---------- persistDelegationIntent ----------

  type Id = nat

  datatype Stored = Stored(requestId: Id, taskId: Id, requestHash: seq<Byte>)

  /** `intents` survive a restart, `payloads` do not. */
  datatype State = State(intents: seq<Stored>, payloads: map<Id, Request>)

  datatype Reply =
    | Persisted(requestId: Id, taskId: Id, recovered: bool)
    | Conflict
    | InvalidInput
    | Failed

  /** `Array.find`; the length when there is none. */
  function Find(intents: seq<Stored>, requestId: Id): (i: nat)
    ensures i <= |intents| && (i < |intents| ==> intents[i].requestId == requestId)
    ensures forall j | 0 <= j < i :: intents[j].requestId != requestId
  {
    if intents == [] || intents[0].requestId == requestId then 0 else 1 + Find(intents[1..], requestId)
  }

  /**
   `given` is the caller's delegation id; the other ids are fresh; `owned` says whether the lock is held and `update`
   what becomes of the write.
   */
  datatype Call =
    Call(request: Request, given: Option<Id>, freshRequestId: Id, freshTaskId: Id, owned: bool, update: Update)

  /** A write is torn when it takes effect although the store reports a failure. */
  datatype Update = Done | NotDone | Torn

  function RequestIdOf(c: Call): Id { if c.given.Some? then c.given.value else c.freshRequestId }

  function Persist(s: State, c: Call): (State, Reply) {
    var id := RequestIdOf(c);
    var i := Find(s.intents, id);
    if !(1 <= TimeoutOf(c.request) <= 60) then (s, InvalidInput)
    else if !c.owned then (s, Failed)
    else if i < |s.intents| then
      if s.intents[i].requestHash != PreImage(c.request) then (s, Conflict)
      else (s.(payloads := s.payloads[s.intents[i].taskId := c.request]), Persisted(id, s.intents[i].taskId, true))
    else
      var longer := s.intents + [Stored(id, c.freshTaskId, PreImage(c.request))];
      match c.update
      case Done => (State(longer, s.payloads[c.freshTaskId := c.request]), Persisted(id, c.freshTaskId, false))
      case NotDone => (s, Failed)
      case Torn => (s.(intents := longer), Failed)
  }

  /** The coordinator object: the loop over the stored intents, and the two places it updates. */
  class Coordinator {
    var intents: seq<Stored>
    var intentPayloads: map<Id, Request>

    function View(): State
      reads this
    {
      State(intents, intentPayloads)
    }

    constructor (intents: seq<Stored>)
      ensures View() == State(intents, map[])
    {
      this.intents, intentPayloads := intents, map[];
    }

    method PersistDelegationIntent(c: Call) returns (reply: Reply)
      modifies this
      ensures (View(), reply) == Persist(old(View()), c)
    {
      hide PreImage, Find;
      var timeout := TimeoutOf(c.request);
      if timeout < 1 || timeout > 60 {
        return InvalidInput;
      }
      if !c.owned {
        return Failed;
      }
      var requestHash := PreImage(c.request);
      var id := RequestIdOf(c);
      var i := 0;
      while i < |intents| && intents[i].requestId != id
        invariant 0 <= i <= |intents|
        invariant forall j | 0 <= j < i :: intents[j].requestId != id
      {
        i := i + 1;
      }
      FindIs(intents, id, i);
      if i < |intents| {
        if intents[i].requestHash != requestHash {
          return Conflict;
        }
        intentPayloads := intentPayloads[intents[i].taskId := c.request];
        return Persisted(id, intents[i].taskId, true);
      }
      if c.update == NotDone {
        return Failed;
      }
      intents := intents + [Stored(id, c.freshTaskId, requestHash)];
      if c.update == Torn {
        return Failed;
      }
      intentPayloads := intentPayloads[c.freshTaskId := c.request];
      return Persisted(id, c.freshTaskId, false);
    }
  }

  lemma FindIs(intents: seq<Stored>, id: Id, i: nat)
    requires i <= |intents| && (i < |intents| ==> intents[i].requestId == id)
    requires forall j | 0 <= j < i :: intents[j].requestId != id
    ensures Find(intents, id) == i
  {
    hide Find;
    var found := Find(intents, id);
  }

  function Run(s: State, calls: seq<Call>): State
    decreases |calls|
  {
    if calls == [] then s else Run(Persist(s, calls[0]).0, calls[1..])
  }

  ghost predicate OneIntentEach(intents: seq<Stored>) {
    forall i, j | 0 <= i < j < |intents| :: intents[i].requestId != intents[j].requestId
  }

  lemma PersistKeeps(s: State, c: Call)
    requires OneIntentEach(s.intents)
    ensures OneIntentEach(Persist(s, c).0.intents) && s.intents <= Persist(s, c).0.intents
  {
    hide PreImage, Find;
  }

  /** Over any calls an id keeps one stored intent, and stored intents are never changed or dropped. */
  lemma {:induction false} IntentsOnlyGrow(s: State, calls: seq<Call>)
    requires OneIntentEach(s.intents)
    ensures OneIntentEach(Run(s, calls).intents) && s.intents <= Run(s, calls).intents
    decreases |calls|
  {
    hide Persist, OneIntentEach;
    if calls == [] {
    } else {
      PersistKeeps(s, calls[0]);
      IntentsOnlyGrow(Persist(s, calls[0]).0, calls[1..]);
    }
  }

  lemma FindInLonger(intents: seq<Stored>, longer: seq<Stored>, id: Id)
    requires intents <= longer && Find(intents, id) < |intents|
    ensures Find(longer, id) == Find(intents, id)
  {
    hide Find;
    FindIs(longer, id, Find(intents, id));
  }

  /** The request of this call is on record under its id. */
  predicate Recorded(intents: seq<Stored>, c: Call) {
    var i := Find(intents, RequestIdOf(c));
    i < |intents| && intents[i].requestHash == PreImage(c.request)
  }

  /** The task a recorded id stands for. */
  function TaskOf(intents: seq<Stored>, id: Id): Id
    requires Find(intents, id) < |intents|
  {
    intents[Find(intents, id)].taskId
  }

  /** The first call under an id is on record exactly when it succeeds, or fails although its write took effect. */
  lemma RecordedIff(s: State, c: Call)
    requires Find(s.intents, RequestIdOf(c)) == |s.intents|
    ensures var (s', reply) := Persist(s, c);
      && (Recorded(s'.intents, c) <==> reply.Persisted? || (reply == Failed && c.owned && c.update == Torn))
      && (Recorded(s'.intents, c) ==> TaskOf(s'.intents, RequestIdOf(c)) == c.freshTaskId)
      && (reply.Persisted? ==> reply.taskId == c.freshTaskId && !reply.recovered)
  {
    hide PreImage, Find;
    FindIs(s.intents + [Stored(RequestIdOf(c), c.freshTaskId, PreImage(c.request))], RequestIdOf(c), |s.intents|);
  }

  /** A call that succeeds is on record with the task it answers. */
  lemma PersistedIsRecorded(s: State, c: Call)
    requires Persist(s, c).1.Persisted?
    ensures var (s', reply) := Persist(s, c);
      Recorded(s'.intents, c) && reply.taskId == TaskOf(s'.intents, RequestIdOf(c))
  {
    hide PreImage, Find;
    if Find(s.intents, RequestIdOf(c)) == |s.intents| {
      RecordedIff(s, c);
    }
  }

  /**
   Once a request is on record under an id, be it that the call succeeded or that its write took effect all the same,
   any later call with that id, whatever came in between, answers with the same task exactly when it carries the same
   request, and is a conflict otherwise.
   */
  lemma IdsAreIdempotent(s: State, first: Call, between: seq<Call>, again: Call)
    requires OneIntentEach(s.intents) && Recorded(Persist(s, first).0.intents, first)
    requires RequestIdOf(again) == RequestIdOf(first) && again.owned && 1 <= TimeoutOf(again.request) <= 60
    ensures var (s1, answer) := Persist(s, first);
      var reply := Persist(Run(s1, between), again).1;
      && (if Normal(again.request) == Normal(first.request)
          then reply == Persisted(RequestIdOf(first), TaskOf(s1.intents, RequestIdOf(first)), true)
          else reply == Conflict)
      && (answer.Persisted? ==> answer.taskId == TaskOf(s1.intents, RequestIdOf(first)))
  {
    hide PreImage, Find, Normal, Run, OneIntentEach, TimeoutOf;
    var s1 := Persist(s, first).0;
    var id := RequestIdOf(first);
    PersistKeeps(s, first);
    if Persist(s, first).1.Persisted? { PersistedIsRecorded(s, first); }
    IntentsOnlyGrow(s1, between);
    FindInLonger(s1.intents, Run(s1, between).intents, id);
    SamePreImageIffSameRequest(again.request, first.request);
  }

  /** A call that succeeds leaves what is to be sent under the task it answers, and touches no other task. */
  lemma PayloadIsKept(s: State, c: Call)
    ensures var (s', reply) := Persist(s, c);
      && (reply.Persisted? ==> s'.payloads == s.payloads[reply.taskId := c.request])
      && (!reply.Persisted? ==> s'.payloads == s.payloads)
  {
    hide PreImage, Find;
  }

  /** When a call fails, and how. */
  lemma RepliesMean(s: State, c: Call)
    requires OneIntentEach(s.intents)
    ensures var reply := Persist(s, c).1; var known := exists i :: 0 <= i < |s.intents| && s.intents[i].requestId == RequestIdOf(c);
      && (reply == InvalidInput <==> !(1 <= TimeoutOf(c.request) <= 60))
      && (reply == Conflict <==> 1 <= TimeoutOf(c.request) <= 60 && c.owned && known && !Recorded(s.intents, c))
      && (reply.Persisted? <==> 1 <= TimeoutOf(c.request) <= 60 && c.owned
                                && (Recorded(s.intents, c) || (!known && c.update == Done)))
      && (reply.Persisted? ==> (reply.recovered <==> known))
  {
    hide PreImage, TimeoutOf;
    var i := Find(s.intents, RequestIdOf(c));
    hide Find;
    if i < |s.intents| { assert s.intents[i].requestId == RequestIdOf(c); }
  }
}
