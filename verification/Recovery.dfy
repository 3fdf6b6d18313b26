/**
 Restoring a chat from a snapshot without repeating or losing text: `trackDeliveredResponse*`,
 `restoreResponseParts` and `restoreResponsePart` of src/agentHost/AhpAgentRuntime.ts.

 The Host owns the response parts, and its changes reach the client one by one in order.  A client that lost them
 restores itself from a snapshot, part by part; what the Host changes meanwhile waits in the subscription and is heard
 afterwards, as are the actions of a replay.  Either may be cut short at any time.  Emissions carry the part they stem
 from, which the events of the source do not.
 */
module Recovery {
  import opened Wrappers
  import opened Utf16

  type Id = nat

  /** `Notice` stands for parts told apart only by counting equal ones, `Stateful` for tool calls and inputs. */
  datatype Part =
    | TextPart(id: Id, reasoning: bool, content: Text)
    | Notice(identity: Id)
    | Stateful(identity: Id)
    | Unknown

  datatype Emission = TextOut(id: Id, reasoning: bool, text: Text) | NoticeOut(identity: Id) | StateOut(identity: Id)

  /** The identity of a part that has none is its position in the snapshot. */
  datatype Seen = Known(identity: Id) | AtIndex(index: nat)

  datatype Client = Client(lengths: map<Id, nat>, ordinals: map<Id, nat>, states: set<Seen>, emitted: seq<Emission>)

  const NEW_CLIENT: Client := Client(map[], map[], {}, [])

  function Lookup(m: map<Id, nat>, k: Id): nat {
    if k in m then m[k] else 0
  }

  // ---------- Live changes ----------

  datatype Change =
    | Delta(id: Id, text: Text)
    | NewPart(part: Part)
    | NewState(index: nat, identity: Id)

  /** `trackDeliveredResponseAction`, and the events mapped from the action. */
  function Deliver(c: Client, change: Change, reasoning: bool): Client {
    match change
    case Delta(id, text) =>
      c.(lengths := c.lengths[id := Lookup(c.lengths, id) + |text|], emitted := c.emitted + [TextOut(id, reasoning, text)])
    case NewState(_, identity) =>
      c.(states := c.states + {Known(identity)}, emitted := c.emitted + [StateOut(identity)])
    case NewPart(part) =>
      match part
      case TextPart(id, kind, content) =>
        c.(lengths := c.lengths[id := |content|], emitted := c.emitted + [TextOut(id, kind, content)])
      case Notice(identity) =>
        c.(ordinals := c.ordinals[identity := Lookup(c.ordinals, identity) + 1],
           emitted := c.emitted + [NoticeOut(identity)])
      case Stateful(identity) =>
        c.(states := c.states + {Known(identity)}, emitted := c.emitted + [StateOut(identity)])
      case Unknown => c
  }

  // ---------- Restoring ----------

  /** What is left of a text part after the units already delivered; a shorter part is taken as new. */
  function Rest(delivered: nat, content: Text): Text {
    if delivered <= |content| then content[delivered..] else content
  }

  function RestorePart(c: Client, part: Part, index: nat, ordinal: nat): Client {
    match part
    case TextPart(id, reasoning, content) =>
      var rest := Rest(Lookup(c.lengths, id), content);
      c.(lengths := c.lengths[id := |content|],
         emitted := if rest == [] then c.emitted else c.emitted + [TextOut(id, reasoning, rest)])
    case Notice(identity) =>
      if Lookup(c.ordinals, identity) >= ordinal then c
      else c.(ordinals := c.ordinals[identity := ordinal], emitted := c.emitted + [NoticeOut(identity)])
    case Stateful(identity) =>
      if Known(identity) in c.states then c
      else c.(states := c.states + {Known(identity)}, emitted := c.emitted + [StateOut(identity)])
    case Unknown => c.(states := c.states + {AtIndex(index)})
  }

  function CountNotices(parts: seq<Part>, identity: Id): nat {
    if parts == [] then 0
    else CountNotices(parts[..|parts| - 1], identity) + if parts[|parts| - 1] == Notice(identity) then 1 else 0
  }

  function Ordinal(parts: seq<Part>, n: nat): nat
    requires 0 < n <= |parts|
  {
    if parts[n - 1].Notice? then CountNotices(parts[..n], parts[n - 1].identity) else 0
  }

  /** The first `n` parts of the snapshot have been restored. */
  function RestoreUpTo(c: Client, parts: seq<Part>, n: nat): Client
    requires n <= |parts|
    decreases n
  {
    if n == 0 then c
    else RestorePart(RestoreUpTo(c, parts, n - 1), parts[n - 1], n - 1, Ordinal(parts, n))
  }

  function Restore(c: Client, parts: seq<Part>): Client {
    RestoreUpTo(c, parts, |parts|)
  }

  /** The object whose maps the source updates, and its loop over the parts of a snapshot. */
  class ResponseDelivery {
    var deliveredLengths: map<Id, nat>
    var deliveredOrdinals: map<Id, nat>
    var deliveredStates: set<Seen>
    var emitted: seq<Emission>

    ghost function View(): Client
      reads this
    {
      Client(deliveredLengths, deliveredOrdinals, deliveredStates, emitted)
    }

    constructor ()
      ensures View() == NEW_CLIENT
    {
      deliveredLengths, deliveredOrdinals, deliveredStates, emitted := map[], map[], {}, [];
    }

    /** Every tool state on record has been given out, and no other. */
    ghost predicate Told()
      reads this
    {
      forall q :: Known(q) in deliveredStates <==> StateOut(q) in emitted
    }

    /** A state comes once, and a text as what its part is, as far as it has not come yet. */
    method RestoreResponsePart(part: Part, index: nat, ordinal: nat)
      modifies this
      ensures View() == RestorePart(old(View()), part, index, ordinal)
      ensures old(Told()) ==> Told()
      ensures old(Told()) && part.Stateful? ==>
        emitted == if StateOut(part.identity) in old(emitted) then old(emitted) else old(emitted) + [StateOut(part.identity)]
      ensures part.TextPart? && Lookup(old(deliveredLengths), part.id) < |part.content| ==>
        emitted == old(emitted) + [TextOut(part.id, part.reasoning, part.content[Lookup(old(deliveredLengths), part.id)..])]
    {
      match part {
        case TextPart(id, reasoning, content) =>
          var delivered := if id in deliveredLengths then deliveredLengths[id] else 0;
          var rest := if delivered <= |content| then content[delivered..] else content;
          deliveredLengths := deliveredLengths[id := |content|];
          if |rest| > 0 {
            emitted := emitted + [TextOut(id, reasoning, rest)];
          }
        case Notice(identity) =>
          if (if identity in deliveredOrdinals then deliveredOrdinals[identity] else 0) >= ordinal {
            return;
          }
          deliveredOrdinals := deliveredOrdinals[identity := ordinal];
          emitted := emitted + [NoticeOut(identity)];
        case Stateful(identity) =>
          if Known(identity) in deliveredStates {
            return;
          }
          deliveredStates := deliveredStates + {Known(identity)};
          emitted := emitted + [StateOut(identity)];
        case Unknown =>
          deliveredStates := deliveredStates + {AtIndex(index)};
      }
    }

    /** The loop awaits every part, so it may end after any number of them. */
    method RestoreResponseParts(parts: seq<Part>, survives: nat) returns (complete: bool)
      modifies this
      ensures complete <==> survives >= |parts|
      ensures View() == RestoreUpTo(old(View()), parts, if complete then |parts| else survives)
    {
      hide RestorePart;
      var snapshotOrdinals: map<Id, nat> := map[];
      var index := 0;
      while index < |parts|
        invariant 0 <= index <= |parts| && index <= survives
        invariant View() == RestoreUpTo(old(View()), parts, index)
        invariant forall identity :: Lookup(snapshotOrdinals, identity) == CountNotices(parts[..index], identity)
      {
        if index == survives {
          return false;
        }
        var part := parts[index];
        assert parts[..index + 1][..index] == parts[..index];
        var ordinal := 0;
        if part.Notice? {
          ordinal := Lookup(snapshotOrdinals, part.identity) + 1;
          snapshotOrdinals := snapshotOrdinals[part.identity := ordinal];
        }
        assert ordinal == Ordinal(parts, index + 1);
        RestoreResponsePart(part, index, ordinal);
        index := index + 1;
      }
      return true;
    }

    /** A change heard live. */
    method TrackDeliveredResponse(change: Change, reasoning: bool)
      modifies this
      ensures View() == Deliver(old(View()), change, reasoning)
      ensures old(Told()) ==> Told()
    {
      match change {
        case Delta(id, text) =>
          deliveredLengths := deliveredLengths[id := Lookup(deliveredLengths, id) + |text|];
          emitted := emitted + [TextOut(id, reasoning, text)];
        case NewState(_, identity) =>
          deliveredStates := deliveredStates + {Known(identity)};
          emitted := emitted + [StateOut(identity)];
        case NewPart(TextPart(id, kind, content)) =>
          deliveredLengths := deliveredLengths[id := |content|];
          emitted := emitted + [TextOut(id, kind, content)];
        case NewPart(Notice(identity)) =>
          deliveredOrdinals := deliveredOrdinals[identity := Lookup(deliveredOrdinals, identity) + 1];
          emitted := emitted + [NoticeOut(identity)];
        case NewPart(Stateful(identity)) =>
          deliveredStates := deliveredStates + {Known(identity)};
          emitted := emitted + [StateOut(identity)];
        case NewPart(Unknown) =>
      }
    }
  }

  // ---------- What has been emitted ----------

  function EmittedText(emitted: seq<Emission>, id: Id): Text {
    if emitted == [] then []
    else
      var last := emitted[|emitted| - 1];
      EmittedText(emitted[..|emitted| - 1], id) + if last.TextOut? && last.id == id then last.text else []
  }

  function EmittedNotices(emitted: seq<Emission>, identity: Id): nat {
    if emitted == [] then 0
    else
      EmittedNotices(emitted[..|emitted| - 1], identity)
      + if emitted[|emitted| - 1] == NoticeOut(identity) then 1 else 0
  }

  lemma EmitOne(emitted: seq<Emission>, e: Emission)
    ensures forall id :: EmittedText(emitted + [e], id)
                      == EmittedText(emitted, id) + if e.TextOut? && e.id == id then e.text else []
    ensures forall q :: EmittedNotices(emitted + [e], q) == EmittedNotices(emitted, q) + if e == NoticeOut(q) then 1 else 0
  {
    assert (emitted + [e])[..|emitted|] == emitted;
  }

  /**
   One restored part completes the text exactly when what was emitted is a prefix of the Host's part; any other
   text ends up repeated or wrong.
   */
  lemma RestoreCompletesIffPrefix(c: Client, id: Id, reasoning: bool, content: Text, index: nat, ordinal: nat)
    requires Lookup(c.lengths, id) == |EmittedText(c.emitted, id)|
    ensures var c' := RestorePart(c, TextPart(id, reasoning, content), index, ordinal);
      EmittedText(c'.emitted, id) == content <==> EmittedText(c.emitted, id) <= content
  {
    var before := EmittedText(c.emitted, id);
    var rest := Rest(|before|, content);
    EmitOne(c.emitted, TextOut(id, reasoning, rest));
    hide EmittedText;
    if |before| <= |content| {
      assert before + content[|before|..] == content <==> before == content[..|before|];
    } else {
      assert |before + content| > |content|;
    }
  }

  // ---------- The Host and the connection ----------

  /**
   What the client has seen of the Host, and the changes that wait to be heard: while it follows them, while `done`
   parts of a snapshot are restored, or not at all.
   */
  datatype Link =
    | Following(seen: seq<Part>, backlog: seq<Change>)
    | Restoring(seen: seq<Part>, done: nat, backlog: seq<Change>)
    | Lost

  datatype World = World(parts: seq<Part>, client: Client, link: Link)

  const START: World := World([], NEW_CLIENT, Following([], []))

  /** The client has heard everything up to now. */
  predicate InStep(w: World) {
    w.link.Following? && w.link.backlog == []
  }

  predicate HasText(parts: seq<Part>, id: Id) {
    exists i :: 0 <= i < |parts| && parts[i].TextPart? && parts[i].id == id
  }

  ghost function IndexOfText(parts: seq<Part>, id: Id): (i: nat)
    requires HasText(parts, id)
    ensures i < |parts| && parts[i].TextPart? && parts[i].id == id
  {
    var i: nat :| i < |parts| && parts[i].TextPart? && parts[i].id == id;
    i
  }

  /** The Host extends a text part, adds a part under a new id, or moves a tool call to another state. */
  predicate Sensible(parts: seq<Part>, change: Change) {
    match change
    case Delta(id, _) => HasText(parts, id)
    case NewPart(part) => part.TextPart? ==> !HasText(parts, part.id)
    case NewState(index, _) => index < |parts| && parts[index].Stateful?
  }

  ghost function HostChange(parts: seq<Part>, change: Change): seq<Part>
    requires Sensible(parts, change)
  {
    match change
    case Delta(id, text) =>
      var i := IndexOfText(parts, id);
      parts[i := parts[i].(content := parts[i].content + text)]
    case NewPart(part) => parts + [part]
    case NewState(index, identity) => parts[index := Stateful(identity)]
  }

  datatype Step =
    | HostMoves(change: Change)
    | Hears
    | Disconnects
    | TakesSnapshot
    | RestoresPart

  function Queued(link: Link, change: Change): Link {
    if link.Lost? then link else link.(backlog := link.backlog + [change])
  }

  ghost function ReasoningOf(parts: seq<Part>, change: Change): bool
    requires Sensible(parts, change)
  {
    change.Delta? && parts[IndexOfText(parts, change.id)].reasoning
  }

  ghost function Apply(w: World, step: Step): World {
    match step
    case HostMoves(change) =>
      if !Sensible(w.parts, change) then w
      else w.(parts := HostChange(w.parts, change), link := Queued(w.link, change))
    case Hears =>
      if !w.link.Following? || w.link.backlog == [] || !Sensible(w.link.seen, w.link.backlog[0]) then w
      else
        var seen, change := w.link.seen, w.link.backlog[0];
        w.(client := Deliver(w.client, change, ReasoningOf(seen, change)),
           link := Following(HostChange(seen, change), w.link.backlog[1..]))
    case Disconnects => w.(link := Lost)
    case TakesSnapshot => w.(link := Restoring(w.parts, 0, []))
    case RestoresPart =>
      if !w.link.Restoring? then w
      else if w.link.done >= |w.link.seen| then w.(link := Following(w.link.seen, w.link.backlog))
      else
        var seen, n := w.link.seen, w.link.done;
        w.(client := RestorePart(w.client, seen[n], n, Ordinal(seen, n + 1)), link := w.link.(done := n + 1))
  }

  ghost function Run(w: World, steps: seq<Step>): World
    decreases |steps|
  {
    if steps == [] then w else Run(Apply(w, steps[0]), steps[1..])
  }
}
