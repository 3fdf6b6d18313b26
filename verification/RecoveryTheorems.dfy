/** Recovery by snapshot equals the uninterrupted stream. */
module RecoveryTheorems {
  import opened Wrappers
  import opened Utf16
  import opened Recovery

  // ---------- The invariant ----------

  ghost predicate UniqueTexts(parts: seq<Part>) {
    forall i, j | 0 <= i < j < |parts| && parts[i].TextPart? && parts[j].TextPart? :: parts[i].id != parts[j].id
  }

  /** What was emitted of a part is a prefix of it, and its length is on record. */
  predicate TextOk(c: Client, part: Part, exact: bool)
    requires part.TextPart?
  {
    var text := EmittedText(c.emitted, part.id);
    text <= part.content && Lookup(c.lengths, part.id) == |text| && (exact ==> text == part.content)
  }

  ghost predicate TextsOk(c: Client, parts: seq<Part>, exact: bool) {
    forall i | 0 <= i < |parts| && parts[i].TextPart? :: TextOk(c, parts[i], exact)
  }

  predicate Untouched(c: Client, id: Id) {
    EmittedText(c.emitted, id) == [] && Lookup(c.lengths, id) == 0
  }

  ghost predicate OthersUntouched(c: Client, parts: seq<Part>) {
    forall id | !HasText(parts, id) :: Untouched(c, id)
  }

  predicate NoticeOk(c: Client, parts: seq<Part>, q: Id, exact: bool) {
    && EmittedNotices(c.emitted, q) == Lookup(c.ordinals, q) <= CountNotices(parts, q)
    && (exact ==> Lookup(c.ordinals, q) == CountNotices(parts, q))
  }

  ghost predicate NoticesOk(c: Client, parts: seq<Part>, exact: bool) {
    forall q :: NoticeOk(c, parts, q, exact)
  }

  ghost predicate StatesOk(c: Client, parts: seq<Part>) {
    forall i | 0 <= i < |parts| && parts[i].Stateful? :: Known(parts[i].identity) in c.states
  }

  /** The client has given out nothing beyond these parts, and all of them if `exact`. */
  ghost predicate Fits(parts: seq<Part>, c: Client, exact: bool) {
    && UniqueTexts(parts)
    && TextsOk(c, parts, exact)
    && OthersUntouched(c, parts)
    && NoticesOk(c, parts, exact)
    && (exact ==> StatesOk(c, parts))
  }

  /** The first `n` parts have been restored. */
  ghost predicate Done(c: Client, parts: seq<Part>, n: nat) {
    && n <= |parts|
    && (forall i | 0 <= i < n && parts[i].TextPart? :: TextOk(c, parts[i], true))
    && (forall q :: CountNotices(parts[..n], q) <= Lookup(c.ordinals, q))
    && (forall i | 0 <= i < n && parts[i].Stateful? :: Known(parts[i].identity) in c.states)
  }

  /** The parts the Host has once these changes are made. */
  ghost function Replay(parts: seq<Part>, changes: seq<Change>): Option<seq<Part>>
    decreases |changes|
  {
    if changes == [] then Some(parts)
    else if !Sensible(parts, changes[0]) then None
    else Replay(HostChange(parts, changes[0]), changes[1..])
  }

  ghost predicate Inv(w: World) {
    match w.link
    case Following(seen, backlog) => Fits(seen, w.client, true) && Replay(seen, backlog) == Some(w.parts)
    case Restoring(seen, done, backlog) =>
      Fits(seen, w.client, false) && Done(w.client, seen, done) && Replay(seen, backlog) == Some(w.parts)
    case Lost => Fits(w.parts, w.client, false)
  }

  // ---------- Restoring one part ----------

  lemma RestoreOneText(c: Client, part: Part, index: nat, ordinal: nat, id: Id)
    ensures var c' := RestorePart(c, part, index, ordinal);
      if part.TextPart? && part.id == id then TextOk(c, part, false) ==> TextOk(c', part, true)
      else EmittedText(c'.emitted, id) == EmittedText(c.emitted, id) && Lookup(c'.lengths, id) == Lookup(c.lengths, id)
  {
    hide EmittedText, EmittedNotices;
    match part
    case TextPart(own, reasoning, content) =>
      EmitOne(c.emitted, TextOut(own, reasoning, Rest(Lookup(c.lengths, own), content)));
      PrefixAndRest(EmittedText(c.emitted, own), content);
    case Notice(q) => EmitOne(c.emitted, NoticeOut(q));
    case Stateful(q) => EmitOne(c.emitted, StateOut(q));
    case Unknown =>
  }

  lemma PrefixAndRest(before: Text, content: Text)
    ensures before <= content ==> before + Rest(|before|, content) == content
  {
  }

  lemma RestoreOneNotice(c: Client, part: Part, index: nat, ordinal: nat, q: Id)
    requires part == Notice(q) ==> ordinal <= Lookup(c.ordinals, q) + 1
    requires EmittedNotices(c.emitted, q) == Lookup(c.ordinals, q)
    ensures var c' := RestorePart(c, part, index, ordinal);
      && EmittedNotices(c'.emitted, q) == Lookup(c'.ordinals, q)
      && Lookup(c'.ordinals, q) == if part == Notice(q) && ordinal > Lookup(c.ordinals, q) then ordinal
                                   else Lookup(c.ordinals, q)
  {
    hide EmittedText, EmittedNotices, Rest;
    match part
    case TextPart(own, reasoning, content) =>
      EmitOne(c.emitted, TextOut(own, reasoning, Rest(Lookup(c.lengths, own), content)));
    case Notice(own) => EmitOne(c.emitted, NoticeOut(own));
    case Stateful(own) => EmitOne(c.emitted, StateOut(own));
    case Unknown =>
  }

  lemma CountStep(parts: seq<Part>, n: nat, q: Id)
    requires 0 < n <= |parts|
    ensures CountNotices(parts[..n], q) == CountNotices(parts[..n - 1], q) + if parts[n - 1] == Notice(q) then 1 else 0
  {
    assert parts[..n][..n - 1] == parts[..n - 1];
  }

  lemma {:induction false} CountMonotone(parts: seq<Part>, n: nat, q: Id)
    requires n <= |parts|
    ensures CountNotices(parts[..n], q) <= CountNotices(parts, q)
    decreases |parts| - n
  {
    if n < |parts| {
      CountStep(parts, n + 1, q);
      CountMonotone(parts, n + 1, q);
    } else {
      assert parts[..n] == parts;
    }
  }

  /** Restoring the next part completes it and spoils none. */
  lemma PartKeeps(c: Client, parts: seq<Part>, n: nat)
    requires Fits(parts, c, false) && Done(c, parts, n) && n < |parts|
    ensures var c' := RestorePart(c, parts[n], n, Ordinal(parts, n + 1));
      Fits(parts, c', false) && Done(c', parts, n + 1)
  {
    PartTexts(c, parts, n);
    PartNotices(c, parts, n);
    PartStates(c, parts[n], n, Ordinal(parts, n + 1));
    hide RestorePart, UniqueTexts, TextsOk, OthersUntouched, NoticesOk, CountNotices, TextOk, Ordinal;
  }

  lemma PartStates(c: Client, part: Part, index: nat, ordinal: nat)
    ensures var c' := RestorePart(c, part, index, ordinal);
      && c.states <= c'.states && (part.Stateful? ==> Known(part.identity) in c'.states)
  {
  }

  lemma PartTexts(c: Client, parts: seq<Part>, n: nat)
    requires Fits(parts, c, false) && Done(c, parts, n) && n < |parts|
    ensures var c' := RestorePart(c, parts[n], n, Ordinal(parts, n + 1));
      && TextsOk(c', parts, false) && OthersUntouched(c', parts)
      && forall i | 0 <= i <= n && parts[i].TextPart? :: TextOk(c', parts[i], true)
  {
    hide RestorePart, EmittedText, CountNotices, Ordinal, NoticesOk, StatesOk;
    var c' := RestorePart(c, parts[n], n, Ordinal(parts, n + 1));
    forall i | 0 <= i < |parts| && parts[i].TextPart?
      ensures TextOk(c', parts[i], false) && (i <= n ==> TextOk(c', parts[i], true)) {
      assert TextOk(c, parts[i], false);
      RestoreOneText(c, parts[n], n, Ordinal(parts, n + 1), parts[i].id);
    }
    forall id | !HasText(parts, id) ensures Untouched(c', id) {
      assert Untouched(c, id);
      RestoreOneText(c, parts[n], n, Ordinal(parts, n + 1), id);
    }
  }

  lemma PartNotices(c: Client, parts: seq<Part>, n: nat)
    requires Fits(parts, c, false) && Done(c, parts, n) && n < |parts|
    ensures var c' := RestorePart(c, parts[n], n, Ordinal(parts, n + 1));
      NoticesOk(c', parts, false) && forall q :: CountNotices(parts[..n + 1], q) <= Lookup(c'.ordinals, q)
  {
    hide RestorePart, EmittedNotices, CountNotices, TextsOk, StatesOk, OthersUntouched, UniqueTexts;
    var c' := RestorePart(c, parts[n], n, Ordinal(parts, n + 1));
    forall q ensures NoticeOk(c', parts, q, false) && CountNotices(parts[..n + 1], q) <= Lookup(c'.ordinals, q) {
      assert NoticeOk(c, parts, q, false) && CountNotices(parts[..n], q) <= Lookup(c.ordinals, q);
      CountStep(parts, n + 1, q);
      CountMonotone(parts, n + 1, q);
      RestoreOneNotice(c, parts[n], n, Ordinal(parts, n + 1), q);
    }
  }

  /** With all parts restored, everything of the snapshot has been given out. */
  lemma AllDone(c: Client, parts: seq<Part>)
    requires Fits(parts, c, false) && Done(c, parts, |parts|)
    ensures Fits(parts, c, true)
  {
    hide TextOk, CountNotices, EmittedNotices, UniqueTexts, OthersUntouched;
    assert parts[..|parts|] == parts;
    forall q ensures NoticeOk(c, parts, q, true) {
      assert NoticeOk(c, parts, q, false) && CountNotices(parts[..|parts|], q) <= Lookup(c.ordinals, q);
    }
  }

  lemma NoneDone(c: Client, parts: seq<Part>)
    ensures Done(c, parts, 0)
  {
    assert parts[..0] == [];
  }

  lemma {:induction false} RestoreKeeps(c: Client, parts: seq<Part>, n: nat)
    requires Fits(parts, c, false) && n <= |parts|
    ensures Fits(parts, RestoreUpTo(c, parts, n), false) && Done(RestoreUpTo(c, parts, n), parts, n)
    decreases n
  {
    hide Fits, Done, RestorePart, Ordinal;
    if n == 0 {
      NoneDone(c, parts);
    } else {
      RestoreKeeps(c, parts, n - 1);
      PartKeeps(RestoreUpTo(c, parts, n - 1), parts, n - 1);
    }
  }

  /** What a restore leaves in the maps. */
  lemma {:induction false} RestoreRecords(c: Client, parts: seq<Part>, n: nat)
    requires n <= |parts|
    ensures var c' := RestoreUpTo(c, parts, n);
      && c.states <= c'.states && c.lengths.Keys <= c'.lengths.Keys
      && (forall i | 0 <= i < n && parts[i].Unknown? :: AtIndex(i) in c'.states)
      && (forall i | 0 <= i < n && parts[i].TextPart? :: parts[i].id in c'.lengths)
    decreases n
  {
    if n == 0 {
    } else {
      RestoreRecords(c, parts, n - 1);
    }
  }

  // ---------- Changes of the Host ----------

  lemma {:induction false} CountUpdate(parts: seq<Part>, i: nat, part: Part, q: Id)
    requires i < |parts| && !parts[i].Notice? && !part.Notice?
    ensures CountNotices(parts[i := part], q) == CountNotices(parts, q)
    decreases |parts|
  {
    var last := |parts| - 1;
    if i < last {
      CountUpdate(parts[..last], i, part, q);
      assert parts[i := part][..last] == parts[..last][i := part];
    } else {
      assert parts[i := part][..last] == parts[..last];
    }
  }

  lemma CountAppend(parts: seq<Part>, part: Part, q: Id)
    ensures CountNotices(parts + [part], q) == CountNotices(parts, q) + if part == Notice(q) then 1 else 0
  {
    assert (parts + [part])[..|parts|] == parts;
  }

  lemma NewPartKeeps(parts: seq<Part>, c: Client, exact: bool, part: Part)
    requires Fits(parts, c, exact) && Sensible(parts, NewPart(part))
    ensures Fits(parts + [part], c, false)
    ensures exact ==> Fits(parts + [part], Deliver(c, NewPart(part), false), true)
  {
    HeardPartTexts(parts, c, exact, part);
    HeardPartNotices(parts, c, exact, part);
    HeardPartStates(parts, c, exact, part);
    hide UniqueTexts, TextsOk, OthersUntouched, NoticesOk, StatesOk, Deliver;
  }

  lemma HeardPartStates(parts: seq<Part>, c: Client, exact: bool, part: Part)
    requires Fits(parts, c, exact)
    ensures exact ==> StatesOk(Deliver(c, NewPart(part), false), parts + [part])
  {
    hide TextsOk, OthersUntouched, NoticesOk, UniqueTexts;
  }

  lemma HeardPartNotices(parts: seq<Part>, c: Client, exact: bool, part: Part)
    requires Fits(parts, c, exact)
    ensures NoticesOk(c, parts + [part], false)
    ensures exact ==> NoticesOk(Deliver(c, NewPart(part), false), parts + [part], true)
  {
    hide TextsOk, OthersUntouched, StatesOk, UniqueTexts;
    var c' := Deliver(c, NewPart(part), false);
    if part.TextPart? { EmitOne(c.emitted, TextOut(part.id, part.reasoning, part.content)); }
    if part.Notice? { EmitOne(c.emitted, NoticeOut(part.identity)); }
    if part.Stateful? { EmitOne(c.emitted, StateOut(part.identity)); }
    hide EmittedNotices, EmittedText;
    forall q ensures NoticeOk(c, parts + [part], q, false) && (exact ==> NoticeOk(c', parts + [part], q, true)) {
      assert NoticeOk(c, parts, q, exact);
      CountAppend(parts, part, q);
      hide CountNotices;
    }
  }

  lemma HeardPartTexts(parts: seq<Part>, c: Client, exact: bool, part: Part)
    requires Fits(parts, c, exact) && Sensible(parts, NewPart(part))
    ensures var more := parts + [part];
      && UniqueTexts(more) && TextsOk(c, more, false) && OthersUntouched(c, more)
      && var c' := Deliver(c, NewPart(part), false);
      (exact ==> TextsOk(c', more, true) && OthersUntouched(c', more))
  {
    hide NoticesOk, StatesOk;
    var more := parts + [part];
    var c' := Deliver(c, NewPart(part), false);
    if part.TextPart? {
      EmitOne(c.emitted, TextOut(part.id, part.reasoning, part.content));
      assert Untouched(c, part.id);
    }
    if part.Notice? { EmitOne(c.emitted, NoticeOut(part.identity)); }
    if part.Stateful? { EmitOne(c.emitted, StateOut(part.identity)); }
    hide EmittedText, EmittedNotices;
    forall i | 0 <= i < |more| && more[i].TextPart?
      ensures TextOk(c, more[i], false) && (exact ==> TextOk(c', more[i], true)) {
      if i < |parts| {
        assert TextOk(c, parts[i], exact) && HasText(parts, more[i].id);
      }
    }
    forall id | !HasText(more, id) ensures Untouched(c, id) && Untouched(c', id) {
      if part.TextPart? { assert more[|parts|].id == part.id; }
      forall i | 0 <= i < |parts| && parts[i].TextPart? ensures parts[i].id != id {
        assert more[i] == parts[i];
      }
      assert !HasText(parts, id);
    }
  }

  predicate SameText(a: Part, b: Part) {
    a.TextPart? == b.TextPart? && (a.TextPart? ==> a.id == b.id)
  }

  lemma SameTexts(parts: seq<Part>, parts': seq<Part>)
    requires |parts| == |parts'|
    requires forall i | 0 <= i < |parts| :: SameText(parts[i], parts'[i])
    ensures forall id :: HasText(parts, id) == HasText(parts', id)
    ensures UniqueTexts(parts) ==> UniqueTexts(parts')
  {
  }

  lemma NewStateKeeps(parts: seq<Part>, c: Client, exact: bool, index: nat, identity: Id)
    requires Fits(parts, c, exact) && Sensible(parts, NewState(index, identity))
    ensures var parts' := HostChange(parts, NewState(index, identity));
      Fits(parts', c, false) && (exact ==> Fits(parts', Deliver(c, NewState(index, identity), false), true))
  {
    var parts' := HostChange(parts, NewState(index, identity));
    SameTexts(parts, parts');
    EmitOne(c.emitted, StateOut(identity));
    hide EmittedText, EmittedNotices, HasText, UniqueTexts;
    var c' := Deliver(c, NewState(index, identity), false);
    forall q ensures NoticeOk(c, parts', q, false) && (exact ==> NoticeOk(c', parts', q, true)) {
      assert NoticeOk(c, parts, q, exact);
      CountUpdate(parts, index, Stateful(identity), q);
      hide CountNotices;
    }
    forall i | 0 <= i < |parts'| && parts'[i].TextPart?
      ensures TextOk(c, parts'[i], false) && (exact ==> TextOk(c', parts'[i], true)) {
      assert TextOk(c, parts[i], exact);
    }
    forall id | !HasText(parts', id) ensures Untouched(c, id) && Untouched(c', id) {
      assert Untouched(c, id);
    }
    hide CountNotices;
  }

  lemma DeltaKeeps(parts: seq<Part>, c: Client, exact: bool, id: Id, text: Text, reasoning: bool)
    requires Fits(parts, c, exact) && HasText(parts, id)
    ensures var parts' := HostChange(parts, Delta(id, text));
      Fits(parts', c, false) && (exact ==> Fits(parts', Deliver(c, Delta(id, text), reasoning), true))
  {
    var parts' := HostChange(parts, Delta(id, text));
    var at := IndexOfText(parts, id);
    var c' := Deliver(c, Delta(id, text), reasoning);
    SameTexts(parts, parts');
    EmitOne(c.emitted, TextOut(id, reasoning, text));
    hide EmittedText, EmittedNotices, IndexOfText;
    forall q ensures NoticeOk(c, parts', q, false) && (exact ==> NoticeOk(c', parts', q, true)) {
      assert NoticeOk(c, parts, q, exact);
      CountUpdate(parts, at, parts'[at], q);
      hide CountNotices;
    }
    forall i | 0 <= i < |parts'| && parts'[i].TextPart?
      ensures TextOk(c, parts'[i], false) && (exact ==> TextOk(c', parts'[i], true)) {
      assert TextOk(c, parts[i], exact);
    }
    forall other | !HasText(parts', other) ensures Untouched(c, other) && Untouched(c', other) {
      assert Untouched(c, other) && other != id;
    }
    hide CountNotices, HasText, UniqueTexts;
  }

  lemma ChangeKeeps(parts: seq<Part>, c: Client, exact: bool, change: Change)
    requires Fits(parts, c, exact) && Sensible(parts, change)
    ensures Fits(HostChange(parts, change), c, false)
    ensures exact ==> Fits(HostChange(parts, change), Deliver(c, change, ReasoningOf(parts, change)), true)
  {
    hide Fits;
    match change
    case Delta(id, text) => DeltaKeeps(parts, c, exact, id, text, ReasoningOf(parts, change));
    case NewPart(part) => NewPartKeeps(parts, c, exact, part);
    case NewState(index, identity) => NewStateKeeps(parts, c, exact, index, identity);
  }

  /** Changes the client has not heard leave everything it gave out valid. */
  lemma {:induction false} BacklogKeeps(parts: seq<Part>, c: Client, exact: bool, changes: seq<Change>)
    requires Fits(parts, c, exact) && Replay(parts, changes).Some?
    ensures Fits(Replay(parts, changes).value, c, false)
    decreases |changes|
  {
    hide HostChange, Sensible;
    if changes == [] {
      hide TextOk, NoticeOk;
      Loosens(parts, c, exact);
    } else {
      hide Fits;
      ChangeKeeps(parts, c, exact, changes[0]);
      BacklogKeeps(HostChange(parts, changes[0]), c, false, changes[1..]);
    }
  }

  lemma Loosens(parts: seq<Part>, c: Client, exact: bool)
    requires Fits(parts, c, exact)
    ensures Fits(parts, c, false)
  {
    hide EmittedText, EmittedNotices, CountNotices, OthersUntouched, UniqueTexts, StatesOk;
    forall i | 0 <= i < |parts| && parts[i].TextPart? ensures TextOk(c, parts[i], false) {
      assert TextOk(c, parts[i], exact);
    }
    forall q ensures NoticeOk(c, parts, q, false) {
      assert NoticeOk(c, parts, q, exact);
    }
  }

  lemma {:induction false} ReplayMore(parts: seq<Part>, changes: seq<Change>, change: Change)
    requires Replay(parts, changes).Some? && Sensible(Replay(parts, changes).value, change)
    ensures Replay(parts, changes + [change]) == Some(HostChange(Replay(parts, changes).value, change))
    decreases |changes|
  {
    hide HostChange, Sensible;
    if changes == [] {
      assert [change][1..] == [];
      assert changes + [change] == [change];
      assert Replay(HostChange(parts, change), [change][1..]) == Some(HostChange(parts, change));
    } else {
      ReplayMore(HostChange(parts, changes[0]), changes[1..], change);
      assert (changes + [change])[1..] == changes[1..] + [change];
    }
  }

  // ---------- Runs ----------

  lemma ApplyKeeps(w: World, step: Step)
    requires Inv(w)
    ensures Inv(Apply(w, step))
  {
    hide Fits, Done, HostChange, Sensible, Deliver, RestorePart, Ordinal, ReasoningOf;
    match step
    case HostMoves(change) =>
      if Sensible(w.parts, change) {
        if w.link.Lost? { ChangeKeeps(w.parts, w.client, false, change); }
        else { ReplayMore(w.link.seen, w.link.backlog, change); }
      }
    case Hears =>
      if w.link.Following? && w.link.backlog != [] {
        ChangeKeeps(w.link.seen, w.client, true, w.link.backlog[0]);
      }
    case Disconnects =>
      InvFits(w);
      Loosens(w.parts, w.client, InStep(w));
    case TakesSnapshot =>
      InvFits(w);
      Loosens(w.parts, w.client, InStep(w));
      NoneDone(w.client, w.parts);
    case RestoresPart =>
      if w.link.Restoring? {
        DoneIsInside(w);
        if w.link.done == |w.link.seen| { AllDone(w.client, w.link.seen); }
        else { PartKeeps(w.client, w.link.seen, w.link.done); }
      }
  }

  lemma DoneIsInside(w: World)
    requires Inv(w) && w.link.Restoring?
    ensures w.link.done <= |w.link.seen|
  {
    hide Fits;
  }

  /** Whatever the link, what was given out is part of what the Host has now. */
  lemma InvFits(w: World)
    requires Inv(w)
    ensures Fits(w.parts, w.client, InStep(w))
  {
    hide Fits, Done, HostChange, Sensible;
    match w.link
    case Following(seen, backlog) => if backlog != [] { BacklogKeeps(seen, w.client, true, backlog); }
    case Restoring(seen, done, backlog) => BacklogKeeps(seen, w.client, false, backlog);
    case Lost =>
  }

  lemma {:induction false} RunKeeps(w: World, steps: seq<Step>)
    requires Inv(w)
    ensures Inv(Run(w, steps))
    decreases |steps|
  {
    hide Inv, Apply;
    if steps == [] {
    } else {
      ApplyKeeps(w, steps[0]);
      RunKeeps(Apply(w, steps[0]), steps[1..]);
    }
  }

  lemma ReachableIsFine(steps: seq<Step>)
    ensures Inv(Run(START, steps)) && Fits(Run(START, steps).parts, Run(START, steps).client, InStep(Run(START, steps)))
  {
    hide Inv, Run, Fits;
    StartIsFine();
    RunKeeps(START, steps);
    InvFits(Run(START, steps));
  }

  lemma StartIsFine()
    ensures Inv(START)
  {
  }

  // ---------- The promises ----------

  /**
   At all times, in the middle of a restore too, the text given out of a part is a prefix of it, and in step with the
   Host it is all of it.
   */
  lemma TextIsNeverLostOrRepeated(steps: seq<Step>, i: nat)
    requires i < |Run(START, steps).parts| && Run(START, steps).parts[i].TextPart?
    ensures var w := Run(START, steps);
      && EmittedText(w.client.emitted, w.parts[i].id) <= w.parts[i].content
      && (InStep(w) ==> EmittedText(w.client.emitted, w.parts[i].id) == w.parts[i].content)
  {
    ReachableIsFine(steps);
    hide Run, EmittedText, NoticesOk, StatesOk, OthersUntouched, UniqueTexts, Inv;
    var w := Run(START, steps);
    assert TextOk(w.client, w.parts[i], InStep(w));
  }

  /** In the middle of a restore the parts already restored are complete as far as the snapshot goes. */
  lemma RestoredPartsAreComplete(steps: seq<Step>, i: nat)
    requires var w := Run(START, steps); w.link.Restoring? && i < w.link.done && i < |w.link.seen| && w.link.seen[i].TextPart?
    ensures var w := Run(START, steps); EmittedText(w.client.emitted, w.link.seen[i].id) == w.link.seen[i].content
  {
    ReachableIsFine(steps);
    hide Run, EmittedText, Fits;
    var w := Run(START, steps);
    assert TextOk(w.client, w.link.seen[i], true);
  }

  /** Notifications are given out as often as the Host has them, never more, and exactly so when in step. */
  lemma NoticesAreCounted(steps: seq<Step>, q: Id)
    ensures var w := Run(START, steps);
      && EmittedNotices(w.client.emitted, q) <= CountNotices(w.parts, q)
      && (InStep(w) ==> EmittedNotices(w.client.emitted, q) == CountNotices(w.parts, q))
  {
    ReachableIsFine(steps);
    hide Run, EmittedNotices, CountNotices, TextsOk, StatesOk, OthersUntouched, UniqueTexts, Inv;
    var w := Run(START, steps);
    assert NoticeOk(w.client, w.parts, q, InStep(w));
  }

  /** Restoring the same snapshot again changes nothing and emits nothing. */
  lemma RestoringTwiceIsOnce(steps: seq<Step>)
    ensures var w := Run(START, steps);
      Restore(Restore(w.client, w.parts), w.parts) == Restore(w.client, w.parts)
  {
    var w := Run(START, steps);
    hide Inv, Run, RestoreUpTo, Fits, Done;
    ReachableIsFine(steps);
    hide InStep;
    Loosens(w.parts, w.client, InStep(w));
    RestoreKeeps(w.client, w.parts, |w.parts|);
    AllDone(Restore(w.client, w.parts), w.parts);
    RestoreRecords(w.client, w.parts, |w.parts|);
    SettledRestore(Restore(w.client, w.parts), w.parts, |w.parts|);
  }

  lemma {:induction false} SettledRestore(c: Client, parts: seq<Part>, n: nat)
    requires Fits(parts, c, true) && n <= |parts|
    requires forall i | 0 <= i < |parts| && parts[i].Unknown? :: AtIndex(i) in c.states
    requires forall i | 0 <= i < |parts| && parts[i].TextPart? :: parts[i].id in c.lengths
    ensures RestoreUpTo(c, parts, n) == c
    decreases n
  {
    hide Fits, RestorePart;
    if n == 0 {
    } else {
      SettledRestore(c, parts, n - 1);
      SettledPart(c, parts, n);
    }
  }

  lemma SettledPart(c: Client, parts: seq<Part>, n: nat)
    requires Fits(parts, c, true) && 0 < n <= |parts|
    requires parts[n - 1].Unknown? ==> AtIndex(n - 1) in c.states
    requires parts[n - 1].TextPart? ==> parts[n - 1].id in c.lengths
    ensures RestorePart(c, parts[n - 1], n - 1, Ordinal(parts, n)) == c
  {
    hide EmittedText, EmittedNotices, OthersUntouched, UniqueTexts;
    var part := parts[n - 1];
    if part.TextPart? {
      assert TextOk(c, part, true);
    }
    if part.Notice? {
      assert NoticeOk(c, parts, part.identity, true);
      CountMonotone(parts, n, part.identity);
    }
    if part.Unknown? {
      assert c.states + {AtIndex(n - 1)} == c.states;
    }
    hide CountNotices;
  }

  // ---------- Tool states and the kind of text ----------

  /** A state counts as shown exactly when it was given out. */
  ghost predicate StatesTold(c: Client) {
    forall q :: Known(q) in c.states <==> StateOut(q) in c.emitted
  }

  predicate HasKind(parts: seq<Part>, id: Id, reasoning: bool) {
    exists i :: 0 <= i < |parts| && parts[i].TextPart? && parts[i].id == id && parts[i].reasoning == reasoning
  }

  /** Text is given out as what its part is, reasoning or answer. */
  ghost predicate KindsTold(c: Client, parts: seq<Part>) {
    forall e | e in c.emitted && e.TextOut? :: HasKind(parts, e.id, e.reasoning)
  }

  ghost predicate KindsWithin(parts: seq<Part>, more: seq<Part>) {
    forall id, reasoning | HasKind(parts, id, reasoning) :: HasKind(more, id, reasoning)
  }

  lemma ChangeKeepsKinds(parts: seq<Part>, change: Change)
    requires Sensible(parts, change)
    ensures KindsWithin(parts, HostChange(parts, change))
  {
    var parts' := HostChange(parts, change);
    forall id, reasoning | HasKind(parts, id, reasoning) ensures HasKind(parts', id, reasoning) {
      var i :| 0 <= i < |parts| && parts[i].TextPart? && parts[i].id == id && parts[i].reasoning == reasoning;
      assert parts'[i].TextPart? && parts'[i].id == id && parts'[i].reasoning == reasoning;
    }
  }

  lemma {:induction false} ReplayKeepsKinds(parts: seq<Part>, changes: seq<Change>)
    requires Replay(parts, changes).Some?
    ensures KindsWithin(parts, Replay(parts, changes).value)
    decreases |changes|
  {
    hide HostChange, Sensible, HasKind;
    if changes == [] {
    } else {
      ChangeKeepsKinds(parts, changes[0]);
      ReplayKeepsKinds(HostChange(parts, changes[0]), changes[1..]);
    }
  }

  lemma SeenIsWithin(w: World)
    requires Inv(w) && !w.link.Lost?
    ensures KindsWithin(w.link.seen, w.parts)
  {
    hide Fits, Done, KindsWithin;
    ReplayKeepsKinds(w.link.seen, w.link.backlog);
  }

  lemma DeliverTells(c: Client, parts: seq<Part>, all: seq<Part>, change: Change)
    requires StatesTold(c) && KindsTold(c, all) && Sensible(parts, change)
    requires KindsWithin(parts, all) && KindsWithin(HostChange(parts, change), all)
    ensures var c' := Deliver(c, change, ReasoningOf(parts, change)); StatesTold(c') && KindsTold(c', all)
  {
    match change
    case Delta(id, _) =>
      var i := IndexOfText(parts, id);
      assert HasKind(parts, id, parts[i].reasoning);
      hide HasKind;
    case NewPart(part) =>
      if part.TextPart? {
        assert HostChange(parts, change)[|parts|] == part;
        assert HasKind(HostChange(parts, change), part.id, part.reasoning);
      }
      hide HasKind;
    case NewState(_, _) => hide HasKind;
  }

  /** Restoring gives out a state exactly when it was not given out before, and text as what its part is. */
  lemma RestoreTells(c: Client, parts: seq<Part>, all: seq<Part>, n: nat)
    requires StatesTold(c) && KindsTold(c, all) && n < |parts| && KindsWithin(parts, all)
    ensures var c' := RestorePart(c, parts[n], n, Ordinal(parts, n + 1));
      && StatesTold(c') && KindsTold(c', all)
      && (parts[n].Stateful? ==>
            c'.emitted == if StateOut(parts[n].identity) in c.emitted then c.emitted else c.emitted + [StateOut(parts[n].identity)])
  {
    if parts[n].TextPart? { assert HasKind(parts, parts[n].id, parts[n].reasoning); }
    hide HasKind, Ordinal, Rest;
  }

  ghost predicate Told(w: World) {
    StatesTold(w.client) && KindsTold(w.client, w.parts)
  }

  lemma KindsStay(c: Client, parts: seq<Part>, more: seq<Part>)
    requires KindsTold(c, parts) && KindsWithin(parts, more)
    ensures KindsTold(c, more)
  {
    hide HasKind;
  }

  lemma StepTells(w: World, step: Step)
    requires Inv(w) && Told(w)
    ensures Told(Apply(w, step))
  {
    ApplyKeeps(w, step);
    if !w.link.Lost? { SeenIsWithin(w); }
    if !Apply(w, step).link.Lost? { SeenIsWithin(Apply(w, step)); }
    hide Inv, HostChange, Sensible, Deliver, RestorePart, Ordinal, ReasoningOf, StatesTold, KindsTold, KindsWithin;
    match step
    case HostMoves(change) =>
      if Sensible(w.parts, change) {
        ChangeKeepsKinds(w.parts, change);
        KindsStay(w.client, w.parts, HostChange(w.parts, change));
      }
    case Hears =>
      if w.link.Following? && w.link.backlog != [] && Sensible(w.link.seen, w.link.backlog[0]) {
        DeliverTells(w.client, w.link.seen, w.parts, w.link.backlog[0]);
      }
    case RestoresPart =>
      if w.link.Restoring? && w.link.done < |w.link.seen| {
        RestoreTells(w.client, w.link.seen, w.parts, w.link.done);
      }
    case _ =>
  }

  lemma {:induction false} RunTells(w: World, steps: seq<Step>)
    requires Inv(w) && Told(w)
    ensures Inv(Run(w, steps)) && Told(Run(w, steps))
    decreases |steps|
  {
    hide Inv, Told, Apply;
    if steps == [] {
    } else {
      ApplyKeeps(w, steps[0]);
      StepTells(w, steps[0]);
      RunTells(Apply(w, steps[0]), steps[1..]);
    }
  }

  /**
   No tool state is lost: over every run a state counts as shown exactly when it was given out; in step with the Host
   every state the Host has was given out, and in the middle of a restore every one among the parts restored so far.
   */
  lemma StatesAreTold(steps: seq<Step>, i: nat)
    ensures var w := Run(START, steps);
      && (forall q :: Known(q) in w.client.states <==> StateOut(q) in w.client.emitted)
      && (InStep(w) && i < |w.parts| && w.parts[i].Stateful? ==> StateOut(w.parts[i].identity) in w.client.emitted)
      && (w.link.Restoring? && i < w.link.done && i < |w.link.seen| && w.link.seen[i].Stateful? ==>
            StateOut(w.link.seen[i].identity) in w.client.emitted)
  {
    var w := Run(START, steps);
    StartIsFine();
    RunTells(START, steps);
    InvFits(w);
    hide Run, TextsOk, OthersUntouched, NoticesOk, UniqueTexts, KindsTold, Replay, TextOk, CountNotices;
  }

  /** Every text given out carries the kind of its part. */
  lemma TextKeepsItsKind(steps: seq<Step>, e: Emission, i: nat)
    requires var w := Run(START, steps);
      e in w.client.emitted && e.TextOut? && i < |w.parts| && w.parts[i].TextPart? && w.parts[i].id == e.id
    ensures e.reasoning == Run(START, steps).parts[i].reasoning
  {
    var w := Run(START, steps);
    StartIsFine();
    RunTells(START, steps);
    InvFits(w);
    hide Run, TextsOk, OthersUntouched, NoticesOk, StatesOk, Inv, StatesTold;
    assert HasKind(w.parts, e.id, e.reasoning);
    var j :| 0 <= j < |w.parts| && w.parts[j].TextPart? && w.parts[j].id == e.id && w.parts[j].reasoning == e.reasoning;
    assert UniqueTexts(w.parts);
    assert i == j;
  }

  /** One restore, on every reachable client: a state of the snapshot is given out exactly when it was not before. */
  lemma RestoringTellsOnce(steps: seq<Step>)
    requires var w := Run(START, steps); w.link.Restoring? && w.link.done < |w.link.seen| && w.link.seen[w.link.done].Stateful?
    ensures var w := Run(START, steps); var q := w.link.seen[w.link.done].identity;
      Apply(w, RestoresPart).client.emitted ==
        if StateOut(q) in w.client.emitted then w.client.emitted else w.client.emitted + [StateOut(q)]
  {
    var w := Run(START, steps);
    StartIsFine();
    RunTells(START, steps);
    SeenIsWithin(w);
    hide Run, Inv, KindsWithin, StatesTold, KindsTold, Ordinal, RestorePart;
    RestoreTells(w.client, w.link.seen, w.parts, w.link.done);
  }
}
