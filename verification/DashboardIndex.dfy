/**
 The bounded index of recent tasks: `rememberDashboardRecord` of src/broker/BrokerTaskService.ts.  The
 JavaScript Map it updates is a sequence of entries in insertion order.
 */
module DashboardIndex {
  import opened Wrappers

  datatype Entry = Entry(key: nat, terminal: bool, version: nat)

  const LIMIT: nat := 1000

  ghost predicate UniqueKeys(entries: seq<Entry>) {
    forall i, j | 0 <= i < j < |entries| :: entries[i].key != entries[j].key
  }

  function Without(entries: seq<Entry>, key: nat): (rest: seq<Entry>)
    ensures |rest| <= |entries|
    ensures forall e | e in rest :: e in entries && e.key != key
    ensures forall e | e in entries && e.key != key :: e in rest
  {
    if entries == [] then [] else (if entries[0].key == key then [] else [entries[0]]) + Without(entries[1..], key)
  }

  /** The entry the loop deletes: the oldest finished task, or the oldest task when none has finished. */
  function Victim(entries: seq<Entry>): (i: nat)
    requires entries != []
    ensures i < |entries|
    ensures entries[i].terminal || (i == 0 && forall e | e in entries :: !e.terminal)
    ensures forall j | 0 <= j < i :: !entries[j].terminal
  {
    var i := FirstTerminal(entries);
    if i < |entries| then i else 0
  }

  function FirstTerminal(entries: seq<Entry>): (i: nat)
    ensures i <= |entries| && (i < |entries| ==> entries[i].terminal)
    ensures forall j | 0 <= j < i :: !entries[j].terminal
  {
    if entries == [] || entries[0].terminal then 0 else 1 + FirstTerminal(entries[1..])
  }

  function Delete(entries: seq<Entry>, i: nat): seq<Entry>
    requires i < |entries|
  {
    entries[..i] + entries[i + 1..]
  }

  function Trim(entries: seq<Entry>): seq<Entry>
    decreases |entries|
  {
    if |entries| <= LIMIT then entries else Trim(Delete(entries, Victim(entries)))
  }

  function Remembered(entries: seq<Entry>, e: Entry): seq<Entry> {
    Trim(Without(entries, e.key) + [e])
  }

  lemma {:induction false} WithoutKeepsUnique(entries: seq<Entry>, key: nat)
    requires UniqueKeys(entries)
    ensures UniqueKeys(Without(entries, key))
  {
    if entries == [] {
    } else {
      WithoutKeepsUnique(entries[1..], key);
      var rest := Without(entries[1..], key);
      forall i | 0 <= i < |rest| ensures rest[i].key != entries[0].key {
        assert rest[i] in entries[1..];
      }
    }
  }

  lemma DeleteKeepsUnique(entries: seq<Entry>, i: nat)
    requires UniqueKeys(entries) && i < |entries|
    ensures UniqueKeys(Delete(entries, i))
  {
  }

  lemma {:induction false} TrimKeepsUnique(entries: seq<Entry>)
    requires UniqueKeys(entries)
    ensures UniqueKeys(Trim(entries)) && |Trim(entries)| <= LIMIT
    decreases |entries|
  {
    hide UniqueKeys, Delete, Victim;
    if |entries| <= LIMIT {
    } else {
      DeleteKeepsUnique(entries, Victim(entries));
      assert |Delete(entries, Victim(entries))| < |entries| by { DeleteIsShorter(entries, Victim(entries)); }
      TrimKeepsUnique(Delete(entries, Victim(entries)));
    }
  }

  lemma DeleteIsShorter(entries: seq<Entry>, i: nat)
    requires i < |entries|
    ensures |Delete(entries, i)| == |entries| - 1
    ensures forall e | e in entries :: e == entries[i] || e in Delete(entries, i)
  {
    forall e | e in entries ensures e == entries[i] || e in Delete(entries, i) {
      var j :| 0 <= j < |entries| && entries[j] == e;
      if j < i { assert Delete(entries, i)[j] == e; } else if j > i { assert Delete(entries, i)[j - 1] == e; }
    }
  }

  /**
   What remembering a record does to an index within its limit.  The record comes last, unless it is finished itself
   and the index is full of other active tasks: then it is dropped at once.  Of the others, a full index drops one:
   the oldest finished task, or the oldest task when all are active.
   */
  lemma RememberedIsFine(entries: seq<Entry>, e: Entry)
    requires UniqueKeys(entries) && |entries| <= LIMIT
    ensures var others, after := Without(entries, e.key), Remembered(entries, e);
      && UniqueKeys(after) && |after| <= LIMIT
      && (|others| < LIMIT ==> after == others + [e])
      && (e in after <==> |others| < LIMIT || !e.terminal || exists x :: x in others && x.terminal)
      && (e in after ==> after[|after| - 1] == e)
      && (e !in after ==> after == others)
      && (|others| == LIMIT && e in after ==> exists i :: OldestGoes(others, after, i, e))
  {
    var others := Without(entries, e.key);
    var whole := others + [e];
    WithoutKeepsUnique(entries, e.key);
    assert UniqueKeys(whole);
    TrimKeepsUnique(whole);
    if |whole| > LIMIT {
      var i := Victim(whole);
      assert Delete(whole, i) == Remembered(entries, e);
      OneGoes(others, e, i);
    }
  }

  /** Entry `i` is the one that goes: the first that is finished, or the first of all when no task is finished. */
  ghost predicate OldestGoes(others: seq<Entry>, after: seq<Entry>, i: nat, e: Entry) {
    && i < |others| && after == Delete(others, i) + [e]
    && (forall j | 0 <= j < i :: !others[j].terminal)
    && (others[i].terminal || (i == 0 && !e.terminal && forall x | x in others :: !x.terminal))
  }

  lemma OneGoes(others: seq<Entry>, e: Entry, i: nat)
    requires |others| == LIMIT && UniqueKeys(others + [e]) && i == Victim(others + [e])
    ensures var after := Delete(others + [e], i);
      && (e in after <==> !e.terminal || exists x :: x in others && x.terminal)
      && (if e in after then after[|after| - 1] == e && OldestGoes(others, after, i, e) else after == others)
  {
    var whole := others + [e];
    var after := Delete(whole, i);
    assert whole[|others|] == e;
    if i == |others| {
      assert after == others;
      assert forall j | 0 <= j < |others| :: others[j].key != e.key;
      forall x | x in others ensures !x.terminal {
        var j :| 0 <= j < |others| && others[j] == x;
        assert !whole[j].terminal;
      }
    } else {
      assert after[|after| - 1] == e;
      assert after == Delete(others, i) + [e];
      assert whole[i] == others[i];
      forall x | x in others ensures x in whole { }
      assert e in whole;
      forall j | 0 <= j < i ensures !others[j].terminal { assert whole[j] == others[j]; }
    }
  }

  class Index {
    var entries: seq<Entry>

    ghost predicate Valid()
      reads this
    {
      UniqueKeys(entries) && |entries| <= LIMIT
    }

    constructor ()
      ensures Valid() && entries == []
    {
      entries := [];
    }

    /** `Map.delete`. */
    method DeleteKey(key: nat)
      modifies this
      ensures entries == Without(old(entries), key)
    {
      hide Without;
      var kept: seq<Entry> := [];
      var i := 0;
      while i < |entries|
        invariant 0 <= i <= |entries| && entries == old(entries)
        invariant kept == Without(entries[..i], key)
      {
        WithoutStep(entries, i, key);
        if entries[i].key != key {
          kept := kept + [entries[i]];
        } else {
          assert kept + [] == kept;
        }
        i := i + 1;
      }
      assert entries[..i] == entries;
      entries := kept;
    }

    method Remember(e: Entry)
      requires Valid()
      modifies this
      ensures Valid() && entries == Remembered(old(entries), e)
    {
      RememberedIsFine(entries, e);
      DeleteKey(e.key);
      entries := entries + [e];
      while |entries| > LIMIT
        invariant Trim(entries) == Remembered(old(entries), e)
        decreases |entries|
      {
        var i := 0;
        while i < |entries| && !entries[i].terminal
          invariant 0 <= i <= |entries|
          invariant forall j | 0 <= j < i :: !entries[j].terminal
        {
          i := i + 1;
        }
        FirstTerminalIs(entries, i);
        var victim := if i < |entries| then i else 0;
        entries := Delete(entries, victim);
      }
    }
  }

  function Kept(e: Entry, key: nat): seq<Entry> {
    if e.key == key then [] else [e]
  }

  lemma WithoutHead(entries: seq<Entry>, key: nat)
    requires entries != []
    ensures Without(entries, key) == Kept(entries[0], key) + Without(entries[1..], key)
  {
  }

  lemma Assoc(a: seq<Entry>, b: seq<Entry>, c: seq<Entry>)
    ensures (a + b) + c == a + (b + c)
  {
  }

  lemma {:induction false} WithoutStep(entries: seq<Entry>, i: nat, key: nat)
    requires i < |entries|
    ensures Without(entries[..i + 1], key) == Without(entries[..i], key) + Kept(entries[i], key)
    decreases i
  {
    hide Without, Kept;
    var longer := entries[..i + 1];
    WithoutHead(longer, key);
    if i == 0 {
      assert longer[1..] == [] && entries[..0] == [];
      EmptyRest(Kept(entries[0], key));
    } else {
      var shorter := entries[..i];
      WithoutHead(shorter, key);
      WithoutStep(entries[1..], i - 1, key);
      assert longer[1..] == entries[1..][..i] && shorter[1..] == entries[1..][..i - 1];
      Assoc(Kept(entries[0], key), Without(shorter[1..], key), Kept(entries[i], key));
    }
  }

  lemma EmptyRest(a: seq<Entry>)
    ensures forall key :: Without([], key) == [] && a + Without([], key) == a && Without([], key) + a == a
  {
  }

  lemma FirstTerminalIs(entries: seq<Entry>, i: nat)
    requires i <= |entries| && (i < |entries| ==> entries[i].terminal)
    requires forall j | 0 <= j < i :: !entries[j].terminal
    ensures FirstTerminal(entries) == i
  {
    hide FirstTerminal;
    var first := FirstTerminal(entries);
  }
}
