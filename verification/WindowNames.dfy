/**
 Unique window names: `allocateEffectiveFallback`, `effectiveWorkspaceNames` and `effectiveNodeLabels` of
 src/broker/PeerPolicyService.ts, and the document of src/broker/PeerPolicyStore.ts.

 `fold` is `foldWindowName`; all that is used of it is that it lower-cases ASCII text.  The fold of a name decides
 whether two names are the same.
 */
module WindowNames {
  import opened Wrappers
  import Sets
  import Sorting

  type Id = nat
  type Fold = string -> string

  predicate IsAscii(s: string) {
    forall i | 0 <= i < |s| :: s[i] as int < 128
  }

  function LowerChar(c: char): char
    requires c as int < 128
  {
    if 'A' <= c <= 'Z' then (c as int + 32) as char else c
  }

  function Lower(s: string): string
    requires IsAscii(s)
  {
    seq(|s|, i requires 0 <= i < |s| => LowerChar(s[i]))
  }

  ghost predicate FoldsAscii(fold: Fold) {
    forall s | IsAscii(s) :: fold(s) == Lower(s)
  }

  // ---------- Numbers in names ----------

  function Digits(n: nat): (digits: string)
    ensures |digits| > 0 && forall i | 0 <= i < |digits| :: '0' <= digits[i] <= '9'
  {
    if n < 10 then [('0' as int + n) as char] else Digits(n / 10) + [('0' as int + n % 10) as char]
  }

  function Number(digits: string): int {
    if digits == [] then 0 else 10 * Number(digits[..|digits| - 1]) + digits[|digits| - 1] as int - '0' as int
  }

  lemma {:induction false} DigitsReadBack(n: nat)
    ensures Number(Digits(n)) == n
    decreases n
  {
    var digits := Digits(n);
    if n < 10 {
      assert digits[..0] == [];
    } else {
      DigitsReadBack(n / 10);
      assert digits[..|digits| - 1] == Digits(n / 10);
    }
  }

  /** The names tried in turn, after the plain prefix. */
  function Numbered(prefix: string, index: nat, attempt: nat): string {
    prefix + "-" + Digits(index + 1) + if attempt == 0 then "" else "-" + Digits(attempt + 1)
  }

  lemma NumberedAscii(prefix: string, index: nat, attempt: nat)
    requires IsAscii(prefix)
    ensures IsAscii(Numbered(prefix, index, attempt))
    ensures Lower(Numbered(prefix, index, attempt))
         == Lower(prefix) + "-" + Digits(index + 1) + if attempt == 0 then "" else "-" + Digits(attempt + 1)
  {
    hide Digits;
    var tail := "-" + Digits(index + 1) + if attempt == 0 then "" else "-" + Digits(attempt + 1);
    assert Numbered(prefix, index, attempt) == prefix + tail;
    LowerConcat(prefix, tail);
    LowerPlain(tail);
    assert Lower(prefix) + tail
        == Lower(prefix) + "-" + Digits(index + 1) + if attempt == 0 then "" else "-" + Digits(attempt + 1);
  }

  lemma LowerConcat(a: string, b: string)
    requires IsAscii(a) && IsAscii(b)
    ensures IsAscii(a + b) && Lower(a + b) == Lower(a) + Lower(b)
  {
  }

  lemma LowerPlain(s: string)
    requires forall i | 0 <= i < |s| :: s[i] == '-' || '0' <= s[i] <= '9'
    ensures IsAscii(s) && Lower(s) == s
  {
  }

  /** Different attempts give names that differ even when folded. */
  lemma AttemptsDiffer(fold: Fold, prefix: string, index: nat, j: nat, k: nat)
    requires FoldsAscii(fold) && IsAscii(prefix) && j < k
    ensures fold(Numbered(prefix, index, j)) != fold(Numbered(prefix, index, k))
  {
    NumberedAscii(prefix, index, j);
    NumberedAscii(prefix, index, k);
    hide Digits, Lower, Numbered;
    var base := Lower(prefix) + "-" + Digits(index + 1);
    var a, b := fold(Numbered(prefix, index, j)), fold(Numbered(prefix, index, k));
    assert b == base + "-" + Digits(k + 1);
    if j == 0 {
      assert a == base;
    } else {
      assert a == base + "-" + Digits(j + 1);
      assert a[|base| + 1..] == Digits(j + 1) && b[|base| + 1..] == Digits(k + 1);
      DigitsReadBack(j + 1);
      DigitsReadBack(k + 1);
    }
  }

  // ---------- Searching for a free name ----------

  /** The `k`-th numbered name is the first one free. */
  ghost predicate FirstFree(fold: Fold, prefix: string, index: nat, used: set<string>, k: nat) {
    && fold(Numbered(prefix, index, k)) !in used
    && forall j | 0 <= j < k :: fold(Numbered(prefix, index, j)) in used
  }

  /**
   The search common to both allocators ends, because the names tried are all different and `used` is finite.
   */
  method SearchNumbered(fold: Fold, prefix: string, index: nat, used: set<string>) returns (name: string)
    requires FoldsAscii(fold) && IsAscii(prefix)
    ensures fold(name) !in used
    ensures exists k: nat :: FirstFree(fold, prefix, index, used, k) && name == Numbered(prefix, index, k)
  {
    hide Numbered;
    var attempt: nat := 0;
    ghost var tried: set<string> := {};
    while true
      invariant tried <= used && |tried| == attempt
      invariant forall j: nat | j < attempt :: fold(Numbered(prefix, index, j)) in used
      invariant forall t | t in tried :: exists j: nat :: j < attempt && t == fold(Numbered(prefix, index, j))
      decreases |used| - |tried|
    {
      name := Numbered(prefix, index, attempt);
      if fold(name) !in used {
        assert FirstFree(fold, prefix, index, used, attempt);
        return;
      }
      forall j: nat | j < attempt ensures fold(Numbered(prefix, index, j)) != fold(name) {
        AttemptsDiffer(fold, prefix, index, j, attempt);
      }
      assert fold(name) !in tried;
      tried := tried + {fold(name)};
      Sets.SubsetSize(tried, used);
      attempt := attempt + 1;
    }
  }

  /** What a fallback for a taken name may be: the short node id if it is free, else the first free numbered name. */
  ghost predicate IsFallback(fold: Fold, shortNodeId: string, index: nat, used: set<string>, name: string) {
    if fold(shortNodeId) !in used then name == shortNodeId
    else exists k: nat :: FirstFree(fold, shortNodeId, index, used, k) && name == Numbered(shortNodeId, index, k)
  }

  /** `allocateEffectiveFallback`: the short node id itself when it is free. */
  method AllocateEffectiveFallback(fold: Fold, shortNodeId: string, index: nat, used: set<string>) returns (name: string)
    requires FoldsAscii(fold) && IsAscii(shortNodeId)
    ensures fold(name) !in used && IsFallback(fold, shortNodeId, index, used, name)
  {
    if fold(shortNodeId) !in used {
      return shortNodeId;
    }
    name := SearchNumbered(fold, shortNodeId, index, used);
  }

  // ---------- Names given out one after the other ----------

  /** No two keys carry names that fold alike. */
  ghost predicate DistinctFolds(fold: Fold, names: map<Id, string>) {
    forall a, b | a in names && b in names && a != b :: fold(names[a]) != fold(names[b])
  }

  ghost predicate UsedAre(fold: Fold, names: map<Id, string>, used: set<string>) {
    forall f :: f in used <==> exists k :: k in names && fold(names[k]) == f
  }

  lemma GiveName(fold: Fold, names: map<Id, string>, used: set<string>, k: Id, name: string)
    requires DistinctFolds(fold, names) && UsedAre(fold, names, used) && k !in names && fold(name) !in used
    ensures DistinctFolds(fold, names[k := name]) && UsedAre(fold, names[k := name], used + {fold(name)})
  {
    var longer := names[k := name];
    forall a | a in names ensures fold(names[a]) != fold(name) {
      assert fold(names[a]) in used;
    }
    forall f ensures f in used + {fold(name)} <==> exists j :: j in longer && fold(longer[j]) == f {
      if f in used {
        var j :| j in names && fold(names[j]) == f;
        assert j in longer && fold(longer[j]) == f;
      } else if f == fold(name) {
        assert k in longer;
      } else {
        forall j | j in longer ensures fold(longer[j]) != f {
          assert j in names ==> fold(names[j]) in used;
        }
      }
    }
  }

  // ---------- What names are given out ----------

  /** Somebody wants a name. */
  datatype Wish = Wish(key: Id, shortNodeId: string, candidate: string)

  /** A wish is granted unless its name is taken. */
  ghost predicate IsChosen(fold: Fold, w: Wish, index: nat, used: set<string>, name: string) {
    if fold(w.candidate) !in used then name == w.candidate else IsFallback(fold, w.shortNodeId, index, used, name)
  }

  /** The keys that have a name before the wish `i` is looked at. */
  ghost function KeysBefore(stored: map<Id, string>, wishes: seq<Wish>, i: nat): set<Id>
    requires i <= |wishes|
  {
    stored.Keys + set j | 0 <= j < i :: wishes[j].key
  }

  ghost function FoldsOf(fold: Fold, names: map<Id, string>, keys: set<Id>): set<string> {
    set k | k in keys && k in names :: fold(names[k])
  }

  /** The first wish of every new key is answered from what was used before it. */
  ghost predicate Answered(fold: Fold, stored: map<Id, string>, wishes: seq<Wish>, upTo: nat, names: map<Id, string>)
    requires upTo <= |wishes|
  {
    forall i | 0 <= i < upTo && wishes[i].key !in KeysBefore(stored, wishes, i) ::
      wishes[i].key in names
      && IsChosen(fold, wishes[i], i, FoldsOf(fold, names, KeysBefore(stored, wishes, i)), names[wishes[i].key])
  }

  lemma UsedIsFolds(fold: Fold, names: map<Id, string>, used: set<string>)
    requires UsedAre(fold, names, used)
    ensures used == FoldsOf(fold, names, names.Keys)
  {
    forall f ensures f in used <==> f in FoldsOf(fold, names, names.Keys) {
      if f in used {
        var k :| k in names && fold(names[k]) == f;
        assert k in names.Keys;
      }
    }
  }

  lemma FoldsKept(fold: Fold, names: map<Id, string>, k: Id, name: string, keys: set<Id>)
    requires keys <= names.Keys && k !in keys
    ensures FoldsOf(fold, names[k := name], keys) == FoldsOf(fold, names, keys)
  {
    var longer := names[k := name];
    forall f ensures f in FoldsOf(fold, longer, keys) <==> f in FoldsOf(fold, names, keys) {
      if f in FoldsOf(fold, names, keys) {
        var j :| j in keys && j in names && fold(names[j]) == f;
        assert j in longer && fold(longer[j]) == f;
      }
      if f in FoldsOf(fold, longer, keys) {
        var j :| j in keys && j in longer && fold(longer[j]) == f;
        assert j in names && fold(names[j]) == f;
      }
    }
  }

  lemma KeysGrow(stored: map<Id, string>, wishes: seq<Wish>, i: nat, j: nat)
    requires i <= j <= |wishes|
    ensures KeysBefore(stored, wishes, i) <= KeysBefore(stored, wishes, j)
    ensures j < |wishes| ==> KeysBefore(stored, wishes, j + 1) == KeysBefore(stored, wishes, j) + {wishes[j].key}
  {
  }

  lemma AnsweredOneMore(fold: Fold, stored: map<Id, string>, wishes: seq<Wish>, index: nat, names: map<Id, string>,
                        used: set<string>, name: string)
    requires index < |wishes| && Answered(fold, stored, wishes, index, names) && UsedAre(fold, names, used)
    requires names.Keys == KeysBefore(stored, wishes, index) && wishes[index].key !in names
    requires IsChosen(fold, wishes[index], index, used, name)
    ensures Answered(fold, stored, wishes, index + 1, names[wishes[index].key := name])
  {
    hide UsedAre, FoldsOf, IsChosen, KeysBefore;
    var longer := names[wishes[index].key := name];
    UsedIsFolds(fold, names, used);
    forall i | 0 <= i < index + 1 && wishes[i].key !in KeysBefore(stored, wishes, i)
      ensures wishes[i].key in longer
           && IsChosen(fold, wishes[i], i, FoldsOf(fold, longer, KeysBefore(stored, wishes, i)), longer[wishes[i].key])
    {
      KeysGrow(stored, wishes, i, index);
      FoldsKept(fold, names, wishes[index].key, name, KeysBefore(stored, wishes, i));
    }
  }

  lemma NothingAnswered(fold: Fold, stored: map<Id, string>, wishes: seq<Wish>)
    ensures Answered(fold, stored, wishes, 0, stored) && KeysBefore(stored, wishes, 0) == stored.Keys
  {
  }

  lemma ChosenByRule(fold: Fold, w: Wish, index: nat, used: set<string>, name: string)
    requires if fold(w.candidate) in used then IsFallback(fold, w.shortNodeId, index, used, name) else name == w.candidate
    ensures IsChosen(fold, w, index, used, name)
  {
  }

  lemma AnsweredAsBefore(fold: Fold, stored: map<Id, string>, wishes: seq<Wish>, index: nat, names: map<Id, string>)
    requires index < |wishes| && Answered(fold, stored, wishes, index, names)
    requires wishes[index].key in KeysBefore(stored, wishes, index)
    ensures Answered(fold, stored, wishes, index + 1, names)
  {
    hide FoldsOf, IsChosen, KeysBefore;
  }

  /** A claimed workspace: `display` is what `resolveWindowDisplayName` makes of its name and node. */
  datatype Claimed = Claimed(workspace: Id, shortNodeId: string, display: string)

  ghost predicate AsciiNodes(claimed: seq<Claimed>) {
    forall i | 0 <= i < |claimed| :: IsAscii(claimed[i].shortNodeId)
  }

  ghost function ClaimWishes(claimed: seq<Claimed>): seq<Wish> {
    seq(|claimed|, i requires 0 <= i < |claimed| =>
      Wish(claimed[i].workspace, claimed[i].shortNodeId, claimed[i].display))
  }

  /** `effectiveWorkspaceNames`: stored names first, then a free name for every other claimed workspace. */
  method EffectiveWorkspaceNames(fold: Fold, stored: map<Id, string>, claimed: seq<Claimed>) returns (names: map<Id, string>)
    requires FoldsAscii(fold) && DistinctFolds(fold, stored) && AsciiNodes(claimed)
    ensures DistinctFolds(fold, names)
    ensures forall k | k in stored :: k in names && names[k] == stored[k]
    ensures forall k :: k in names <==> k in stored || exists i :: 0 <= i < |claimed| && claimed[i].workspace == k
    ensures Answered(fold, stored, ClaimWishes(claimed), |claimed|, names)
  {
    hide DistinctFolds, UsedAre, IsAscii, FirstFree, Numbered, FoldsOf, IsChosen, Answered, KeysBefore, IsFallback;
    ghost var wishes := ClaimWishes(claimed);
    var used: set<string>;
    names := stored;
    used := StoredFolds(fold, stored);
    NothingAnswered(fold, stored, wishes);
    for index := 0 to |claimed|
      invariant DistinctFolds(fold, names) && UsedAre(fold, names, used)
      invariant forall k | k in stored :: k in names && names[k] == stored[k]
      invariant names.Keys == KeysBefore(stored, wishes, index)
      invariant Answered(fold, stored, wishes, index, names)
    {
      var c := claimed[index];
      KeysGrow(stored, wishes, index, index);
      if c.workspace in names {
        AnsweredAsBefore(fold, stored, wishes, index, names);
      } else {
        var name := c.display;
        if fold(name) in used {
          name := AllocateEffectiveFallback(fold, c.shortNodeId, index, used);
        }
        ChosenByRule(fold, wishes[index], index, used, name);
        AnsweredOneMore(fold, stored, wishes, index, names, used, name);
        GiveName(fold, names, used, c.workspace, name);
        names := names[c.workspace := name];
        used := used + {fold(name)};
      }
    }
    KeysMean(stored, claimed, names);
  }

  lemma KeysMean(stored: map<Id, string>, claimed: seq<Claimed>, names: map<Id, string>)
    requires names.Keys == KeysBefore(stored, ClaimWishes(claimed), |claimed|)
    ensures forall k :: k in names <==> k in stored || exists i :: 0 <= i < |claimed| && claimed[i].workspace == k
  {
    var wishes := ClaimWishes(claimed);
    forall k ensures k in names <==> k in stored || exists i :: 0 <= i < |claimed| && claimed[i].workspace == k {
      if k in names && k !in stored {
        var i :| 0 <= i < |claimed| && wishes[i].key == k;
        assert claimed[i].workspace == k;
      }
      if i :| 0 <= i < |claimed| && claimed[i].workspace == k { assert wishes[i].key == k; }
    }
  }

  method StoredFolds(fold: Fold, stored: map<Id, string>) returns (used: set<string>)
    ensures UsedAre(fold, stored, used)
  {
    used := set k | k in stored :: fold(stored[k]);
    forall f ensures f in used <==> exists k :: k in stored && fold(stored[k]) == f {
    }
  }

  // ---------- Node labels ----------

  /** `candidate` is the name wanted; priority 0 is a live claimant of a workspace with a stored name. */
  datatype Labelled = Labelled(node: Id, shortNodeId: string, candidate: string, priority: nat)

  predicate Precedes(a: Labelled, b: Labelled) {
    a.priority < b.priority || (a.priority == b.priority && a.node <= b.node)
  }

  lemma PrecedesIsTotal()
    ensures Sorting.TotalOrder(Precedes)
  {
  }

  ghost predicate DistinctNodes(nodes: seq<Labelled>) {
    forall i, j | 0 <= i < j < |nodes| :: nodes[i].node != nodes[j].node
  }

  /** Live claimants of stored names want names that fold differently. */
  ghost predicate ClaimantsDiffer(fold: Fold, nodes: seq<Labelled>) {
    forall a, b | a in nodes && b in nodes && a.priority == 0 && b.priority == 0 && a != b ::
      fold(a.candidate) != fold(b.candidate)
  }

  ghost predicate KeepsClaimants(nodes: seq<Labelled>, labels: map<Id, string>) {
    forall n | n in nodes && n.priority == 0 :: n.node in labels && labels[n.node] == n.candidate
  }

  /** So far only claimants have been labelled, each with its own name. */
  ghost predicate OnlyClaimants(nodes: seq<Labelled>, index: nat, labels: map<Id, string>) {
    forall k | k in labels :: exists i :: 0 <= i < index && i < |nodes| && nodes[i].priority == 0
                                          && nodes[i].node == k && labels[k] == nodes[i].candidate
  }

  ghost function NodeWishes(nodes: seq<Labelled>): seq<Wish> {
    seq(|nodes|, i requires 0 <= i < |nodes| => Wish(nodes[i].node, nodes[i].shortNodeId, nodes[i].candidate))
  }

  /**
   `effectiveNodeLabels`: every node gets a label, no two labels fold alike, and a live claimant keeps exactly
   the name that is stored for its workspace.
   */
  method EffectiveNodeLabels(fold: Fold, nodes: seq<Labelled>) returns (labels: map<Id, string>)
    requires FoldsAscii(fold) && DistinctNodes(nodes) && ClaimantsDiffer(fold, nodes)
    requires forall n | n in nodes :: IsAscii(n.shortNodeId)
    ensures DistinctFolds(fold, labels)
    ensures labels.Keys == set n | n in nodes :: n.node
    ensures KeepsClaimants(nodes, labels)
    ensures Answered(fold, map[], NodeWishes(Sorting.Sort(Precedes, nodes)), |nodes|, labels)
  {
    hide FoldsOf, IsChosen, Answered, Numbered, KeysBefore;
    hide DistinctFolds, UsedAre, IsAscii, ClaimantsDiffer, Sorting.Ordered, Sorting.TotalOrder, Sorting.Sort,
      DistinctNodes, OnlyClaimants, FoldsAscii,
      KeepsClaimants, FirstFree;
    var sorted := Sorting.Sort(Precedes, nodes);
    PrecedesIsTotal();
    Sorting.SortOrders(Precedes, nodes);
    SortIsFine(fold, nodes, sorted);
    labels := map[];
    var used: set<string> := {};
    NothingUsed(fold);
    NothingLabelled(sorted);
    ghost var wishes := NodeWishes(sorted);
    NothingAnswered(fold, map[], wishes);
    for index := 0 to |sorted|
      invariant DistinctFolds(fold, labels) && UsedAre(fold, labels, used)
      invariant Labels(sorted, index, labels)
      invariant labels.Keys == KeysBefore(map[], wishes, index) && Answered(fold, map[], wishes, index, labels)
      invariant index < |sorted| && sorted[index].priority == 0 ==> OnlyClaimants(sorted, index, labels)
    {
      var n := sorted[index];
      var wanted := n.candidate;
      if n.priority == 0 {
        ClaimantIsFree(fold, sorted, index, labels, used);
      }
      if fold(wanted) in used {
        wanted := AllocateEffectiveFallback(fold, n.shortNodeId, index, used);
      }
      LabelsOneMore(sorted, index, labels, wanted);
      KeysGrow(map[], wishes, index, index);
      ChosenByRule(fold, wishes[index], index, used, wanted);
      AnsweredOneMore(fold, map[], wishes, index, labels, used, wanted);
      GiveName(fold, labels, used, n.node, wanted);
      StillOnlyClaimants(sorted, index, labels, wanted);
      labels := labels[n.node := wanted];
      used := used + {fold(wanted)};
    }
    LabelsEveryNode(nodes, sorted, labels);
  }

  /** The first `index` nodes have labels, and the claimants among them their own names. */
  ghost predicate Labels(sorted: seq<Labelled>, index: nat, labels: map<Id, string>)
    requires index <= |sorted|
  {
    && (forall k :: k in labels <==> exists i :: 0 <= i < index && sorted[i].node == k)
    && (forall i | 0 <= i < index && sorted[i].priority == 0 ::
          sorted[i].node in labels && labels[sorted[i].node] == sorted[i].candidate)
  }

  lemma NothingLabelled(sorted: seq<Labelled>)
    ensures Labels(sorted, 0, map[]) && OnlyClaimants(sorted, 0, map[])
  {
  }

  lemma LabelsOneMore(sorted: seq<Labelled>, index: nat, labels: map<Id, string>, wanted: string)
    requires index < |sorted| && DistinctNodes(sorted) && Labels(sorted, index, labels)
    requires sorted[index].priority == 0 ==> wanted == sorted[index].candidate
    ensures sorted[index].node !in labels
    ensures Labels(sorted, index + 1, labels[sorted[index].node := wanted])
  {
    var longer := labels[sorted[index].node := wanted];
    assert forall i | 0 <= i < index :: sorted[i].node != sorted[index].node;
    forall k ensures k in longer <==> exists i :: 0 <= i < index + 1 && sorted[i].node == k {
      if k in labels {
        var i :| 0 <= i < index && sorted[i].node == k;
        assert 0 <= i < index + 1 && sorted[i].node == k;
      } else if k == sorted[index].node {
        assert 0 <= index < index + 1 && sorted[index].node == k;
      }
    }
  }

  lemma NothingUsed(fold: Fold)
    ensures DistinctFolds(fold, map[]) && UsedAre(fold, map[], {})
  {
  }

  lemma SortIsFine(fold: Fold, nodes: seq<Labelled>, sorted: seq<Labelled>)
    requires DistinctNodes(nodes) && ClaimantsDiffer(fold, nodes) && sorted == Sorting.Sort(Precedes, nodes)
    requires forall n | n in nodes :: IsAscii(n.shortNodeId)
    ensures forall n :: n in nodes <==> n in sorted
    ensures DistinctNodes(sorted) && ClaimantsDiffer(fold, sorted)
    ensures forall n | n in sorted :: IsAscii(n.shortNodeId)
  {
    hide IsAscii, Sorting.Sort;
    Sorting.SortKeepsDistinct(Precedes, nodes);
    forall i, j | 0 <= i < j < |sorted| ensures sorted[i].node != sorted[j].node {
      assert sorted[i] in nodes && sorted[j] in nodes && sorted[i] != sorted[j];
    }
  }

  /** A claimant's own name is still free when its turn comes. */
  lemma ClaimantIsFree(fold: Fold, sorted: seq<Labelled>, index: nat, labels: map<Id, string>, used: set<string>)
    requires index < |sorted| && sorted[index].priority == 0 && DistinctNodes(sorted) && ClaimantsDiffer(fold, sorted)
    requires UsedAre(fold, labels, used) && OnlyClaimants(sorted, index, labels)
    ensures fold(sorted[index].candidate) !in used
  {
    forall k | k in labels ensures fold(labels[k]) != fold(sorted[index].candidate) {
      var i :| 0 <= i < index && sorted[i].priority == 0 && sorted[i].node == k && labels[k] == sorted[i].candidate;
      assert sorted[i].node != sorted[index].node;
      assert sorted[i] in sorted && sorted[index] in sorted;
    }
  }

  lemma StillOnlyClaimants(sorted: seq<Labelled>, index: nat, labels: map<Id, string>, wanted: string)
    requires Sorting.Ordered(Precedes, sorted) && index < |sorted|
    requires sorted[index].priority == 0 ==> OnlyClaimants(sorted, index, labels) && wanted == sorted[index].candidate
    ensures index + 1 < |sorted| && sorted[index + 1].priority == 0 ==>
      OnlyClaimants(sorted, index + 1, labels[sorted[index].node := wanted])
  {
    if index + 1 < |sorted| && sorted[index + 1].priority == 0 {
      assert Precedes(sorted[index], sorted[index + 1]);
      var longer := labels[sorted[index].node := wanted];
      forall k | k in longer
        ensures exists i :: 0 <= i < index + 1 && i < |sorted| && sorted[i].priority == 0
                            && sorted[i].node == k && longer[k] == sorted[i].candidate {
        if k == sorted[index].node {
          assert longer[k] == sorted[index].candidate;
        } else {
          var i :| 0 <= i < index && sorted[i].priority == 0 && sorted[i].node == k && labels[k] == sorted[i].candidate;
          assert longer[k] == sorted[i].candidate;
        }
      }
    }
  }

  lemma LabelsEveryNode(nodes: seq<Labelled>, sorted: seq<Labelled>, labels: map<Id, string>)
    requires forall n :: n in nodes <==> n in sorted
    requires Labels(sorted, |sorted|, labels)
    ensures labels.Keys == (set n | n in nodes :: n.node) && KeepsClaimants(nodes, labels)
  {
    forall k ensures k in labels <==> exists n :: n in nodes && n.node == k {
      if k in labels {
        var i :| 0 <= i < |sorted| && sorted[i].node == k;
        assert sorted[i] in nodes;
      }
      if exists n :: n in nodes && n.node == k {
        var n :| n in nodes && n.node == k;
        var i :| 0 <= i < |sorted| && sorted[i] == n;
      }
    }
    forall n | n in nodes && n.priority == 0 ensures n.node in labels && labels[n.node] == n.candidate {
      var i :| 0 <= i < |sorted| && sorted[i] == n;
    }
  }

  /** A window in the directory; `claims`: it is online and claims the one workspace it shows. */
  datatype Window = Window(node: Id, shortNodeId: string, workspace: Option<Id>, claims: bool, display: string)

  /** The name a window wants and its rank: live claimants of stored names first. */
  function WantedBy(stored: map<Id, string>, names: map<Id, string>, w: Window): Labelled {
    var candidate :=
      if w.workspace.None? then w.shortNodeId
      else if w.workspace.value in names then names[w.workspace.value]
      else w.display;
    var hasPolicy := w.workspace.Some? && w.workspace.value in stored;
    Labelled(w.node, w.shortNodeId, candidate,
             if hasPolicy then (if w.claims then 0 else 1) else (if w.claims then 2 else 3))
  }

  /** The registry lets at most one live node claim a workspace (RegistryTheorems.ClaimsMatchNodes). */
  ghost predicate OneClaimantEach(windows: seq<Window>) {
    forall i, j | 0 <= i < j < |windows| ::
      windows[i].node != windows[j].node
      && (windows[i].claims && windows[j].claims && windows[i].workspace.Some?
          ==> windows[i].workspace != windows[j].workspace)
  }

  /** All windows are labelled; each live claimant of a workspace with a stored name shows exactly that name. */
  method LabelWindows(fold: Fold, stored: map<Id, string>, names: map<Id, string>, windows: seq<Window>)
    returns (labels: map<Id, string>)
    requires FoldsAscii(fold) && DistinctFolds(fold, stored) && OneClaimantEach(windows)
    requires forall k | k in stored :: k in names && names[k] == stored[k]
    requires forall i | 0 <= i < |windows| :: IsAscii(windows[i].shortNodeId)
    ensures DistinctFolds(fold, labels)
    ensures forall i | 0 <= i < |windows| :: windows[i].node in labels
    ensures forall i | 0 <= i < |windows| && windows[i].claims && windows[i].workspace.Some?
                       && windows[i].workspace.value in stored ::
      labels[windows[i].node] == stored[windows[i].workspace.value]
  {
    hide IsAscii, FoldsAscii;
    var nodes := seq(|windows|, i requires 0 <= i < |windows| => WantedBy(stored, names, windows[i]));
    StoredNamesDiffer(fold, stored, names, windows, nodes);
    labels := EffectiveNodeLabels(fold, nodes);
    hide DistinctFolds, DistinctNodes, ClaimantsDiffer;
    forall i | 0 <= i < |windows| ensures nodes[i] in nodes && windows[i].node in labels {
      assert nodes[i] in nodes && nodes[i].node == windows[i].node;
    }
  }

  lemma StoredNamesDiffer(fold: Fold, stored: map<Id, string>, names: map<Id, string>, windows: seq<Window>,
                          nodes: seq<Labelled>)
    requires DistinctFolds(fold, stored) && OneClaimantEach(windows)
    requires forall k | k in stored :: k in names && names[k] == stored[k]
    requires |nodes| == |windows| && forall i | 0 <= i < |nodes| :: nodes[i] == WantedBy(stored, names, windows[i])
    ensures DistinctNodes(nodes) && ClaimantsDiffer(fold, nodes)
  {
    forall a, b | a in nodes && b in nodes && a.priority == 0 && b.priority == 0 && a != b
      ensures fold(a.candidate) != fold(b.candidate) {
      var i :| 0 <= i < |nodes| && nodes[i] == a;
      var j :| 0 <= j < |nodes| && nodes[j] == b;
      assert windows[i].workspace != windows[j].workspace;
    }
  }

  // ---------- Migration of a stored document ----------

  /** `policy` stands for everything the migration does not look at; `digest` is the start of the workspace digest. */
  datatype Entry = Entry(identity: Id, name: string, digest: string, policy: nat)

  datatype Migrated = Migrated(identity: Id, name: string, fold: string, policy: nat)

  ghost predicate DistinctEntries(entries: seq<Entry>) {
    forall i, j | 0 <= i < j < |entries| :: entries[i].identity != entries[j].identity
  }

  /** A valid name is kept unless an earlier valid name folds alike. */
  ghost predicate FirstOfItsFold(fold: Fold, valid: string -> bool, entries: seq<Entry>, i: nat)
    requires i < |entries|
  {
    valid(entries[i].name)
    && forall j | 0 <= j < i && valid(entries[j].name) :: fold(entries[j].name) != fold(entries[i].name)
  }

  /** The names kept are those of the entries that are first of their fold. */
  ghost predicate Kept(fold: Fold, valid: string -> bool, entries: seq<Entry>, upTo: nat, names: map<Id, string>)
    requires upTo <= |entries|
  {
    && (forall i | 0 <= i < upTo && FirstOfItsFold(fold, valid, entries, i) ::
          entries[i].identity in names && names[entries[i].identity] == entries[i].name)
    && (forall k | k in names :: exists i :: KeptFrom(fold, valid, entries, upTo, names, k, i))
  }

  ghost predicate KeptFrom(fold: Fold, valid: string -> bool, entries: seq<Entry>, upTo: nat, names: map<Id, string>,
                           k: Id, i: nat)
    requires upTo <= |entries| && k in names
  {
    i < upTo && entries[i].identity == k && names[k] == entries[i].name && FirstOfItsFold(fold, valid, entries, i)
  }

  /** The first pass of `migrateCompatibleDocument`. */
  method KeepValidNames(fold: Fold, valid: string -> bool, entries: seq<Entry>)
    returns (names: map<Id, string>, used: set<string>)
    requires DistinctEntries(entries)
    ensures DistinctFolds(fold, names) && UsedAre(fold, names, used)
    ensures Kept(fold, valid, entries, |entries|, names)
  {
    hide DistinctFolds, UsedAre, Kept;
    names, used := map[], {};
    NothingUsed(fold);
    NothingKept(fold, valid, entries);
    for index := 0 to |entries|
      invariant DistinctFolds(fold, names) && UsedAre(fold, names, used)
      invariant Kept(fold, valid, entries, index, names)
    {
      var e := entries[index];
      KeepOneMore(fold, valid, entries, index, names, used);
      if valid(e.name) && fold(e.name) !in used {
        GiveName(fold, names, used, e.identity, e.name);
        names := names[e.identity := e.name];
        used := used + {fold(e.name)};
      }
    }
  }

  lemma NothingKept(fold: Fold, valid: string -> bool, entries: seq<Entry>)
    ensures Kept(fold, valid, entries, 0, map[])
  {
  }

  lemma KeepOneMore(fold: Fold, valid: string -> bool, entries: seq<Entry>, index: nat, names: map<Id, string>,
                    used: set<string>)
    requires index < |entries| && DistinctEntries(entries) && UsedAre(fold, names, used)
    requires Kept(fold, valid, entries, index, names)
    ensures entries[index].identity !in names
    ensures var e := entries[index];
      var after := if valid(e.name) && fold(e.name) !in used then names[e.identity := e.name] else names;
      Kept(fold, valid, entries, index + 1, after)
  {
    var e := entries[index];
    NotYetNamed(fold, valid, entries, index, names);
    FreeIffFirst(fold, valid, entries, index, names, used);
    assert forall i | 0 <= i < index :: entries[i].identity != e.identity;
    hide FirstOfItsFold, UsedAre, DistinctEntries;
    var after := if valid(e.name) && fold(e.name) !in used then names[e.identity := e.name] else names;
    var n := index + 1;
    forall k | k in after ensures exists i :: KeptFrom(fold, valid, entries, n, after, k, i) {
      if k in names && k != e.identity {
        var i: nat :| KeptFrom(fold, valid, entries, index, names, k, i);
        assert KeptFrom(fold, valid, entries, n, after, k, i);
      } else {
        assert KeptFrom(fold, valid, entries, n, after, k, index);
      }
    }
  }

  lemma NotYetNamed(fold: Fold, valid: string -> bool, entries: seq<Entry>, index: nat, names: map<Id, string>)
    requires index < |entries| && DistinctEntries(entries) && Kept(fold, valid, entries, index, names)
    ensures entries[index].identity !in names
  {
    hide FirstOfItsFold;
    assert forall i | 0 <= i < index :: entries[i].identity != entries[index].identity;
  }

  /** A valid name is still free exactly when no earlier valid name folds like it. */
  lemma FreeIffFirst(fold: Fold, valid: string -> bool, entries: seq<Entry>, index: nat, names: map<Id, string>,
                     used: set<string>)
    requires index < |entries| && UsedAre(fold, names, used) && Kept(fold, valid, entries, index, names)
    ensures (valid(entries[index].name) && fold(entries[index].name) !in used) <==> FirstOfItsFold(fold, valid, entries, index)
  {
    var f := fold(entries[index].name);
    if f in used {
      var k :| k in names && fold(names[k]) == f;
      var i: nat :| KeptFrom(fold, valid, entries, index, names, k, i);
      assert valid(entries[i].name) && fold(entries[i].name) == f;
    }
    forall j | 0 <= j < index && valid(entries[j].name) && fold(entries[j].name) == f ensures f in used {
      var i := FirstAlike(fold, valid, entries, j);
      assert entries[i].identity in names && fold(names[entries[i].identity]) == f;
    }
  }

  /** The first valid name that folds like this one. */
  ghost function FirstAlike(fold: Fold, valid: string -> bool, entries: seq<Entry>, j: nat): (i: nat)
    requires j < |entries| && valid(entries[j].name)
    ensures i <= j && FirstOfItsFold(fold, valid, entries, i) && fold(entries[i].name) == fold(entries[j].name)
  {
    if i :| 0 <= i < j && valid(entries[i].name) && fold(entries[i].name) == fold(entries[j].name) then
      FirstAlike(fold, valid, entries, i)
    else j
  }

  const PREFIX: string := "Window "

  /** The names taken before the second pass comes to entry `i`: those kept, and those given to earlier entries. */
  ghost function TakenBefore(fold: Fold, valid: string -> bool, entries: seq<Entry>, document: seq<Migrated>, i: nat): set<string>
    requires |document| == |entries|
  {
    set j | 0 <= j < |entries| && (j < i || FirstOfItsFold(fold, valid, entries, j)) :: fold(document[j].name)
  }

  /** The first of the numbered names that is free. */
  ghost predicate IsNumbered(fold: Fold, digest: string, index: nat, used: set<string>, name: string) {
    exists k: nat :: FirstFree(fold, PREFIX + digest, index, used, k) && name == Numbered(PREFIX + digest, index, k)
  }

  /**
   What a migrated document is: the same keys and policies in the same order; the first valid name of each fold is
   kept, and every other name, valid or not, is replaced by the first free numbered one.
   */
  ghost predicate IsMigration(fold: Fold, valid: string -> bool, entries: seq<Entry>, document: seq<Migrated>) {
    && |document| == |entries|
    && (forall i | 0 <= i < |entries| ::
          && document[i].identity == entries[i].identity && document[i].policy == entries[i].policy
          && document[i].fold == fold(document[i].name)
          && (if FirstOfItsFold(fold, valid, entries, i) then document[i].name == entries[i].name
              else IsNumbered(fold, entries[i].digest, i, TakenBefore(fold, valid, entries, document, i), document[i].name)))
    && (forall i, j | 0 <= i < j < |document| :: document[i].fold != document[j].fold)
  }

  /** `migrateCompatibleDocument`. */
  method MigrateCompatibleDocument(fold: Fold, valid: string -> bool, entries: seq<Entry>) returns (document: seq<Migrated>)
    requires FoldsAscii(fold) && DistinctEntries(entries)
    requires forall i | 0 <= i < |entries| :: IsAscii(entries[i].digest)
    ensures IsMigration(fold, valid, entries, document)
  {
    hide DistinctFolds, UsedAre, IsAscii, FirstOfItsFold, IsNumbered, Kept, Numbering, FirstFree, Numbered, TakenBefore;
    var names: map<Id, string>, used: set<string> := KeepValidNames(fold, valid, entries);
    NumberingStarts(fold, valid, entries, names);
    for index := 0 to |entries|
      invariant DistinctFolds(fold, names) && UsedAre(fold, names, used)
      invariant Numbering(fold, valid, entries, index, names)
    {
      var e := entries[index];
      if e.identity in names {
        SkipsOne(fold, valid, entries, index, names);
      } else {
        PrefixIsAscii(e.digest);
        var name := SearchNumbered(fold, PREFIX + e.digest, index, used);
        assert IsNumbered(fold, e.digest, index, used, name) by { NumberedByRule(fold, e.digest, index, used, name); }
        NumbersOne(fold, valid, entries, index, names, used, name);
        GiveName(fold, names, used, e.identity, name);
        names := names[e.identity := name];
        used := used + {fold(name)};
      }
    }
    AllNamed(fold, valid, entries, names);
    document := seq(|entries|, i requires 0 <= i < |entries| =>
      var name := names[entries[i].identity]; Migrated(entries[i].identity, name, fold(name), entries[i].policy));
    NumberingEnds(fold, valid, entries, names, document);
  }

  lemma NumberedByRule(fold: Fold, digest: string, index: nat, used: set<string>, name: string)
    requires exists k: nat :: FirstFree(fold, PREFIX + digest, index, used, k) && name == Numbered(PREFIX + digest, index, k)
    ensures IsNumbered(fold, digest, index, used, name)
  {
  }

  /** The entries that have a name when the second pass comes to entry `i`. */
  ghost function NamedBefore(fold: Fold, valid: string -> bool, entries: seq<Entry>, i: nat): set<Id> {
    set j | 0 <= j < |entries| && (j < i || FirstOfItsFold(fold, valid, entries, j)) :: entries[j].identity
  }

  ghost predicate Numbering(fold: Fold, valid: string -> bool, entries: seq<Entry>, index: nat, names: map<Id, string>)
    requires index <= |entries|
  {
    && names.Keys == NamedBefore(fold, valid, entries, index)
    && (forall i | 0 <= i < |entries| && FirstOfItsFold(fold, valid, entries, i) ::
          entries[i].identity in names && names[entries[i].identity] == entries[i].name)
    && (forall i | 0 <= i < index && !FirstOfItsFold(fold, valid, entries, i) ::
          entries[i].identity in names
          && IsNumbered(fold, entries[i].digest, i, FoldsOf(fold, names, NamedBefore(fold, valid, entries, i)),
                        names[entries[i].identity]))
  }

  lemma NumberingStarts(fold: Fold, valid: string -> bool, entries: seq<Entry>, names: map<Id, string>)
    requires Kept(fold, valid, entries, |entries|, names)
    ensures Numbering(fold, valid, entries, 0, names)
  {
    hide FirstOfItsFold;
    forall k ensures k in names <==> k in NamedBefore(fold, valid, entries, 0) {
      if k in names {
        var i: nat :| KeptFrom(fold, valid, entries, |entries|, names, k, i);
        assert entries[i].identity == k && FirstOfItsFold(fold, valid, entries, i);
      }
    }
  }

  lemma NamedOneMore(fold: Fold, valid: string -> bool, entries: seq<Entry>, index: nat)
    requires index < |entries| && DistinctEntries(entries)
    ensures NamedBefore(fold, valid, entries, index + 1) == NamedBefore(fold, valid, entries, index) + {entries[index].identity}
    ensures entries[index].identity in NamedBefore(fold, valid, entries, index) <==> FirstOfItsFold(fold, valid, entries, index)
  {
    hide FirstOfItsFold;
    forall j | 0 <= j < |entries| && entries[j].identity == entries[index].identity ensures j == index {
    }
  }

  lemma SkipsOne(fold: Fold, valid: string -> bool, entries: seq<Entry>, index: nat, names: map<Id, string>)
    requires index < |entries| && DistinctEntries(entries) && Numbering(fold, valid, entries, index, names)
    requires entries[index].identity in names
    ensures Numbering(fold, valid, entries, index + 1, names)
  {
    hide FirstOfItsFold, IsNumbered, NamedBefore, FoldsOf;
    NamedOneMore(fold, valid, entries, index);
  }

  lemma NumbersOne(fold: Fold, valid: string -> bool, entries: seq<Entry>, index: nat, names: map<Id, string>,
                   used: set<string>, name: string)
    requires index < |entries| && DistinctEntries(entries) && Numbering(fold, valid, entries, index, names)
    requires entries[index].identity !in names && UsedAre(fold, names, used)
    requires IsNumbered(fold, entries[index].digest, index, used, name)
    ensures Numbering(fold, valid, entries, index + 1, names[entries[index].identity := name])
  {
    hide FirstOfItsFold, IsNumbered, NamedBefore, FoldsOf, UsedAre;
    var e := entries[index];
    var longer := names[e.identity := name];
    NamedOneMore(fold, valid, entries, index);
    UsedIsFolds(fold, names, used);
    forall i | 0 <= i < index + 1 && !FirstOfItsFold(fold, valid, entries, i)
      ensures entries[i].identity in longer
           && IsNumbered(fold, entries[i].digest, i, FoldsOf(fold, longer, NamedBefore(fold, valid, entries, i)),
                         longer[entries[i].identity])
    {
      NamedGrow(fold, valid, entries, i, index);
      FoldsKept(fold, names, e.identity, name, NamedBefore(fold, valid, entries, i));
      assert i < index ==> entries[i].identity != e.identity;
    }
  }

  lemma NamedGrow(fold: Fold, valid: string -> bool, entries: seq<Entry>, i: nat, j: nat)
    requires i <= j
    ensures NamedBefore(fold, valid, entries, i) <= NamedBefore(fold, valid, entries, j)
  {
    hide FirstOfItsFold;
  }

  lemma NumberingEnds(fold: Fold, valid: string -> bool, entries: seq<Entry>, names: map<Id, string>, document: seq<Migrated>)
    requires DistinctEntries(entries) && DistinctFolds(fold, names) && Numbering(fold, valid, entries, |entries|, names)
    requires |document| == |entries|
    requires forall i | 0 <= i < |entries| :: entries[i].identity in names
    requires forall i | 0 <= i < |entries| ::
      var name := names[entries[i].identity];
      document[i] == Migrated(entries[i].identity, name, fold(name), entries[i].policy)
    ensures IsMigration(fold, valid, entries, document)
  {
    hide FirstOfItsFold, IsNumbered, FoldsOf, TakenBefore, NamedBefore, DistinctFolds;
    DocumentIsDistinct(fold, entries, names);
    forall i | 0 <= i < |entries| && !FirstOfItsFold(fold, valid, entries, i)
      ensures IsNumbered(fold, entries[i].digest, i, TakenBefore(fold, valid, entries, document, i), document[i].name) {
      TakenIsFolds(fold, valid, entries, names, document, i);
    }
  }

  lemma AllNamed(fold: Fold, valid: string -> bool, entries: seq<Entry>, names: map<Id, string>)
    requires Numbering(fold, valid, entries, |entries|, names)
    ensures forall i | 0 <= i < |entries| :: entries[i].identity in names
  {
    hide FirstOfItsFold;
  }

  lemma TakenIsFolds(fold: Fold, valid: string -> bool, entries: seq<Entry>, names: map<Id, string>,
                     document: seq<Migrated>, i: nat)
    requires |document| == |entries|
    requires forall j | 0 <= j < |entries| ::
      entries[j].identity in names && document[j].name == names[entries[j].identity]
    ensures TakenBefore(fold, valid, entries, document, i) == FoldsOf(fold, names, NamedBefore(fold, valid, entries, i))
  {
    hide FirstOfItsFold;
    var taken, folds := TakenBefore(fold, valid, entries, document, i), FoldsOf(fold, names, NamedBefore(fold, valid, entries, i));
    forall g ensures g in taken <==> g in folds {
      if g in taken {
        var j :| 0 <= j < |entries| && (j < i || FirstOfItsFold(fold, valid, entries, j)) && fold(document[j].name) == g;
        assert entries[j].identity in NamedBefore(fold, valid, entries, i);
      }
      if g in folds {
        var k :| k in NamedBefore(fold, valid, entries, i) && k in names && fold(names[k]) == g;
        var j :| 0 <= j < |entries| && (j < i || FirstOfItsFold(fold, valid, entries, j)) && entries[j].identity == k;
        assert fold(document[j].name) == g;
      }
    }
  }

  lemma PrefixIsAscii(digest: string)
    requires IsAscii(digest)
    ensures IsAscii(PREFIX + digest)
  {
  }

  lemma DocumentIsDistinct(fold: Fold, entries: seq<Entry>, names: map<Id, string>)
    requires DistinctEntries(entries) && DistinctFolds(fold, names)
    requires forall i | 0 <= i < |entries| :: entries[i].identity in names
    ensures forall i, j | 0 <= i < j < |entries| :: fold(names[entries[i].identity]) != fold(names[entries[j].identity])
  {
  }

  // ---------- Mutating the stored document ----------

  const MAX_ENTRIES: nat := 256

  /** What the schema of the stored document demands of its names. */
  ghost predicate DocumentOk(fold: Fold, valid: string -> bool, names: map<Id, string>) {
    && |names| <= MAX_ENTRIES && DistinctFolds(fold, names)
    && forall k | k in names :: valid(names[k])
  }

  /** `mutate`: None when it is refused or when writing fails. */
  ghost function Mutate(fold: Fold, valid: string -> bool, names: map<Id, string>, k: Id, name: string,
                        effective: map<Id, string>, written: bool): Option<map<Id, string>>
  {
    if k !in names && |names| >= MAX_ENTRIES then None
    else if !valid(name) then None
    else if exists j :: j in names && j != k && fold(names[j]) == fold(name) then None
    else if exists j :: j in effective && (!valid(effective[j]) || (j != k && fold(effective[j]) == fold(name))) then None
    else if !written then None
    else Some(names[k := name])
  }

  /** The names of a document by key. */
  function NamesOf(document: seq<Migrated>): (names: map<Id, string>)
    ensures |names| <= |document|
  {
    if document == [] then map[]
    else
      var last := document[|document| - 1];
      NamesOf(document[..|document| - 1])[last.identity := last.name]
  }

  lemma {:induction false} NamesOfMeans(document: seq<Migrated>, k: Id)
    ensures k in NamesOf(document) ==>
      exists i :: 0 <= i < |document| && document[i].identity == k && document[i].name == NamesOf(document)[k]
    decreases |document|
  {
    if document == [] {
    } else {
      var n := |document| - 1;
      NamesOfMeans(document[..n], k);
      if k in NamesOf(document) && k != document[n].identity {
        var i :| 0 <= i < n && document[..n][i].identity == k && document[..n][i].name == NamesOf(document[..n])[k];
        assert document[i].identity == k;
      }
    }
  }

  /** The folds of the first names tried are as many as there are names. */
  lemma {:induction false} TriedSize(fold: Fold, prefix: string, index: nat, k: nat)
    requires FoldsAscii(fold) && IsAscii(prefix)
    ensures |set j: nat | j < k :: fold(Numbered(prefix, index, j))| == k
    decreases k
  {
    hide Numbered, FoldsAscii, IsAscii;
    var tried := set j: nat | j < k :: fold(Numbered(prefix, index, j));
    if k == 0 {
      assert tried == {};
    } else {
      TriedSize(fold, prefix, index, k - 1);
      var fewer := set j: nat | j < k - 1 :: fold(Numbered(prefix, index, j));
      var last := fold(Numbered(prefix, index, k - 1));
      forall j: nat | j < k - 1 ensures fold(Numbered(prefix, index, j)) != last {
        AttemptsDiffer(fold, prefix, index, j, k - 1);
      }
      assert tried == fewer + {last};
    }
  }

  /** The search finds a free name after at most as many attempts as names are taken. */
  lemma FirstFreeIsEarly(fold: Fold, prefix: string, index: nat, used: set<string>, k: nat)
    requires FoldsAscii(fold) && IsAscii(prefix) && FirstFree(fold, prefix, index, used, k)
    ensures k <= |used|
  {
    hide Numbered, FoldsAscii, IsAscii;
    TriedSize(fold, prefix, index, k);
    Sets.SubsetSize(set j: nat | j < k :: fold(Numbered(prefix, index, j)), used);
  }

  /** While an entry is numbered, fewer names are taken than there are entries. */
  lemma FewAreTaken(fold: Fold, valid: string -> bool, entries: seq<Entry>, document: seq<Migrated>, i: nat)
    requires IsMigration(fold, valid, entries, document) && i < |entries| && !FirstOfItsFold(fold, valid, entries, i)
    ensures |TakenBefore(fold, valid, entries, document, i)| < |entries|
  {
    hide FirstOfItsFold, IsNumbered;
    var folds := seq(|document|, j requires 0 <= j < |document| => document[j].fold);
    var all := set f | f in folds;
    var taken := TakenBefore(fold, valid, entries, document, i);
    Sets.ElementsSize(folds);
    assert folds[i] in all;
    forall f | f in taken ensures f in all - {folds[i]} {
      var j :| 0 <= j < |entries| && (j < i || FirstOfItsFold(fold, valid, entries, j)) && f == fold(document[j].name);
      assert folds[j] == f;
      assert if i < j then document[i].fold != document[j].fold else document[j].fold != document[i].fold;
    }
    Sets.SubsetSize(taken, all - {folds[i]});
  }

  /** The names the migration may give to the entries of a document, none tried later than there are entries. */
  ghost predicate NumberedAreValid(valid: string -> bool, entries: seq<Entry>) {
    forall i: nat, k: nat | i < |entries| && k < |entries| :: valid(Numbered(PREFIX + entries[i].digest, i, k))
  }

  /** Any name of the migration is valid: it is its entry's own valid name, or one of the numbered names above. */
  lemma MigratedNameIsValid(fold: Fold, valid: string -> bool, entries: seq<Entry>, document: seq<Migrated>, i: nat)
    requires FoldsAscii(fold) && IsMigration(fold, valid, entries, document) && i < |entries|
    requires IsAscii(entries[i].digest) && NumberedAreValid(valid, entries)
    ensures valid(document[i].name)
  {
    hide Numbered, FirstFree, FoldsAscii, IsAscii;
    if !FirstOfItsFold(fold, valid, entries, i) {
      var used := TakenBefore(fold, valid, entries, document, i);
      assert IsNumbered(fold, entries[i].digest, i, used, document[i].name);
      var prefix := PREFIX + entries[i].digest;
      var k: nat :| FirstFree(fold, prefix, i, used, k) && document[i].name == Numbered(prefix, i, k);
      PrefixIsAscii(entries[i].digest);
      FirstFreeIsEarly(fold, prefix, i, used, k);
      FewAreTaken(fold, valid, entries, document, i);
    }
  }

  predicate PlainChar(c: char) {
    c == ' ' || c == '-' || '0' <= c <= '9' || 'A' <= c <= 'Z' || 'a' <= c <= 'z'
  }

  /** Letters, digits, blanks and hyphens after the prefix, and no more than 23 characters. */
  predicate Plain(name: string) {
    PREFIX <= name && |name| <= 23 && forall i | 0 <= i < |name| :: PlainChar(name[i])
  }

  /** For digests cut to eight hexadecimal digits a validator need only accept short plain names. */
  lemma PlainNamesSuffice(valid: string -> bool, entries: seq<Entry>)
    requires |entries| <= MAX_ENTRIES && forall name | Plain(name) :: valid(name)
    requires forall i | 0 <= i < |entries| ::
      |entries[i].digest| <= 8 && forall c | c in entries[i].digest :: PlainChar(c)
    ensures NumberedAreValid(valid, entries)
  {
    hide Numbered, Plain;
    forall i: nat, k: nat | i < |entries| && k < |entries| ensures valid(Numbered(PREFIX + entries[i].digest, i, k)) {
      NumberedIsPlain(entries[i].digest, i, k);
    }
  }

  lemma NumberedIsPlain(digest: string, index: nat, k: nat)
    requires |digest| <= 8 && (forall c | c in digest :: PlainChar(c)) && index < MAX_ENTRIES && k < MAX_ENTRIES
    ensures Plain(Numbered(PREFIX + digest, index, k))
  {
    ShortDigits(index + 1);
    ShortDigits(k + 1);
    hide Digits;
  }

  lemma ShortDigits(n: nat)
    requires n < 1000
    ensures |Digits(n)| <= 3
  {
    assert |Digits(n / 100)| == 1;
    assert n / 10 / 10 == n / 100;
  }

  /** A migrated document is one that mutations may start from, as the names the migration may give are valid. */
  lemma MigrationIsDocument(fold: Fold, valid: string -> bool, entries: seq<Entry>, document: seq<Migrated>)
    requires FoldsAscii(fold) && IsMigration(fold, valid, entries, document) && |entries| <= MAX_ENTRIES
    requires (forall i | 0 <= i < |entries| :: IsAscii(entries[i].digest)) && NumberedAreValid(valid, entries)
    ensures DocumentOk(fold, valid, NamesOf(document))
  {
    hide Numbered, FirstFree, FoldsAscii, IsAscii, NumberedAreValid;
    var names := NamesOf(document);
    forall k | k in names ensures exists i :: Named(document, names, k, i) {
      NamesOfMeans(document, k);
      var i :| 0 <= i < |document| && document[i].identity == k && document[i].name == names[k];
      assert Named(document, names, k, i);
    }
    forall k | k in names ensures valid(names[k]) {
      var i: nat :| Named(document, names, k, i);
      MigratedNameIsValid(fold, valid, entries, document, i);
    }
    hide FirstOfItsFold, IsNumbered;
    forall a, b | a in names && b in names && a != b ensures fold(names[a]) != fold(names[b]) {
      var i: nat :| Named(document, names, a, i);
      var j: nat :| Named(document, names, b, j);
      assert if i < j then document[i].fold != document[j].fold else document[j].fold != document[i].fold;
    }
  }

  ghost predicate Named(document: seq<Migrated>, names: map<Id, string>, k: Id, i: nat)
    requires k in names
  {
    i < |document| && document[i].identity == k && document[i].name == names[k]
  }

  /** Every accepted change keeps the document valid and touches one name, which differs from all names shown. */
  lemma MutationsKeepDocument(fold: Fold, valid: string -> bool, names: map<Id, string>, k: Id, name: string,
                              effective: map<Id, string>, written: bool)
    requires DocumentOk(fold, valid, names)
    ensures var next := Mutate(fold, valid, names, k, name, effective, written); next.Some? ==>
      && DocumentOk(fold, valid, next.value)
      && next.value == names[k := name]
      && forall j | j in effective && j != k :: fold(effective[j]) != fold(name)
  {
    var longer := names[k := name];
    assert longer.Keys == names.Keys + {k};
    assert |longer| == |longer.Keys| && |names| == |names.Keys|;
  }

  /** One request to change a name: what windows show when it is made, and whether the file can be written. */
  datatype Change = Change(key: Id, name: string, effective: map<Id, string>, written: bool)

  ghost function Changed(fold: Fold, valid: string -> bool, names: map<Id, string>, changes: seq<Change>): map<Id, string>
    decreases |changes|
  {
    if changes == [] then names
    else
      var c := changes[0];
      var next := Mutate(fold, valid, names, c.key, c.name, c.effective, c.written);
      Changed(fold, valid, if next.Some? then next.value else names, changes[1..])
  }

  /**
   Whatever changes are asked for, in whatever order, the document stays valid with all names distinct, nobody loses
   a name, and every name is the stored one or one that was asked for that key.
   */
  lemma {:induction false} AnyChangesKeepDocument(fold: Fold, valid: string -> bool, names: map<Id, string>, changes: seq<Change>)
    requires DocumentOk(fold, valid, names)
    ensures var after := Changed(fold, valid, names, changes);
      && DocumentOk(fold, valid, after)
      && names.Keys <= after.Keys
      && forall k | k in after :: (k in names && after[k] == names[k])
                               || exists i :: 0 <= i < |changes| && changes[i].key == k && changes[i].name == after[k]
    decreases |changes|
  {
    hide DocumentOk, Mutate;
    if changes == [] {
    } else {
      var c := changes[0];
      MutationsKeepDocument(fold, valid, names, c.key, c.name, c.effective, c.written);
      var next := Mutate(fold, valid, names, c.key, c.name, c.effective, c.written);
      var now := if next.Some? then next.value else names;
      AnyChangesKeepDocument(fold, valid, now, changes[1..]);
      var after := Changed(fold, valid, names, changes);
      assert after == Changed(fold, valid, now, changes[1..]);
      forall k | k in after && !(k in names && after[k] == names[k])
        ensures exists i :: 0 <= i < |changes| && changes[i].key == k && changes[i].name == after[k] {
        if k in now && after[k] == now[k] {
          assert changes[0].key == k && changes[0].name == after[k];
        } else {
          var i :| 0 <= i < |changes[1..]| && changes[1..][i].key == k && changes[1..][i].name == after[k];
          assert changes[i + 1].key == k && changes[i + 1].name == after[k];
        }
      }
    }
  }

  /** Some other key carries a name that folds like this one. */
  predicate Clashes(fold: Fold, names: map<Id, string>, k: Id, name: string) {
    exists j :: j in names && j != k && fold(names[j]) == fold(name)
  }

  predicate AllValid(valid: string -> bool, names: map<Id, string>) {
    forall j | j in names :: valid(names[j])
  }

  lemma MutateMeans(fold: Fold, valid: string -> bool, names: map<Id, string>, k: Id, name: string,
                    effective: map<Id, string>, written: bool)
    ensures Mutate(fold, valid, names, k, name, effective, written).Some? <==>
      && (k in names || |names| < MAX_ENTRIES) && valid(name) && !Clashes(fold, names, k, name)
      && AllValid(valid, effective) && !Clashes(fold, effective, k, name) && written
  {
  }

  /** The store object; `document` is its map of names, and `written` says whether the file could be written. */
  class PeerPolicyStore {
    var document: map<Id, string>

    constructor (stored: map<Id, string>)
      ensures document == stored
    {
      document := stored;
    }

    /** `Object.entries(...).find(...)`. */
    method FindConflict(fold: Fold, names: map<Id, string>, k: Id, name: string) returns (found: bool)
      ensures found == Clashes(fold, names, k, name)
    {
      var todo := names.Keys;
      while todo != {}
        invariant todo <= names.Keys
        invariant forall j | j in names && j !in todo :: j == k || fold(names[j]) != fold(name)
        decreases todo
      {
        var j :| j in todo;
        if j != k && fold(names[j]) == fold(name) {
          return true;
        }
        todo := todo - {j};
      }
      return false;
    }

    method MutateEntry(fold: Fold, valid: string -> bool, k: Id, name: string, effective: map<Id, string>, written: bool)
      returns (accepted: bool)
      modifies this
      ensures var next := Mutate(fold, valid, old(document), k, name, effective, written);
        accepted == next.Some? && document == if next.Some? then next.value else old(document)
    {
      hide Clashes, Mutate;
      MutateMeans(fold, valid, document, k, name, effective, written);
      MutateSets(fold, valid, document, k, name, effective, written);
      if k !in document && |document| >= MAX_ENTRIES {
        return false;
      }
      if !valid(name) {
        return false;
      }
      var conflict := FindConflict(fold, document, k, name);
      if conflict || !AllValid(valid, effective) {
        return false;
      }
      conflict := FindConflict(fold, effective, k, name);
      if conflict || !written {
        return false;
      }
      document := document[k := name];
      return true;
    }
  }

  lemma MutateSets(fold: Fold, valid: string -> bool, names: map<Id, string>, k: Id, name: string,
                   effective: map<Id, string>, written: bool)
    ensures var next := Mutate(fold, valid, names, k, name, effective, written);
      next.Some? ==> next.value == names[k := name]
  {
  }
}
