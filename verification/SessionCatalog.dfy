/** Scanning the Host's session list page by page: `scanSessionCatalog` of src/agentHost/AhpAgentRuntime.ts. */
module SessionCatalog {
  import opened Wrappers

  type Id = nat

  const MAX_PAGES: nat := 50
  const PAGE_LIMIT: nat := 200
  const MAX_ENTRIES: nat := PAGE_LIMIT * MAX_PAGES
  const CURSOR_LENGTH: nat := 4096

  datatype Cursor = Absent | Malformed | Given(text: string)

  datatype Answer = Listed(items: seq<Id>, next: Cursor) | InternalError | OtherError

  datatype Request = Request(omitLimit: bool, cursor: Option<string>)

  datatype Outcome = Found | NotFound | BadPagination | Failed

  predicate ValidCursor(c: Cursor) {
    c.Given? && 1 <= |c.text| <= CURSOR_LENGTH
  }

  /** The request that follows one answered this way; the page limit is dropped for good after one internal error. */
  function Following(r: Request, a: Answer): Option<Request> {
    match a
    case InternalError => if r.omitLimit then None else Some(Request(true, r.cursor))
    case OtherError => None
    case Listed(_, next) => if ValidCursor(next) then Some(Request(r.omitLimit, Some(next.text))) else None
  }

  function ItemsOf(a: Answer): seq<Id> {
    if a.Listed? then a.items else []
  }

  /** All entries of the first `n` answers, in order. */
  function Entries(answers: nat -> Answer, n: nat): seq<Id> {
    if n == 0 then [] else Entries(answers, n - 1) + ItemsOf(answers(n - 1))
  }

  ghost predicate Chained(requests: seq<Request>, answers: nat -> Answer) {
    && (requests != [] ==> requests[0] == Request(false, None))
    && forall i | 0 <= i < |requests| - 1 :: Following(requests[i], answers(i)) == Some(requests[i + 1])
  }

  /** No cursor is used for two pages. */
  ghost predicate CursorsDiffer(requests: seq<Request>) {
    forall i, j | 0 <= i < j < |requests| && requests[i].cursor == requests[j].cursor ::
      j == i + 1 && !requests[i].omitLimit && requests[j].omitLimit
  }

  ghost predicate NoneMatches(entries: seq<Id>, matches: Id -> bool) {
    forall e | e in entries :: !matches(e)
  }

  /** The first entries, as many as a scan may visit. */
  function Bounded(entries: seq<Id>): seq<Id> {
    if |entries| <= MAX_ENTRIES then entries else entries[..MAX_ENTRIES]
  }

  /** The cursor of the last page cannot be followed: it is malformed, or was used before. */
  ghost predicate DeadEnd(requests: seq<Request>, next: Cursor) {
    !ValidCursor(next) || Used(requests, next.text)
  }

  /** The last answer was a page that names another one. */
  predicate Continues(answers: nat -> Answer, requests: seq<Request>, omitLimit: bool) {
    && requests != [] && requests[|requests| - 1].omitLimit == omitLimit
    && answers(|requests| - 1).Listed? && !answers(|requests| - 1).next.Absent?
  }

  ghost predicate Used(requests: seq<Request>, text: string) {
    exists i :: 0 <= i < |requests| && requests[i].cursor == Some(text)
  }

  /** Every page a scan may ask for has been answered. */
  predicate OutOfPages(requests: seq<Request>) {
    requests != [] && |requests| == MAX_PAGES + if requests[|requests| - 1].omitLimit then 1 else 0
  }

  /**
   How a scan that made these requests ends.  Before the last one nothing matched and the entry limit was kept; the
   outcome says what the last answer brought.
   */
  ghost predicate Ends(answers: nat -> Answer, matches: Id -> bool, requests: seq<Request>, outcome: Outcome, visited: seq<Id>)
    requires requests != []
  {
    var before, all, last := Entries(answers, |requests| - 1), Entries(answers, |requests|), answers(|requests| - 1);
    && |before| <= MAX_ENTRIES && NoneMatches(before, matches)
    && visited <= Bounded(all)
    && (if outcome == Found
        then visited != [] && matches(visited[|visited| - 1]) && NoneMatches(visited[..|visited| - 1], matches)
        else visited == Bounded(all) && NoneMatches(visited, matches))
    && match outcome
       case Found => last.Listed?
       case NotFound => last.Listed? && last.next.Absent? && visited == all
       case Failed => last.OtherError? || (last.InternalError? && requests[|requests| - 1].omitLimit)
       case BadPagination =>
         last.Listed? && (|all| > MAX_ENTRIES
                          || (!last.next.Absent? && (DeadEnd(requests, last.next) || OutOfPages(requests))))
  }

  /**
   Visits entries until one matches.  The page counter is stepped back once, when the limit is dropped, so the
   loop is measured lexicographically.  `answers(k)` is the Host's answer to the `k`-th request.

   The contract leaves no choice: a scan goes on exactly as long as nothing matched, the bounds are kept and the
   last answer can be followed, and its outcome says which of these ended it.
   */
  method ScanSessionCatalog(answers: nat -> Answer, matches: Id -> bool)
    returns (outcome: Outcome, requests: seq<Request>, visited: seq<Id>)
    ensures Chained(requests, answers) && CursorsDiffer(requests)
    ensures 1 <= |requests| <= MAX_PAGES + if requests[|requests| - 1].omitLimit then 1 else 0
    ensures Ends(answers, matches, requests, outcome, visited)
  {
    hide Entries, Ends;
    outcome, requests, visited := BadPagination, [], [];
    var cursor: Option<string> := None;
    var omitLimit := false;
    var seen: set<string> := {};
    var pageNumber := 0;
    EntriesStep(answers, 0);
    while pageNumber < MAX_PAGES
      invariant 0 <= pageNumber <= MAX_PAGES && outcome == BadPagination
      invariant |requests| == pageNumber + if omitLimit then 1 else 0
      invariant Chained(requests + [Request(omitLimit, cursor)], answers)
      invariant CursorsDiffer(requests + [Request(omitLimit, cursor)])
      invariant forall i | 0 <= i < |requests| :: requests[i].cursor.Some? ==> requests[i].cursor.value in seen
      invariant cursor.Some? ==> cursor.value in seen
      invariant visited == Entries(answers, |requests|) && |visited| <= MAX_ENTRIES && NoneMatches(visited, matches)
      invariant forall text | text in seen :: cursor == Some(text) || Used(requests, text)
      invariant pageNumber == MAX_PAGES ==> Continues(answers, requests, omitLimit)
      invariant requests == [] ==> pageNumber == 0 && !omitLimit
      decreases if omitLimit then 0 else 1, MAX_PAGES - pageNumber
    {
      hide Chained, CursorsDiffer, NoneMatches, ValidCursor, OutOfPages, Used, DeadEnd;
      var answer := answers(|requests|);
      var request := Request(omitLimit, cursor);
      EntriesStep(answers, |requests| + 1);
      ChainedPrefix(requests, request, answers);
      UsedLater(requests, request);
      requests := requests + [request];
      if answer.InternalError? && !omitLimit {
        assert visited + [] == visited;
        ChainedNext(requests, Request(true, cursor), answers);
        DifferRetry(requests, cursor);
        omitLimit := true;
        continue;
      }
      if !answer.Listed? {
        outcome := Failed;
        EndsInError(answers, matches, requests, visited);
        return;
      }
      var before := visited;
      var stop := false;
      visited, outcome, stop := VisitPage(before, answer.items, matches);
      if stop {
        EndsOnPage(answers, matches, requests, before, outcome, visited);
        return;
      }
      if answer.next.Absent? {
        outcome := NotFound;
        EndsAfterPage(answers, matches, requests, outcome, visited);
        return;
      }
      if !ValidCursor(answer.next) || (answer.next.Given? && answer.next.text in seen) {
        CursorMayBeText(answer.next);
        EndsAtCursor(answers, matches, requests, visited, seen);
        return;
      }
      CursorIsText(answer.next);
      ChainedNext(requests, Request(omitLimit, Some(answer.next.text)), answers);
      DifferNext(requests, Request(omitLimit, Some(answer.next.text)), seen);
      seen := seen + {answer.next.text};
      cursor := Some(answer.next.text);
      pageNumber := pageNumber + 1;
    }
    ChainedPrefix(requests, Request(omitLimit, cursor), answers);
    DifferPrefix(requests, Request(omitLimit, cursor));
    EntriesStep(answers, |requests|);
    EndsAfterPage(answers, matches, requests, outcome, visited);
  }

  lemma EndsInError(answers: nat -> Answer, matches: Id -> bool, requests: seq<Request>, visited: seq<Id>)
    requires requests != [] && visited == Entries(answers, |requests| - 1) && |visited| <= MAX_ENTRIES
    requires NoneMatches(visited, matches)
    requires var last := answers(|requests| - 1);
      last.OtherError? || (last.InternalError? && requests[|requests| - 1].omitLimit)
    ensures Ends(answers, matches, requests, Failed, visited)
  {
    EntriesStep(answers, |requests|);
    hide NoneMatches, Entries;
    assert visited + [] == visited;
  }

  /** The page holds a match, or an entry too many. */
  lemma EndsOnPage(answers: nat -> Answer, matches: Id -> bool, requests: seq<Request>, before: seq<Id>, outcome: Outcome,
                   visited: seq<Id>)
    requires requests != [] && before == Entries(answers, |requests| - 1) && |before| <= MAX_ENTRIES
    requires NoneMatches(before, matches) && answers(|requests| - 1).Listed?
    requires var all := before + answers(|requests| - 1).items;
      && visited <= all && |visited| <= MAX_ENTRIES
      && if outcome == Found
         then visited != [] && matches(visited[|visited| - 1]) && NoneMatches(visited[..|visited| - 1], matches)
         else outcome == BadPagination && |all| > MAX_ENTRIES && visited == all[..MAX_ENTRIES] && NoneMatches(visited, matches)
    ensures Ends(answers, matches, requests, outcome, visited)
  {
    EntriesStep(answers, |requests|);
    hide NoneMatches, Entries;
  }

  /** The whole page was visited and there is no other one, or it may not be asked for. */
  lemma EndsAfterPage(answers: nat -> Answer, matches: Id -> bool, requests: seq<Request>, outcome: Outcome, visited: seq<Id>)
    requires requests != [] && visited == Entries(answers, |requests|) && |visited| <= MAX_ENTRIES
    requires NoneMatches(visited, matches) && answers(|requests| - 1).Listed?
    requires var next := answers(|requests| - 1).next;
      if next.Absent? then outcome == NotFound
      else outcome == BadPagination && (DeadEnd(requests, next) || OutOfPages(requests))
    ensures Ends(answers, matches, requests, outcome, visited)
  {
    EntriesStep(answers, |requests|);
    hide Entries;
  }

  lemma EndsAtCursor(answers: nat -> Answer, matches: Id -> bool, requests: seq<Request>, visited: seq<Id>, seen: set<string>)
    requires requests != [] && visited == Entries(answers, |requests|) && |visited| <= MAX_ENTRIES
    requires NoneMatches(visited, matches) && answers(|requests| - 1).Listed?
    requires forall text | text in seen :: Used(requests, text)
    requires var next := answers(|requests| - 1).next;
      !next.Absent? && (!ValidCursor(next) || (next.Given? && next.text in seen))
    ensures Ends(answers, matches, requests, BadPagination, visited)
  {
    hide Ends, Used, NoneMatches, Entries, ValidCursor;
    EndsAfterPage(answers, matches, requests, BadPagination, visited);
  }

  /** The loop over one page. */
  method VisitPage(before: seq<Id>, items: seq<Id>, matches: Id -> bool)
    returns (visited: seq<Id>, outcome: Outcome, stop: bool)
    requires |before| <= MAX_ENTRIES && NoneMatches(before, matches)
    ensures visited <= before + items && |visited| <= MAX_ENTRIES && before <= visited
    ensures outcome == Found || outcome == BadPagination
    ensures outcome == Found ==> stop && visited != [] && matches(visited[|visited| - 1])
                                 && NoneMatches(visited[..|visited| - 1], matches)
    ensures outcome != Found ==> NoneMatches(visited, matches)
    ensures !stop ==> visited == before + items
    ensures stop && outcome == BadPagination ==>
      |before + items| > MAX_ENTRIES && visited == (before + items)[..MAX_ENTRIES]
  {
    visited, outcome, stop := before, BadPagination, false;
    var k := 0;
    while k < |items|
      invariant 0 <= k <= |items|
      invariant visited == before + items[..k] && |visited| <= MAX_ENTRIES && NoneMatches(visited, matches)
      invariant outcome == BadPagination && !stop
    {
      if |visited| + 1 > MAX_ENTRIES {
        stop := true;
        assert (before + items)[..|before| + k] == visited;
        return;
      }
      var longer := visited + [items[k]];
      assert longer == before + items[..k + 1];
      assert (before + items)[..|before| + k + 1] == longer;
      if matches(items[k]) {
        assert longer[..|longer| - 1] == visited;
        visited, outcome, stop := longer, Found, true;
        return;
      }
      visited := longer;
      k := k + 1;
    }
    assert items[..k] == items;
  }

  lemma EntriesStep(answers: nat -> Answer, n: nat)
    ensures Entries(answers, n) == if n == 0 then [] else Entries(answers, n - 1) + ItemsOf(answers(n - 1))
  {
  }

  lemma ChainedPrefix(requests: seq<Request>, request: Request, answers: nat -> Answer)
    requires Chained(requests + [request], answers)
    ensures Chained(requests, answers)
  {
    var whole := requests + [request];
    assert forall i | 0 <= i < |requests| :: requests[i] == whole[i];
  }

  lemma DifferPrefix(requests: seq<Request>, request: Request)
    requires CursorsDiffer(requests + [request])
    ensures CursorsDiffer(requests)
  {
    var whole := requests + [request];
    assert forall i | 0 <= i < |requests| :: requests[i] == whole[i];
  }

  lemma ChainedNext(requests: seq<Request>, next: Request, answers: nat -> Answer)
    requires requests != [] && Chained(requests, answers)
    requires Following(requests[|requests| - 1], answers(|requests| - 1)) == Some(next)
    ensures Chained(requests + [next], answers)
  {
  }

  lemma UsedLater(requests: seq<Request>, request: Request)
    ensures forall text :: Used(requests + [request], text) <==> Used(requests, text) || request.cursor == Some(text)
  {
    var longer := requests + [request];
    forall text ensures Used(longer, text) <==> Used(requests, text) || request.cursor == Some(text) {
      if Used(requests, text) {
        var i :| 0 <= i < |requests| && requests[i].cursor == Some(text);
        assert longer[i].cursor == Some(text);
      }
      if request.cursor == Some(text) { assert longer[|requests|].cursor == Some(text); }
    }
  }

  /** A cursor that is no text is not valid either. */
  lemma CursorMayBeText(c: Cursor)
    ensures !c.Given? ==> !ValidCursor(c)
  {
  }

  lemma CursorIsText(c: Cursor)
    requires ValidCursor(c)
    ensures c.Given?
  {
  }

  lemma DifferRetry(requests: seq<Request>, cursor: Option<string>)
    requires requests != [] && CursorsDiffer(requests) && requests[|requests| - 1] == Request(false, cursor)
    ensures CursorsDiffer(requests + [Request(true, cursor)])
  {
    var whole := requests + [Request(true, cursor)];
    forall i, j | 0 <= i < j < |whole| && whole[i].cursor == whole[j].cursor
      ensures j == i + 1 && !whole[i].omitLimit && whole[j].omitLimit {
    }
  }

  lemma DifferNext(requests: seq<Request>, next: Request, seen: set<string>)
    requires CursorsDiffer(requests) && next.cursor.Some? && next.cursor.value !in seen
    requires forall i | 0 <= i < |requests| :: requests[i].cursor.Some? ==> requests[i].cursor.value in seen
    ensures CursorsDiffer(requests + [next])
  {
  }
}
