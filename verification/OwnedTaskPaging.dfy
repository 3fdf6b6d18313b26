/**
 Paging through the tasks a window owns: `listOwnedTasks` of src/broker/DeviceBroker.ts, and a client that follows
 the cursor while routes come and go.
 */
module OwnedTaskPaging {
  import opened Wrappers
  import Sets
  import Sorting

  type Id = nat

  /** `createdAt` never changes; the timestamps are those of the schema, so they always parse. */
  datatype Route = Route(id: Id, createdAt: int)

  /** Newest first; equal times by task id. */
  predicate Before(a: Route, b: Route) {
    a.createdAt > b.createdAt || (a.createdAt == b.createdAt && a.id < b.id)
  }

  predicate NotAfter(a: Route, b: Route) {
    a == b || Before(a, b)
  }

  /**
   What the broker knows when it serves a page: `visible` says which routes the caller may see, and `size` how many
   bytes the response takes, which depends on the titles and states the tasks have just then.
   */
  datatype Snapshot = Snapshot(routes: seq<Route>, visible: set<Id>, size: Page -> nat)

  ghost predicate UniqueIds(routes: seq<Route>) {
    forall i, j | 0 <= i < j < |routes| :: routes[i].id != routes[j].id
  }

  ghost predicate StrictlyOrdered(routes: seq<Route>) {
    forall i, j | 0 <= i < j < |routes| :: Before(routes[i], routes[j])
  }

  function OwnedRoutes(s: Snapshot): seq<Route> {
    Sorting.Sort(NotAfter, s.routes)
  }

  lemma OrderIsTotal()
    ensures Sorting.TotalOrder(NotAfter)
  {
  }

  lemma OwnedRoutesAreOrdered(s: Snapshot)
    requires UniqueIds(s.routes)
    ensures StrictlyOrdered(OwnedRoutes(s)) && forall r :: r in OwnedRoutes(s) <==> r in s.routes
  {
    hide Sorting.Sort, Sorting.TotalOrder;
    OrderIsTotal();
    Sorting.SortOrders(NotAfter, s.routes);
    Sorting.SortKeepsDistinct(NotAfter, s.routes);
    var sorted := OwnedRoutes(s);
    forall i, j | 0 <= i < j < |sorted| ensures Before(sorted[i], sorted[j]) {
      assert NotAfter(sorted[i], sorted[j]);
      assert sorted[i] != sorted[j];
    }
  }

  function IndexOf(routes: seq<Route>, id: Id): (i: nat)
    ensures i <= |routes| && (i < |routes| ==> routes[i].id == id)
    ensures forall j | 0 <= j < i :: routes[j].id != id
  {
    if routes == [] || routes[0].id == id then 0 else 1 + IndexOf(routes[1..], id)
  }

  function VisibleOf(routes: seq<Route>, visible: set<Id>): (shown: seq<Route>)
    ensures |shown| <= |routes|
    ensures forall r :: r in shown <==> r in routes && r.id in visible
  {
    if routes == [] then []
    else (if routes[0].id in visible then [routes[0]] else []) + VisibleOf(routes[1..], visible)
  }

  datatype Page = Page(tasks: seq<Route>, truncated: bool, total: nat, next: Option<Id>)

  datatype Reply = Served(page: Page) | NotFound | TooLarge

  /** The page that shows the first `count` of the tasks left. */
  function PageOf(left: seq<Route>, total: nat, count: nat): Page
    requires 0 < count <= |left|
  {
    Page(left[..count], |left| > count, total, if |left| > count then Some(left[count - 1].id) else None)
  }

  /** The largest page that fits, counting down. */
  function Largest(left: seq<Route>, total: nat, count: nat, size: Page -> nat, frame: nat): Reply
    requires count <= |left|
    decreases count
  {
    if count == 0 then TooLarge
    else if size(PageOf(left, total, count)) <= frame then Served(PageOf(left, total, count))
    else Largest(left, total, count - 1, size, frame)
  }

  function Left(s: Snapshot, cursor: Option<Id>): Option<seq<Route>> {
    var routes := OwnedRoutes(s);
    if cursor.None? then Some(VisibleOf(routes, s.visible))
    else
      var i := IndexOf(routes, cursor.value);
      if i == |routes| then None else Some(VisibleOf(routes[i + 1..], s.visible))
  }

  function ListPage(s: Snapshot, cursor: Option<Id>, limit: nat, frame: nat): Reply {
    var left := Left(s, cursor);
    var total := |VisibleOf(OwnedRoutes(s), s.visible)|;
    if left.None? then NotFound
    else if left.value == [] then Served(Page([], false, total, None))
    else Largest(left.value, total, if limit < |left.value| then limit else |left.value|, s.size, frame)
  }

  const MAX_LIMIT: nat := 100

  /** The refinements of `ownedTaskListResultSchema` report no issue. */
  ghost predicate PassesSchema(page: Page, size: Page -> nat, frame: nat) {
    && |page.tasks| <= MAX_LIMIT
    && UniqueIds(page.tasks)
    && |page.tasks| <= page.total
    && (page.truncated <==> page.next.Some?)
    && (page.next.Some? ==> page.tasks != [] && page.tasks[|page.tasks| - 1].id == page.next.value)
    && size(page) <= frame
  }

  /** The broker's method: it looks the cursor up, filters, and counts `visibleCount` down. */
  method ListOwnedTasks(s: Snapshot, cursor: Option<Id>, limit: nat, frame: nat) returns (reply: Reply)
    ensures reply == ListPage(s, cursor, limit, frame)
  {
    hide VisibleOf, Sorting.Sort, IndexOf, Largest;
    var routes := OwnedRoutes(s);
    var start: nat := 0;
    if cursor.Some? {
      var index := 0;
      while index < |routes| && routes[index].id != cursor.value
        invariant 0 <= index <= |routes|
        invariant forall j | 0 <= j < index :: routes[j].id != cursor.value
      {
        index := index + 1;
      }
      IndexIs(routes, cursor.value, index);
      if index == |routes| {
        return NotFound;
      }
      start := index + 1;
    }
    assert cursor.None? ==> routes[start..] == routes;
    var projected := VisibleOf(routes[start..], s.visible);
    var total := |VisibleOf(routes, s.visible)|;
    if projected == [] {
      return Served(Page([], false, total, None));
    }
    var visibleCount: nat := if limit < |projected| then limit else |projected|;
    ghost var answer := ListPage(s, cursor, limit, frame);
    assert answer == Largest(projected, total, visibleCount, s.size, frame);
    hide ListPage, PageOf;
    while visibleCount > 0
      invariant visibleCount <= |projected|
      invariant answer == Largest(projected, total, visibleCount, s.size, frame)
    {
      LargestStep(projected, total, visibleCount, s.size, frame);
      var page := PageOf(projected, total, visibleCount);
      if s.size(page) <= frame {
        return Served(page);
      }
      visibleCount := visibleCount - 1;
    }
    LargestStep(projected, total, 0, s.size, frame);
    return TooLarge;
  }

  lemma LargestStep(left: seq<Route>, total: nat, count: nat, size: Page -> nat, frame: nat)
    requires count <= |left|
    ensures Largest(left, total, count, size, frame)
         == if count == 0 then TooLarge
            else if size(PageOf(left, total, count)) <= frame then Served(PageOf(left, total, count))
            else Largest(left, total, count - 1, size, frame)
  {
    hide PageOf;
  }

  lemma IndexIs(routes: seq<Route>, id: Id, i: nat)
    requires i <= |routes| && (i < |routes| ==> routes[i].id == id)
    requires forall j | 0 <= j < i :: routes[j].id != id
    ensures IndexOf(routes, id) == i
  {
    hide IndexOf;
    var found := IndexOf(routes, id);
  }

  // ---------- One page ----------

  lemma {:induction false} VisibleKeepsOrder(routes: seq<Route>, visible: set<Id>)
    requires StrictlyOrdered(routes)
    ensures StrictlyOrdered(VisibleOf(routes, visible))
    decreases |routes|
  {
    if routes == [] {
    } else {
      VisibleKeepsOrder(routes[1..], visible);
      var rest := VisibleOf(routes[1..], visible);
      forall i | 0 <= i < |rest| ensures Before(routes[0], rest[i]) {
        assert rest[i] in routes[1..];
      }
    }
  }

  lemma {:induction false} VisibleOfRest(routes: seq<Route>, visible: set<Id>, i: nat)
    requires i <= |routes|
    ensures |VisibleOf(routes[i..], visible)| <= |VisibleOf(routes, visible)|
    decreases i
  {
    if i == 0 {
      assert routes[0..] == routes;
    } else {
      VisibleOfRest(routes[1..], visible, i - 1);
      assert routes[1..][i - 1..] == routes[i..];
    }
  }

  lemma {:induction false} LargestIsLargest(left: seq<Route>, total: nat, count: nat, size: Page -> nat, frame: nat)
    requires count <= |left|
    ensures var reply := Largest(left, total, count, size, frame);
      && (reply.Served? ==> exists k :: 0 < k <= count && reply.page == PageOf(left, total, k) && size(reply.page) <= frame
                                  && forall j | k < j <= count :: size(PageOf(left, total, j)) > frame)
      && (!reply.Served? ==> reply.TooLarge? && forall j | 0 < j <= count :: size(PageOf(left, total, j)) > frame)
    decreases count
  {
    hide PageOf;
    if count == 0 || size(PageOf(left, total, count)) <= frame {
    } else {
      LargestIsLargest(left, total, count - 1, size, frame);
    }
  }

  /** The routes after the cursor, in order. */
  ghost predicate After(s: Snapshot, cursor: Option<Id>, r: Route) {
    cursor.None? || exists c :: c in s.routes && c.id == cursor.value && Before(c, r)
  }

  lemma LeftMeans(s: Snapshot, cursor: Option<Id>)
    requires UniqueIds(s.routes)
    ensures Left(s, cursor).None? <==> cursor.Some? && forall r | r in s.routes :: r.id != cursor.value
    ensures Left(s, cursor).Some? ==>
      && StrictlyOrdered(Left(s, cursor).value)
      && forall r :: r in Left(s, cursor).value <==> r in s.routes && r.id in s.visible && After(s, cursor, r)
  {
    hide Sorting.Sort, VisibleOf;
    var routes := OwnedRoutes(s);
    OwnedRoutesAreOrdered(s);
    if cursor.None? {
      VisibleKeepsOrder(routes, s.visible);
    } else {
      var i := IndexOf(routes, cursor.value);
      CursorPosition(s, routes, cursor.value, i);
      if i < |routes| {
        VisibleKeepsOrder(routes[i + 1..], s.visible);
        TailIsAfter(s, routes, cursor, i);
      }
    }
  }

  lemma CursorPosition(s: Snapshot, routes: seq<Route>, id: Id, i: nat)
    requires i == IndexOf(routes, id) && forall r :: r in routes <==> r in s.routes
    ensures i == |routes| <==> forall r | r in s.routes :: r.id != id
  {
    hide IndexOf;
    if i < |routes| {
      assert routes[i] in s.routes;
    } else {
      forall r | r in s.routes ensures r.id != id {
        var j :| 0 <= j < |routes| && routes[j] == r;
      }
    }
  }

  lemma TailIsAfter(s: Snapshot, routes: seq<Route>, cursor: Option<Id>, i: nat)
    requires i < |routes| && cursor == Some(routes[i].id) && StrictlyOrdered(routes) && UniqueIds(s.routes)
    requires forall r :: r in routes <==> r in s.routes
    ensures forall r :: r in routes[i + 1..] <==> r in s.routes && After(s, cursor, r)
  {
    forall r ensures r in routes[i + 1..] <==> r in s.routes && After(s, cursor, r) {
      if r in routes[i + 1..] {
        var j :| i < j < |routes| && routes[j] == r;
        assert Before(routes[i], routes[j]) && routes[i] in s.routes;
      }
      if r in s.routes && After(s, cursor, r) {
        var c :| c in s.routes && c.id == cursor.value && Before(c, r);
        assert c == routes[i] by { SameRoute(s.routes, c, routes[i]); }
        var j :| 0 <= j < |routes| && routes[j] == r;
        OrderFollowsIndex(routes, i, j);
        assert routes[i + 1..][j - i - 1] == r;
      }
    }
  }

  lemma OrderFollowsIndex(routes: seq<Route>, i: nat, j: nat)
    requires StrictlyOrdered(routes) && i < |routes| && j < |routes|
    ensures Before(routes[i], routes[j]) <==> i < j
  {
    if j < i {
      assert Before(routes[j], routes[i]);
    }
  }

  lemma SameRoute(routes: seq<Route>, a: Route, b: Route)
    requires UniqueIds(routes) && a in routes && b in routes && a.id == b.id
    ensures a == b
  {
    var i :| 0 <= i < |routes| && routes[i] == a;
    var j :| 0 <= j < |routes| && routes[j] == b;
    assert i == j;
  }

  /** What a served page holds: the first tasks left, as many as fit, and the cursor exactly when some are left. */
  ghost predicate Serves(s: Snapshot, cursor: Option<Id>, limit: nat, frame: nat, page: Page) {
    var left := Left(s, cursor);
    && left.Some? && page.tasks <= left.value && |page.tasks| <= limit
    && (page.truncated <==> page.tasks != left.value)
    && (page.truncated <==> page.next.Some?)
    && (page.truncated ==> page.tasks != [] && page.next == Some(page.tasks[|page.tasks| - 1].id))
    && (forall k | |page.tasks| < k <= |left.value| && k <= limit :: s.size(PageOf(left.value, page.total, k)) > frame)
  }

  lemma PageMeans(s: Snapshot, cursor: Option<Id>, limit: nat, frame: nat)
    ensures var reply := ListPage(s, cursor, limit, frame);
      && (reply.Served? ==> Serves(s, cursor, limit, frame, reply.page))
      && (reply.Served? && Left(s, cursor).value != [] ==> s.size(reply.page) <= frame)
  {
    hide VisibleOf, Sorting.Sort, Left, OwnedRoutes, Largest;
    var left := Left(s, cursor);
    if left.Some? && left.value != [] {
      var total := |VisibleOf(OwnedRoutes(s), s.visible)|;
      LargestIsLargest(left.value, total, if limit < |left.value| then limit else |left.value|, s.size, frame);
    }
  }

  /** A page with tasks always passes its schema. */
  lemma PagesPassSchema(s: Snapshot, cursor: Option<Id>, limit: nat, frame: nat)
    requires UniqueIds(s.routes) && limit <= MAX_LIMIT
    ensures var reply := ListPage(s, cursor, limit, frame);
      reply.Served? && (reply.page.tasks != [] || s.size(reply.page) <= frame) ==> PassesSchema(reply.page, s.size, frame)
  {
    hide VisibleOf, Sorting.Sort;
    PageMeans(s, cursor, limit, frame);
    LeftMeans(s, cursor);
    LeftIsPartOfTotal(s, cursor);
    PageTotal(s, cursor, limit, frame);
    hide Left, ListPage, OwnedRoutes, PageOf;
    var reply := ListPage(s, cursor, limit, frame);
    if reply.Served? {
      PrefixIsUnique(Left(s, cursor).value, reply.page.tasks, s.routes);
    }
  }

  /** In an ordered list the same id can only stand for the same route. */
  ghost predicate IdsDetermine(tasks: seq<Route>) {
    forall a, b | a in tasks && b in tasks && a.id == b.id :: a == b
  }

  lemma OrderedIsUnique(tasks: seq<Route>)
    requires StrictlyOrdered(tasks) && IdsDetermine(tasks)
    ensures UniqueIds(tasks)
  {
    forall i, j | 0 <= i < j < |tasks| ensures tasks[i].id != tasks[j].id {
      assert Before(tasks[i], tasks[j]) && tasks[i] in tasks && tasks[j] in tasks;
    }
  }

  lemma PrefixIsUnique(left: seq<Route>, tasks: seq<Route>, routes: seq<Route>)
    requires StrictlyOrdered(left) && tasks <= left && UniqueIds(routes) && forall r | r in left :: r in routes
    ensures UniqueIds(tasks)
  {
    hide UniqueIds;
    forall i, j | 0 <= i < j < |tasks| ensures Before(tasks[i], tasks[j]) {
      assert tasks[i] == left[i] && tasks[j] == left[j];
    }
    forall a, b | a in tasks && b in tasks && a.id == b.id ensures a == b {
      assert a in left && b in left;
      SameRoute(routes, a, b);
    }
    OrderedIsUnique(tasks);
  }

  lemma LeftIsPartOfTotal(s: Snapshot, cursor: Option<Id>)
    ensures Left(s, cursor).Some? ==> |Left(s, cursor).value| <= |VisibleOf(OwnedRoutes(s), s.visible)|
  {
    hide VisibleOf, Sorting.Sort;
    var routes := OwnedRoutes(s);
    if cursor.Some? && IndexOf(routes, cursor.value) < |routes| {
      VisibleOfRest(routes, s.visible, IndexOf(routes, cursor.value) + 1);
    }
  }

  lemma PageTotal(s: Snapshot, cursor: Option<Id>, limit: nat, frame: nat)
    ensures var reply := ListPage(s, cursor, limit, frame);
      reply.Served? ==> reply.page.total == |VisibleOf(OwnedRoutes(s), s.visible)|
  {
    hide VisibleOf, Sorting.Sort, Left, OwnedRoutes, Largest;
    var left := Left(s, cursor);
    if left.Some? && left.value != [] {
      var total := |VisibleOf(OwnedRoutes(s), s.visible)|;
      LargestIsLargest(left.value, total, if limit < |left.value| then limit else |left.value|, s.size, frame);
    }
  }

  // ---------- A client that follows the cursor ----------

  /** One snapshot per page: between two pages routes may come, go, and become visible or terminal. */
  datatype Outcome = Outcome(tasks: seq<Route>, finished: bool)

  function Collect(snapshots: seq<Snapshot>, cursor: Option<Id>, limit: nat, frame: nat): Outcome
    decreases |snapshots|
  {
    if snapshots == [] then Outcome([], false)
    else
      var reply := ListPage(snapshots[0], cursor, limit, frame);
      if !reply.Served? then Outcome([], false)
      else if reply.page.next.None? then Outcome(reply.page.tasks, true)
      else
        var rest := Collect(snapshots[1..], reply.page.next, limit, frame);
        Outcome(reply.page.tasks + rest.tasks, rest.finished)
  }

  ghost predicate Unique(snapshots: seq<Snapshot>) {
    forall s | s in snapshots :: UniqueIds(s.routes)
  }

  /** A route keeps its creation time for as long as it exists. */
  ghost predicate StableTimes(snapshots: seq<Snapshot>) {
    forall s, t, a, b | s in snapshots && t in snapshots && a in s.routes && b in t.routes && a.id == b.id :: a == b
  }

  lemma TailOf(snapshots: seq<Snapshot>)
    requires snapshots != [] && Unique(snapshots) && StableTimes(snapshots)
    ensures Unique(snapshots[1..]) && StableTimes(snapshots[1..]) && UniqueIds(snapshots[0].routes)
  {
    assert forall s | s in snapshots[1..] :: s in snapshots;
    assert snapshots[0] in snapshots;
  }

  /** Everything collected comes after the cursor, wherever the cursor's route is still known. */
  ghost predicate AllAfter(snapshots: seq<Snapshot>, cursor: Option<Id>, tasks: seq<Route>) {
    forall s, c, r | s in snapshots && c in s.routes && cursor == Some(c.id) && r in tasks :: Before(c, r)
  }

  ghost predicate KnownCursor(snapshots: seq<Snapshot>, cursor: Option<Id>) {
    exists s, c :: s in snapshots && c in s.routes && cursor == Some(c.id)
  }

  ghost predicate KnownRoutes(snapshots: seq<Snapshot>, tasks: seq<Route>) {
    forall r | r in tasks :: exists s :: s in snapshots && r in s.routes
  }

  lemma KnownIsDetermined(snapshots: seq<Snapshot>, tasks: seq<Route>)
    requires StableTimes(snapshots) && KnownRoutes(snapshots, tasks)
    ensures IdsDetermine(tasks)
  {
    forall a, b | a in tasks && b in tasks && a.id == b.id ensures a == b {
      var s :| s in snapshots && a in s.routes;
      var t :| t in snapshots && b in t.routes;
    }
  }

  lemma KnownTogether(snapshots: seq<Snapshot>, tasks: seq<Route>, rest: seq<Route>)
    requires snapshots != [] && (forall r | r in tasks :: r in snapshots[0].routes) && KnownRoutes(snapshots[1..], rest)
    ensures KnownRoutes(snapshots, tasks + rest) && KnownRoutes(snapshots, tasks)
  {
    assert snapshots[0] in snapshots;
    forall r | r in rest ensures exists s :: s in snapshots && r in s.routes {
      var s :| s in snapshots[1..] && r in s.routes;
      assert s in snapshots;
    }
  }

  /** No task is returned twice: what is collected is strictly ordered. */
  lemma {:induction false} NothingTwice(snapshots: seq<Snapshot>, cursor: Option<Id>, limit: nat, frame: nat)
    requires Unique(snapshots) && StableTimes(snapshots)
    ensures var tasks := Collect(snapshots, cursor, limit, frame).tasks;
      && StrictlyOrdered(tasks) && UniqueIds(tasks) && AllAfter(snapshots, cursor, tasks)
      && (tasks != [] && cursor.Some? ==> KnownCursor(snapshots, cursor)) && KnownRoutes(snapshots, tasks)
    decreases |snapshots|
  {
    hide ListPage, Unique, StableTimes, UniqueIds, AllAfter, StrictlyOrdered, KnownCursor, KnownRoutes;
    var whole := Collect(snapshots, cursor, limit, frame).tasks;
    if snapshots == [] {
      EmptyIsFine(snapshots, cursor);
    } else {
      var reply := ListPage(snapshots[0], cursor, limit, frame);
      TailOf(snapshots);
      if !reply.Served? {
        EmptyIsFine(snapshots, cursor);
      } else {
        PageIsAfter(snapshots, cursor, limit, frame);
        if reply.page.next.None? {
          EmptyIsFine(snapshots[1..], cursor);
          KnownTogether(snapshots, whole, []);
        } else {
          NothingTwice(snapshots[1..], reply.page.next, limit, frame);
          var rest := Collect(snapshots[1..], reply.page.next, limit, frame).tasks;
          RestFollows(snapshots, cursor, reply.page.tasks, rest);
          KnownTogether(snapshots, reply.page.tasks, rest);
        }
        KnownIsDetermined(snapshots, whole);
        OrderedIsUnique(whole);
      }
    }
  }

  lemma EmptyIsFine(snapshots: seq<Snapshot>, cursor: Option<Id>)
    ensures StrictlyOrdered([]) && UniqueIds([]) && AllAfter(snapshots, cursor, []) && KnownRoutes(snapshots, [])
  {
  }

  lemma PageIsAfter(snapshots: seq<Snapshot>, cursor: Option<Id>, limit: nat, frame: nat)
    requires snapshots != [] && UniqueIds(snapshots[0].routes) && StableTimes(snapshots)
    requires ListPage(snapshots[0], cursor, limit, frame).Served?
    ensures var page := ListPage(snapshots[0], cursor, limit, frame).page;
      && StrictlyOrdered(page.tasks) && AllAfter(snapshots, cursor, page.tasks)
      && (forall r | r in page.tasks :: r in snapshots[0].routes)
      && (page.tasks != [] && cursor.Some? ==> KnownCursor(snapshots, cursor))
      && (page.next.Some? ==> page.tasks != [] && page.next == Some(page.tasks[|page.tasks| - 1].id))
  {
    hide ListPage, Left;
    var s := snapshots[0];
    PageMeans(s, cursor, limit, frame);
    LeftMeans(s, cursor);
    var page := ListPage(s, cursor, limit, frame).page;
    var left := Left(s, cursor).value;
    forall r | r in page.tasks ensures r in left {
      var i :| 0 <= i < |page.tasks| && page.tasks[i] == r;
      assert left[i] == r;
    }
    if page.tasks != [] && cursor.Some? {
      assert After(s, cursor, page.tasks[0]) && s in snapshots;
    }
    forall t, c, r | t in snapshots && c in t.routes && cursor == Some(c.id) && r in page.tasks ensures Before(c, r) {
      assert After(s, cursor, r);
      var own :| own in s.routes && own.id == cursor.value && Before(own, r);
      assert s in snapshots && own == c;
    }
  }

  lemma RestFollows(snapshots: seq<Snapshot>, cursor: Option<Id>, tasks: seq<Route>, rest: seq<Route>)
    requires snapshots != [] && StableTimes(snapshots) && tasks != [] && StrictlyOrdered(tasks) && StrictlyOrdered(rest)
    requires AllAfter(snapshots, cursor, tasks) && forall r | r in tasks :: r in snapshots[0].routes
    requires AllAfter(snapshots[1..], Some(tasks[|tasks| - 1].id), rest)
    requires rest != [] ==> KnownCursor(snapshots[1..], Some(tasks[|tasks| - 1].id))
    ensures StrictlyOrdered(tasks + rest) && AllAfter(snapshots, cursor, tasks + rest)
  {
    var last := tasks[|tasks| - 1];
    if rest != [] {
      LastIsBefore(snapshots, tasks, rest);
    }
    ConcatOrdered(tasks, rest);
    forall t, c, r | t in snapshots && c in t.routes && cursor == Some(c.id) && r in tasks + rest ensures Before(c, r) {
      if r !in tasks {
        assert Before(c, last);
      }
    }
  }

  lemma LastIsBefore(snapshots: seq<Snapshot>, tasks: seq<Route>, rest: seq<Route>)
    requires snapshots != [] && StableTimes(snapshots) && tasks != []
    requires forall r | r in tasks :: r in snapshots[0].routes
    requires AllAfter(snapshots[1..], Some(tasks[|tasks| - 1].id), rest)
    requires KnownCursor(snapshots[1..], Some(tasks[|tasks| - 1].id))
    ensures forall r | r in rest :: Before(tasks[|tasks| - 1], r)
  {
    var last := tasks[|tasks| - 1];
    var s, c :| s in snapshots[1..] && c in s.routes && Some(last.id) == Some(c.id);
    assert last in snapshots[0].routes && snapshots[0] in snapshots && s in snapshots;
    assert c == last;
  }

  lemma ConcatOrdered(a: seq<Route>, b: seq<Route>)
    requires StrictlyOrdered(a) && StrictlyOrdered(b) && a != []
    requires forall r | r in b :: Before(a[|a| - 1], r)
    ensures StrictlyOrdered(a + b)
  {
    var whole := a + b;
    forall i, j | 0 <= i < j < |whole| ensures Before(whole[i], whole[j]) {
      if i < |a| <= j {
        assert whole[j] in b && (i == |a| - 1 || Before(a[i], a[|a| - 1]));
      }
    }
  }

  // ---------- Everything that stays visible is returned ----------

  /** The route is known and visible at every page of the run. */
  ghost predicate AlwaysVisible(snapshots: seq<Snapshot>, r: Route) {
    forall s | s in snapshots :: r in s.routes && r.id in s.visible
  }

  /** Every task visible throughout a finished run is among those returned. */
  lemma {:induction false} NothingMissed(snapshots: seq<Snapshot>, cursor: Option<Id>, limit: nat,
                                         frame: nat, r: Route)
    requires Unique(snapshots) && StableTimes(snapshots) && AlwaysVisible(snapshots, r)
    requires snapshots != [] && After(snapshots[0], cursor, r)
    requires Collect(snapshots, cursor, limit, frame).finished
    ensures r in Collect(snapshots, cursor, limit, frame).tasks
    decreases |snapshots|
  {
    hide ListPage, Unique, StableTimes, UniqueIds, After, Left;
    TailOf(snapshots);
    PageCovers(snapshots, cursor, limit, frame, r);
    var page := ListPage(snapshots[0], cursor, limit, frame).page;
    if r in page.tasks {
    } else {
      var rest := snapshots[1..];
      assert forall s | s in rest :: s in snapshots;
      if rest != [] && ListPage(rest[0], page.next, limit, frame).Served? {
        CursorMovesOn(snapshots, page, limit, frame, r);
        NothingMissed(rest, page.next, limit, frame, r);
      }
    }
  }

  /** A page shows the task, or ends before it. */
  lemma PageCovers(snapshots: seq<Snapshot>, cursor: Option<Id>, limit: nat, frame: nat, r: Route)
    requires snapshots != [] && UniqueIds(snapshots[0].routes) && AlwaysVisible(snapshots, r)
    requires After(snapshots[0], cursor, r) && ListPage(snapshots[0], cursor, limit, frame).Served?
    ensures var page := ListPage(snapshots[0], cursor, limit, frame).page;
      r in page.tasks || (page.next.Some? && page.tasks != [] && Before(page.tasks[|page.tasks| - 1], r)
                          && page.next.value == page.tasks[|page.tasks| - 1].id
                          && page.tasks[|page.tasks| - 1] in snapshots[0].routes)
  {
    hide ListPage, Left;
    var s := snapshots[0];
    assert s in snapshots;
    PageMeans(s, cursor, limit, frame);
    LeftMeans(s, cursor);
    var page := ListPage(s, cursor, limit, frame).page;
    var left := Left(s, cursor).value;
    assert r in left;
    var i :| 0 <= i < |left| && left[i] == r;
    if i < |page.tasks| {
      assert page.tasks[i] == left[i];
    } else {
      assert page.tasks != left;
      assert left[|page.tasks| - 1] == page.tasks[|page.tasks| - 1] && Before(left[|page.tasks| - 1], left[i]);
      assert left[|page.tasks| - 1] in left;
    }
  }

  lemma CursorMovesOn(snapshots: seq<Snapshot>, page: Page, limit: nat, frame: nat, r: Route)
    requires |snapshots| > 1 && StableTimes(snapshots) && UniqueIds(snapshots[1].routes)
    requires page.tasks != [] && page.next == Some(page.tasks[|page.tasks| - 1].id)
    requires Before(page.tasks[|page.tasks| - 1], r) && page.tasks[|page.tasks| - 1] in snapshots[0].routes
    requires ListPage(snapshots[1], page.next, limit, frame).Served?
    ensures After(snapshots[1], page.next, r)
  {
    hide Left, Largest, VisibleOf, OwnedRoutes;
    LeftMeans(snapshots[1], page.next);
    var c :| c in snapshots[1].routes && c.id == page.next.value;
    assert snapshots[0] in snapshots && snapshots[1] in snapshots;
    assert c == page.tasks[|page.tasks| - 1];
  }

  // ---------- Paging ends ----------

  /** The tasks still to be shown after the cursor. */
  function Remaining(s: Snapshot, cursor: Option<Id>): nat {
    if Left(s, cursor).Some? then |Left(s, cursor).value| else 0
  }

  /** From page to page nothing appears behind the cursor: new routes sort before it. */
  ghost predicate NothingNewBehind(s: Snapshot, t: Snapshot, cursor: Option<Id>) {
    Left(s, cursor).Some? && Left(t, cursor).Some? ==>
      forall r | r in Left(t, cursor).value :: r in Left(s, cursor).value
  }

  /** At every page along the run. */
  ghost predicate OnlyNewerRoutes(snapshots: seq<Snapshot>, cursor: Option<Id>, limit: nat, frame: nat)
    decreases |snapshots|
  {
    |snapshots| > 1 ==>
      var reply := ListPage(snapshots[0], cursor, limit, frame);
      (reply.Served? && reply.page.next.Some? ==>
         && NothingNewBehind(snapshots[0], snapshots[1], reply.page.next)
         && OnlyNewerRoutes(snapshots[1..], reply.page.next, limit, frame))
  }

  /** The run is over: the last page was reached, or a page failed. */
  predicate Ends(snapshots: seq<Snapshot>, cursor: Option<Id>, limit: nat, frame: nat)
    decreases |snapshots|
  {
    snapshots != [] &&
      var reply := ListPage(snapshots[0], cursor, limit, frame);
      (!reply.Served? || reply.page.next.None? || Ends(snapshots[1..], reply.page.next, limit, frame))
  }

  /** As long as new routes sort before the cursor, one page per remaining task, and one more, is enough. */
  lemma {:induction false} PagingEnds(snapshots: seq<Snapshot>, cursor: Option<Id>, limit: nat, frame: nat)
    requires Unique(snapshots) && StableTimes(snapshots) && OnlyNewerRoutes(snapshots, cursor, limit, frame)
    requires snapshots != [] && |snapshots| > Remaining(snapshots[0], cursor)
    ensures Ends(snapshots, cursor, limit, frame)
    decreases |snapshots|
  {
    hide ListPage, Unique, StableTimes, UniqueIds, Left, NothingNewBehind;
    var reply := ListPage(snapshots[0], cursor, limit, frame);
    if !reply.Served? || reply.page.next.None? {
    } else {
      TailOf(snapshots);
      RemainingIsMore(snapshots[0], cursor, limit, frame);
      if |snapshots| > 1 && ListPage(snapshots[1], reply.page.next, limit, frame).Served? {
        TailOfTail(snapshots);
        RemainingShrinks(snapshots, cursor, limit, frame);
        PagingEnds(snapshots[1..], reply.page.next, limit, frame);
      }
    }
  }

  lemma TailOfTail(snapshots: seq<Snapshot>)
    requires |snapshots| > 1 && Unique(snapshots)
    ensures UniqueIds(snapshots[1].routes)
  {
    assert snapshots[1] in snapshots;
  }

  /** A page that has a successor shows at least one task and leaves at least one. */
  lemma RemainingIsMore(s: Snapshot, cursor: Option<Id>, limit: nat, frame: nat)
    requires ListPage(s, cursor, limit, frame).Served? && ListPage(s, cursor, limit, frame).page.next.Some?
    ensures Remaining(s, cursor) >= 2
  {
    hide ListPage, Left;
    PageMeans(s, cursor, limit, frame);
  }

  lemma RemainingShrinks(snapshots: seq<Snapshot>, cursor: Option<Id>, limit: nat, frame: nat)
    requires |snapshots| > 1 && UniqueIds(snapshots[0].routes) && UniqueIds(snapshots[1].routes)
    requires var reply := ListPage(snapshots[0], cursor, limit, frame);
      && reply.Served? && reply.page.next.Some? && NothingNewBehind(snapshots[0], snapshots[1], reply.page.next)
      && ListPage(snapshots[1], reply.page.next, limit, frame).Served?
    ensures var next := ListPage(snapshots[0], cursor, limit, frame).page.next;
      Remaining(snapshots[1], next) < Remaining(snapshots[0], cursor)
  {
    hide ListPage, Left;
    var s, t := snapshots[0], snapshots[1];
    PageMeans(s, cursor, limit, frame);
    var next := ListPage(s, cursor, limit, frame).page.next;
    PageMeans(t, next, limit, frame);
    LeftMeans(s, cursor);
    LeftMeans(s, next);
    LeftMeans(t, next);
    NextIsInside(s, cursor, ListPage(s, cursor, limit, frame).page);
    FewerAfter(Left(s, cursor).value, Left(t, next).value, ListPage(s, cursor, limit, frame).page.tasks[0]);
  }

  /** What is left after the next cursor was left before, without the first task shown. */
  lemma NextIsInside(s: Snapshot, cursor: Option<Id>, page: Page)
    requires UniqueIds(s.routes) && Left(s, cursor).Some? && page.tasks <= Left(s, cursor).value && page.tasks != []
    requires page.next == Some(page.tasks[|page.tasks| - 1].id)
    ensures Left(s, page.next).Some?
    ensures forall r | r in Left(s, page.next).value :: r in Left(s, cursor).value && r != page.tasks[0]
    ensures page.tasks[0] in Left(s, cursor).value
  {
    hide Left;
    LeftMeans(s, cursor);
    LeftMeans(s, page.next);
    var left := Left(s, cursor).value;
    var last := page.tasks[|page.tasks| - 1];
    assert last == left[|page.tasks| - 1] && page.tasks[0] == left[0];
    assert last in left && left[0] in left;
    forall r | r in Left(s, page.next).value ensures r in left && r != page.tasks[0] {
      assert After(s, page.next, r);
      var c :| c in s.routes && c.id == last.id && Before(c, r);
      SameRoute(s.routes, c, last);
      AfterIsTransitive(s, cursor, last, r);
      assert |page.tasks| > 1 ==> Before(left[0], last);
    }
  }

  lemma AfterIsTransitive(s: Snapshot, cursor: Option<Id>, a: Route, b: Route)
    requires After(s, cursor, a) && Before(a, b)
    ensures After(s, cursor, b)
  {
    if cursor.Some? {
      var c :| c in s.routes && c.id == cursor.value && Before(c, a);
      assert Before(c, b);
    }
  }

  /** An ordered list drawn from another one, without one of its elements, is shorter. */
  lemma FewerAfter(more: seq<Route>, fewer: seq<Route>, gone: Route)
    requires StrictlyOrdered(fewer) && StrictlyOrdered(more) && gone in more
    requires forall r | r in fewer :: r in more && r != gone
    ensures |fewer| < |more|
  {
    var all, some := SetOf(more), SetOf(fewer);
    SizeOfSet(more);
    SizeOfSet(fewer);
    assert some <= all - {gone};
    Sets.SubsetSize(some, all - {gone});
  }

  function SetOf(routes: seq<Route>): set<Route> {
    set r | r in routes
  }

  lemma {:induction false} SizeOfSet(routes: seq<Route>)
    requires StrictlyOrdered(routes)
    ensures |SetOf(routes)| == |routes|
    decreases |routes|
  {
    if routes == [] {
    } else {
      SizeOfSet(routes[1..]);
      assert SetOf(routes) == SetOf(routes[1..]) + {routes[0]};
      forall r | r in routes[1..] ensures r != routes[0] {
        var i :| 1 <= i < |routes| && routes[i] == r;
        assert Before(routes[0], routes[i]);
      }
    }
  }

  // ---------- Newest first ----------

  ghost predicate NewestFirst(tasks: seq<Route>) {
    forall i, j | 0 <= i < j < |tasks| ::
      tasks[i].createdAt >= tasks[j].createdAt && (tasks[i].createdAt == tasks[j].createdAt ==> tasks[i].id < tasks[j].id)
  }

  /** A page runs from the newest task left to older ones, and nothing newer is left for a later page. */
  lemma PagesRunNewestFirst(s: Snapshot, cursor: Option<Id>, limit: nat, frame: nat)
    requires UniqueIds(s.routes) && ListPage(s, cursor, limit, frame).Served?
    ensures var tasks := ListPage(s, cursor, limit, frame).page.tasks;
      && NewestFirst(tasks)
      && (cursor.None? ==> forall r | r in s.routes && r.id in s.visible && r !in tasks ::
            forall t | t in tasks :: t.createdAt > r.createdAt || (t.createdAt == r.createdAt && t.id < r.id))
  {
    PageMeans(s, cursor, limit, frame);
    LeftMeans(s, cursor);
    hide ListPage, Left;
    var left := Left(s, cursor).value;
    var tasks := ListPage(s, cursor, limit, frame).page.tasks;
    forall i, j | 0 <= i < j < |tasks| ensures Before(tasks[i], tasks[j]) {
      assert tasks[i] == left[i] && tasks[j] == left[j];
    }
    if cursor.None? {
      forall r, t | r in s.routes && r.id in s.visible && r !in tasks && t in tasks ensures Before(t, r) {
        assert r in left;
        var i :| 0 <= i < |tasks| && tasks[i] == t;
        var j :| 0 <= j < |left| && left[j] == r;
        assert forall x | 0 <= x < |tasks| :: tasks[x] == left[x] && tasks[x] in tasks;
        assert i < |tasks| <= j;
      }
    }
  }

  /** So does everything a client collects, whatever comes and goes between its pages. */
  lemma CollectedNewestFirst(snapshots: seq<Snapshot>, cursor: Option<Id>, limit: nat, frame: nat)
    requires Unique(snapshots) && StableTimes(snapshots)
    ensures NewestFirst(Collect(snapshots, cursor, limit, frame).tasks)
  {
    NothingTwice(snapshots, cursor, limit, frame);
    hide Collect, Unique, StableTimes, AllAfter, KnownCursor, KnownRoutes, UniqueIds;
    var tasks := Collect(snapshots, cursor, limit, frame).tasks;
    forall i, j | 0 <= i < j < |tasks| ensures Before(tasks[i], tasks[j]) {
    }
  }
}
