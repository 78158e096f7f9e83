/**
 Cursor pagination: `conversations.list` and `conversations.members` are read page by page, each page
 naming the cursor of the next, until the cursor is empty. A server answers by request number and
 cursor, so a listing may change between pages; nothing here assumes that it does not.
 */
module Pagination {
  import opened Outcomes
  import opened Errors
  import opened Types

  datatype Reply<T> = Page(items: seq<T>, next: string) | Failure(error: Error)

  type PageServer<T> = (nat, string) -> Reply<T>

  class Listing<T> {
    const serve: PageServer<T>
    /** The cursor of every request sent so far; the empty cursor is the parameter left out. */
    var sent: seq<string>

    constructor (serve: PageServer<T>)
      ensures this.serve == serve && sent == []
    {
      this.serve := serve;
      sent := [];
    }

    method Fetch(cursor: string) returns (reply: Reply<T>)
      modifies this
      ensures sent == old(sent) + [cursor]
      ensures reply == serve(|old(sent)|, cursor)
    {
      reply := serve(|sent|, cursor);
      sent := sent + [cursor];
    }
  }

  // ---------- The chain of pages ----------

  predicate Any<T>(items: seq<T>, wanted: T -> bool) {
    exists k :: 0 <= k < |items| && wanted(items[k])
  }

  /** A loop looking for a wanted item fetches no page after this reply. */
  predicate LastReply<T>(reply: Reply<T>, wanted: T -> bool) {
    reply.Failure? || reply.next == "" || Any(reply.items, wanted)
  }

  /** The chain from request `t` with `cursor` reaches such a reply within `n` requests. */
  ghost predicate Halts<T(!new)>(serve: PageServer<T>, wanted: T -> bool, t: nat, cursor: string, n: nat)
    decreases n
  {
    n > 0 && (LastReply(serve(t, cursor), wanted) || Halts(serve, wanted, t + 1, serve(t, cursor).next, n - 1))
  }

  datatype Visit<T> = Visit(cursor: string, reply: Reply<T>)

  /** The requests made and replies received along that chain. */
  ghost function Trail<T(!new)>(serve: PageServer<T>, wanted: T -> bool, t: nat, cursor: string,
        n: nat): (r: seq<Visit<T>>)
    requires Halts(serve, wanted, t, cursor, n)
    ensures r != []
    decreases n
  {
    var reply := serve(t, cursor);
    [Visit(cursor, reply)] +
    if LastReply(reply, wanted) then [] else Trail(serve, wanted, t + 1, reply.next, n - 1)
  }

  ghost function Cursors<T>(trail: seq<Visit<T>>): seq<string> {
    if trail == [] then [] else [trail[0].cursor] + Cursors(trail[1..])
  }

  /** All items of the pages received, in order. */
  ghost function Items<T>(trail: seq<Visit<T>>): seq<T> {
    if trail == [] then []
    else (if trail[0].reply.Page? then trail[0].reply.items else []) + Items(trail[1..])
  }

  /** Where the cursor stands after `k` pages, if no page failed and none was the last. */
  ghost function CursorAfter<T(!new)>(serve: PageServer<T>, t: nat, cursor: string, k: nat): Option<string>
    decreases k
  {
    if k == 0 then Some(cursor)
    else
      var reply := serve(t, cursor);
      if reply.Failure? || reply.next == "" then None else CursorAfter(serve, t + 1, reply.next, k - 1)
  }

  /** Reply number `k` of the cursor chain exists and is one after which nothing more is fetched. */
  ghost predicate LastReplyAt<T(!new)>(serve: PageServer<T>, wanted: T -> bool, t: nat, cursor: string, k: nat) {
    var at := CursorAfter(serve, t, cursor, k);
    at.Some? && LastReply(serve(t + k, at.value), wanted)
  }

  /** A loop halts within `n` requests exactly when one of the first `n` replies of the cursor chain
      fails, has no next cursor, or holds a wanted item. */
  lemma {:induction false} HaltsIff<T(!new)>(serve: PageServer<T>, wanted: T -> bool, t: nat, cursor: string, n: nat)
    ensures Halts(serve, wanted, t, cursor, n) <==> exists k: nat :: k < n && LastReplyAt(serve, wanted, t, cursor, k)
    decreases n
  {
    if n > 0 {
      var reply := serve(t, cursor);
      if LastReply(reply, wanted) {
        assert LastReplyAt(serve, wanted, t, cursor, 0);
      } else {
        var u := t + 1;
        HaltsIff(serve, wanted, u, reply.next, n - 1);
        if k: nat :| k < n - 1 && LastReplyAt(serve, wanted, u, reply.next, k) {
          assert LastReplyAt(serve, wanted, t, cursor, k + 1);
        }
        if k: nat :| k < n && LastReplyAt(serve, wanted, t, cursor, k) {
          assert k > 0 && LastReplyAt(serve, wanted, u, reply.next, k - 1);
        }
      }
    }
  }

  // ---------- Reading every member ----------

  function Never<T(!new)>(): (p: T -> bool)
    ensures forall x :: !p(x)
  {
    x => false
  }

  ghost function GatherResult<T>(trail: seq<Visit<T>>): Result<seq<T>, Error>
    requires trail != []
  {
    var last := trail[|trail| - 1].reply;
    if last.Failure? then Err(last.error) else Ok(Items(trail))
  }

  lemma TailOfSum<T>(a: seq<T>, b: seq<T>)
    requires a != []
    ensures a + b != [] && (a + b)[0] == a[0] && (a + b)[1..] == a[1..] + b
  {
  }

  lemma {:induction false} ItemsAppend<T>(a: seq<Visit<T>>, b: seq<Visit<T>>)
    ensures Items(a + b) == Items(a) + Items(b)
    decreases |a|
  {
    if a == [] {
      assert a + b == b;
    } else {
      ItemsAppend(a[1..], b);
      TailOfSum(a, b);
      var head := if a[0].reply.Page? then a[0].reply.items else [];
      assert Items(a) == head + Items(a[1..]) && Items(a + b) == head + Items(a[1..] + b);
      hide Items;
      Regroup(head, Items(a[1..]), Items(b));
    }
  }

  lemma {:induction false} CursorsAppend<T>(a: seq<Visit<T>>, b: seq<Visit<T>>)
    ensures Cursors(a + b) == Cursors(a) + Cursors(b)
    decreases |a|
  {
    if a == [] {
      assert a + b == b;
    } else {
      CursorsAppend(a[1..], b);
      TailOfSum(a, b);
      var head := [a[0].cursor];
      assert Cursors(a) == head + Cursors(a[1..]) && Cursors(a + b) == head + Cursors(a[1..] + b);
      hide Cursors;
      Regroup(head, Cursors(a[1..]), Cursors(b));
    }
  }

  lemma TrailStep<T(!new)>(serve: PageServer<T>, wanted: T -> bool, t: nat, cursor: string, n: nat)
    requires Halts(serve, wanted, t, cursor, n)
    ensures n > 0
    ensures !LastReply(serve(t, cursor), wanted) ==> Halts(serve, wanted, t + 1, serve(t, cursor).next, n - 1)
    ensures var visit := Visit(cursor, serve(t, cursor));
            Trail(serve, wanted, t, cursor, n) ==
              [visit] +
              if LastReply(visit.reply, wanted) then [] else Trail(serve, wanted, t + 1, visit.reply.next, n - 1)
  {
  }

  /** A loop that set out along `trail` has made the visits `done` and stands before request `t`. */
  ghost predicate Underway<T(!new)>(
    trail: seq<Visit<T>>, done: seq<Visit<T>>, serve: PageServer<T>, wanted: T -> bool, t: nat, cursor: string, n: nat)
  {
    Halts(serve, wanted, t, cursor, n) && trail == done + Trail(serve, wanted, t, cursor, n)
  }

  /** One more visit: either it is the last one, or the loop is underway after it. */
  lemma VisitNext<T(!new)>(
    trail: seq<Visit<T>>, done: seq<Visit<T>>, serve: PageServer<T>, wanted: T -> bool, t: nat, cursor: string, n: nat)
    returns (next: seq<Visit<T>>)
    requires Underway(trail, done, serve, wanted, t, cursor, n)
    ensures n > 0 && var reply := serve(t, cursor);
            && next == done + [Visit(cursor, reply)]
            && Cursors(next) == Cursors(done) + [cursor]
            && Items(next) == Items(done) + (if reply.Page? then reply.items else [])
            && (LastReply(reply, wanted) ==> trail == next && trail[|trail| - 1].reply == reply)
            && (!LastReply(reply, wanted) ==> Underway(trail, next, serve, wanted, t + 1, reply.next, n - 1))
  {
    hide Trail, Halts, Any;
    var visit := Visit(cursor, serve(t, cursor));
    TrailStep(serve, wanted, t, cursor, n);
    ItemsAppend(done, [visit]);
    CursorsAppend(done, [visit]);
    assert Cursors([visit]) == [cursor] && Items([visit]) == if visit.reply.Page? then visit.reply.items else [];
    hide Cursors, Items;
    next := done + [visit];
    if !LastReply(visit.reply, wanted) {
      Regroup(done, [visit], Trail(serve, wanted, t + 1, visit.reply.next, n - 1));
    }
  }

  lemma Regroup<T>(a: seq<T>, b: seq<T>, c: seq<T>)
    ensures a + (b + c) == a + b + c
  {
  }

  method GetConversationMembers(listing: Listing<string>, ghost n: nat) returns (r: Result<seq<string>, Error>)
    requires Halts(listing.serve, Never(), |listing.sent|, "", n)
    modifies listing
    ensures var trail := old(Trail(listing.serve, Never(), |listing.sent|, "", n));
            r == GatherResult(trail) && listing.sent == old(listing.sent) + Cursors(trail)
  {
    ghost var trail := Trail(listing.serve, Never(), |listing.sent|, "", n);
    ghost var done: seq<Visit<string>> := [];
    ghost var left := n;
    var members: seq<string> := [];
    var cursor := "";
    assert Underway(trail, done, listing.serve, Never(), |listing.sent|, cursor, left);
    assert Items(done) == [] && Cursors(done) == [];
    hide Underway, Trail, Halts, Items, Cursors, Never;
    while true
      invariant Underway(trail, done, listing.serve, Never(), |listing.sent|, cursor, left)
      invariant members == Items(done) && listing.sent == old(listing.sent) + Cursors(done)
      decreases left
    {
      done := VisitNext(trail, done, listing.serve, Never(), |listing.sent|, cursor, left);
      var reply := listing.Fetch(cursor);
      if reply.Failure? {
        return Err(reply.error);
      }
      members := members + reply.items;
      cursor := reply.next;
      if cursor == "" {
        return Ok(members);
      }
      left := left - 1;
    }
  }

  /** Where the items of page `k` start among those of all pages. */
  ghost function Offset<T>(trail: seq<Visit<T>>, k: nat): nat
    requires k <= |trail|
  {
    if k == 0 then 0 else Offset(trail, k - 1) + if trail[k - 1].reply.Page? then |trail[k - 1].reply.items| else 0
  }

  lemma {:induction false} OffsetOfTail<T>(trail: seq<Visit<T>>, k: nat)
    requires 0 < k <= |trail|
    ensures Offset(trail, k) == Offset(trail, 1) + Offset(trail[1..], k - 1)
    decreases k
  {
    if k > 1 { OffsetOfTail(trail, k - 1); }
  }

  lemma {:induction false} ItemsAtOffsets<T>(trail: seq<Visit<T>>, k: nat, i: nat)
    requires k < |trail| && trail[k].reply.Page? && i < |trail[k].reply.items|
    ensures Offset(trail, k) + i < |Items(trail)| && Items(trail)[Offset(trail, k) + i] == trail[k].reply.items[i]
    decreases k
  {
    assert Offset(trail, 0) == 0;
    assert Offset(trail, 1) == if trail[0].reply.Page? then |trail[0].reply.items| else 0;
    if k > 0 {
      ItemsAtOffsets(trail[1..], k - 1, i);
      OffsetOfTail(trail, k);
    }
  }

  lemma {:induction false} ItemsCount<T>(trail: seq<Visit<T>>)
    ensures |Items(trail)| == Offset(trail, |trail|)
    decreases |trail|
  {
    if trail != [] {
      ItemsCount(trail[1..]);
      OffsetOfTail(trail, |trail|);
      assert Offset(trail, 0) == 0;
      assert Offset(trail, 1) == if trail[0].reply.Page? then |trail[0].reply.items| else 0;
    }
  }

  /** What gathering returns, page by page: the error of a page that failed, with which it stops, and no list; or
      a list in which every item of every page stands in place, the pages in order, and nothing else. */
  lemma GatheredIff<T(!new)>(serve: PageServer<T>, t: nat, cursor: string, n: nat)
    requires Halts(serve, Never(), t, cursor, n)
    ensures var trail := Trail(serve, Never(), t, cursor, n);
            var r := GatherResult(trail);
            && (r.Err? <==> exists k :: 0 <= k < |trail| && trail[k].reply.Failure?)
            && (forall k :: 0 <= k < |trail| && trail[k].reply.Failure? ==> r == Err(trail[k].reply.error))
            && (r.Ok? ==> |r.value| == Offset(trail, |trail|) && InPlace(trail, r.value))
  {
    var trail := Trail(serve, Never(), t, cursor, n);
    forall k | 0 <= k < |trail| ensures trail[k].reply.Failure? ==> k == |trail| - 1 {
      FailureIsLast(serve, Never(), t, cursor, n, k);
    }
    hide Trail, Items, Offset, Never;
    assert GatherResult(trail).Err? <==> trail[|trail| - 1].reply.Failure?;
    if GatherResult(trail).Ok? {
      assert forall k :: 0 <= k < |trail| ==> trail[k].reply.Page?;
      ItemsCount(trail);
      ItemsInPlace(trail);
    }
  }

  /** Item `i` of page `k`, if there is one, stands in its place among all items. */
  ghost predicate StandsInPlace<T>(trail: seq<Visit<T>>, items: seq<T>, k: nat, i: nat) {
    k < |trail| && trail[k].reply.Page? && i < |trail[k].reply.items| ==>
      Offset(trail, k) + i < |items| && items[Offset(trail, k) + i] == trail[k].reply.items[i]
  }

  ghost predicate InPlace<T>(trail: seq<Visit<T>>, items: seq<T>) {
    forall k: nat, i: nat :: StandsInPlace(trail, items, k, i)
  }

  lemma ItemsInPlace<T>(trail: seq<Visit<T>>)
    ensures InPlace(trail, Items(trail))
  {
    forall k: nat, i: nat ensures StandsInPlace(trail, Items(trail), k, i) {
      if k < |trail| && trail[k].reply.Page? && i < |trail[k].reply.items| { ItemsAtOffsets(trail, k, i); }
    }
  }

  lemma {:induction false} FailureIsLast<T(!new)>(serve: PageServer<T>, wanted: T -> bool, t: nat, cursor: string,
        n: nat, k: nat)
    requires Halts(serve, wanted, t, cursor, n) && k < |Trail(serve, wanted, t, cursor, n)|
    ensures Trail(serve, wanted, t, cursor, n)[k].reply.Failure? ==> k == |Trail(serve, wanted, t, cursor, n)| - 1
    decreases k
  {
    TrailStep(serve, wanted, t, cursor, n);
    if k > 0 { FailureIsLast(serve, wanted, t + 1, serve(t, cursor).next, n - 1, k - 1); }
  }

  // ---------- Looking a channel up by name ----------

  function Named(name: string): (p: Channel -> bool)
    ensures forall c :: p(c) <==> c.name == name
  {
    (c: Channel) => c.name == name
  }

  /** The first channel of a list that has a name, nil if there is none. */
  function FirstNamed(channels: seq<Channel>, name: string): Option<Channel> {
    if channels == [] then None
    else if channels[0].name == name then Some(channels[0])
    else FirstNamed(channels[1..], name)
  }

  lemma {:induction false} FirstNamedIsListed(channels: seq<Channel>, name: string)
    ensures FirstNamed(channels, name).Some? ==>
              FirstNamed(channels, name).value in channels && FirstNamed(channels, name).value.name == name
    decreases |channels|
  {
    if channels != [] { FirstNamedIsListed(channels[1..], name); }
  }

  lemma {:induction false} FirstNamedIsNamed(channels: seq<Channel>, name: string)
    ensures FirstNamed(channels, name).None? <==> !Any(channels, Named(name))
    decreases |channels|
  {
    if channels != [] {
      if channels[0].name == name {
        assert Named(name)(channels[0]);
      } else {
        FirstNamedIsNamed(channels[1..], name);
        if k :| 0 <= k < |channels| && Named(name)(channels[k]) {
          assert channels[1..][k - 1] == channels[k];
        }
      }
    }
  }

  lemma {:induction false} FirstNamedIsFirst(channels: seq<Channel>, name: string, k: nat)
    requires k < |channels| && channels[k].name == name
    requires forall j :: 0 <= j < k ==> channels[j].name != name
    ensures FirstNamed(channels, name) == Some(channels[k])
    decreases k
  {
    if k > 0 {
      FirstNamedIsFirst(channels[1..], name, k - 1);
    }
  }

  ghost function FindResult(trail: seq<Visit<Channel>>, name: string): Result<Option<Channel>, Error>
    requires trail != []
  {
    var last := trail[|trail| - 1].reply;
    if last.Failure? then Err(last.error) else Ok(FirstNamed(Items(trail), name))
  }

  lemma {:induction false} FirstNamedAppend(a: seq<Channel>, b: seq<Channel>, name: string)
    ensures FirstNamed(a + b, name) == if FirstNamed(a, name).Some? then FirstNamed(a, name) else FirstNamed(b, name)
    decreases |a|
  {
    if a == [] {
      assert a + b == b;
    } else {
      FirstNamedAppend(a[1..], b, name);
      assert (a + b)[1..] == a[1..] + b;
    }
  }

  /** The scan of one page. */
  method FindOnPage(channels: seq<Channel>, name: string) returns (r: Option<Channel>)
    ensures r == FirstNamed(channels, name)
  {
    FirstNamedIsNamed(channels, name);
    for i := 0 to |channels|
      invariant forall j :: 0 <= j < i ==> channels[j].name != name
    {
      if channels[i].name == name {
        FirstNamedIsFirst(channels, name, i);
        return Some(channels[i]);
      }
    }
    return None;
  }

  /** A search that set out along `trail` after `start` has sent `sent`, seen no page with the name, and
      stands before `cursor`. */
  ghost predicate Searching(
    trail: seq<Visit<Channel>>, start: seq<string>, sent: seq<string>, serve: PageServer<Channel>,
      name: string, cursor: string, n: nat)
  {
    exists done ::
      && Underway(trail, done, serve, Named(name), |sent|, cursor, n)
      && FirstNamed(Items(done), name).None? && sent == start + Cursors(done)
  }

  /** What a search that ends returns, and what it has sent by then. */
  ghost predicate EndsWith(
    trail: seq<Visit<Channel>>, start: seq<string>, sent: seq<string>, name: string, r: Result<Option<Channel>, Error>)
  {
    trail != [] && r == FindResult(trail, name) && sent == start + Cursors(trail)
  }

  /** One more page of a search: it fails, it has the name, it is the last one, or the search goes on. */
  lemma SearchNext(
    trail: seq<Visit<Channel>>, start: seq<string>, sent: seq<string>, serve: PageServer<Channel>,
      name: string, cursor: string, n: nat)
    requires Searching(trail, start, sent, serve, name, cursor, n)
    ensures n > 0
    ensures var reply := serve(|sent|, cursor);
            if reply.Failure? then EndsWith(trail, start, sent + [cursor], name, Err(reply.error))
            else if FirstNamed(reply.items, name).Some? || reply.next == "" then
              EndsWith(trail, start, sent + [cursor], name, Ok(FirstNamed(reply.items, name)))
            else Searching(trail, start, sent + [cursor], serve, name, reply.next, n - 1)
  {
    hide Underway, Items, FirstNamed, Named, Any, Halts, Trail, Cursors;
    var done :| Underway(trail, done, serve, Named(name), |sent|, cursor, n)
                && FirstNamed(Items(done), name).None? && sent == start + Cursors(done);
    var reply := serve(|sent|, cursor);
    var next := VisitNext(trail, done, serve, Named(name), |sent|, cursor, n);
    assert sent + [cursor] == start + Cursors(next);
    if reply.Page? {
      FirstNamedAppend(Items(done), reply.items, name);
      FirstNamedIsNamed(reply.items, name);
    }
  }

  method FindConversationByName(listing: Listing<Channel>, name: string, ghost n: nat)
    returns (r: Result<Option<Channel>, Error>)
    requires Halts(listing.serve, Named(name), |listing.sent|, "", n)
    modifies listing
    ensures var trail := old(Trail(listing.serve, Named(name), |listing.sent|, "", n));
            r == FindResult(trail, name) && listing.sent == old(listing.sent) + Cursors(trail)
  {
    var serve := listing.serve;
    ghost var start := listing.sent;
    ghost var trail := Trail(serve, Named(name), |start|, "", n);
    ghost var left := n;
    var cursor := "";
    assert Underway(trail, [], serve, Named(name), |start|, cursor, left) && start == start + Cursors<Channel>([]);
    hide Searching, Trail, Halts, Cursors, FirstNamed, Named, FindResult;
    while true
      invariant Searching(trail, start, listing.sent, serve, name, cursor, left)
      decreases left
    {
      SearchNext(trail, start, listing.sent, serve, name, cursor, left);
      var reply := listing.Fetch(cursor);
      if reply.Failure? {
        return Err(reply.error);
      }
      var found := FindOnPage(reply.items, name);
      if found.Some? {
        return Ok(found);
      }
      cursor := reply.next;
      if cursor == "" {
        return Ok(None);
      }
      left := left - 1;
    }
  }

  /** What a search returns, from the pages alone: the error of the page it stopped at, or the first channel on that
      page with the name, no page before having one. */
  lemma SearchedIff(serve: PageServer<Channel>, name: string, t: nat, cursor: string, n: nat)
    requires Halts(serve, Named(name), t, cursor, n)
    ensures var trail := Trail(serve, Named(name), t, cursor, n);
            var last := trail[|trail| - 1].reply;
            FindResult(trail, name) == if last.Failure? then Err(last.error) else Ok(FirstNamed(last.items, name))
    decreases n
  {
    hide FirstNamed, Named;
    var reply := serve(t, cursor);
    var first := [Visit(cursor, reply)];
    TrailStep(serve, Named(name), t, cursor, n);
    assert Items(first) == if reply.Page? then reply.items else [];
    if !LastReply(reply, Named(name)) {
      var rest := Trail(serve, Named(name), t + 1, reply.next, n - 1);
      SearchedIff(serve, name, t + 1, reply.next, n - 1);
      ItemsAppend(first, rest);
      FirstNamedAppend(reply.items, Items(rest), name);
      FirstNamedIsNamed(reply.items, name);
    }
  }

  /** No page is fetched after the one that holds the match, and the last page fetched has no next one
      unless it failed or holds the match. */
  lemma {:induction false} NothingFetchedAfterMatch(serve: PageServer<Channel>, name: string, t: nat,
        cursor: string, n: nat, k: nat)
    requires Halts(serve, Named(name), t, cursor, n)
    requires k < |Trail(serve, Named(name), t, cursor, n)|
    ensures var trail := Trail(serve, Named(name), t, cursor, n);
            var reply := trail[k].reply;
            k == |trail| - 1 <==> reply.Failure? || reply.next == "" || FirstNamed(reply.items, name).Some?
    decreases k
  {
    TrailStep(serve, Named(name), t, cursor, n);
    if serve(t, cursor).Page? { FirstNamedIsNamed(serve(t, cursor).items, name); }
    if k > 0 {
      assert !LastReply(serve(t, cursor), Named(name));
      NothingFetchedAfterMatch(serve, name, t + 1, serve(t, cursor).next, n - 1, k - 1);
    }
  }

  /** Stopping at the match is sound: whenever the whole listing can be read without error, the search
      gives the first match of all its pages together, and nothing exactly when no page has one. */
  lemma {:induction false} EarlyStopFindsFirstOfAll(serve: PageServer<Channel>, name: string, t: nat,
        cursor: string, n: nat)
    requires Halts(serve, Never(), t, cursor, n)
    requires GatherResult(Trail(serve, Never(), t, cursor, n)).Ok?
    ensures Halts(serve, Named(name), t, cursor, n)
    ensures FindResult(Trail(serve, Named(name), t, cursor, n), name)
            == Ok(FirstNamed(GatherResult(Trail(serve, Never(), t, cursor, n)).value, name))
    decreases n
  {
    hide FirstNamed, Named, Never;
    var reply := serve(t, cursor);
    var all := Trail(serve, Never(), t, cursor, n);
    var first := [Visit(cursor, reply)];
    assert all[0] == first[0];
    assert Items(first) == if reply.Page? then reply.items else [];
    if LastReply(reply, Never()) {
      assert all == first && Trail(serve, Named(name), t, cursor, n) == first;
    } else {
      var rest := Trail(serve, Never(), t + 1, reply.next, n - 1);
      assert all == first + rest && all[|all| - 1] == rest[|rest| - 1];
      ItemsAppend(first, rest);
      EarlyStopFindsFirstOfAll(serve, name, t + 1, reply.next, n - 1);
      FirstNamedAppend(reply.items, Items(rest), name);
      FirstNamedIsNamed(reply.items, name);
      var found := Trail(serve, Named(name), t, cursor, n);
      if Any(reply.items, Named(name)) {
        assert found == first;
      } else {
        var more := Trail(serve, Named(name), t + 1, reply.next, n - 1);
        assert found == first + more && found[|found| - 1] == more[|more| - 1];
        ItemsAppend(first, more);
        FirstNamedAppend(reply.items, Items(more), name);
      }
    }
  }

  /** The cursors sent follow the pages: the first request has none, and each later one carries the
      non-empty cursor of the page before. */
  lemma {:induction false} TrailFollowsCursors<T(!new)>(serve: PageServer<T>, wanted: T -> bool,
        t: nat, cursor: string, n: nat, k: nat)
    requires Halts(serve, wanted, t, cursor, n)
    requires k < |Trail(serve, wanted, t, cursor, n)|
    ensures var trail := Trail(serve, wanted, t, cursor, n);
            && trail[k].reply == serve(t + k, trail[k].cursor)
            && (k == 0 ==> trail[k].cursor == cursor)
            && (k > 0 ==> trail[k - 1].reply.Page? && trail[k].cursor == trail[k - 1].reply.next != "")
    decreases k
  {
    if k > 0 {
      var reply := serve(t, cursor);
      var rest := Trail(serve, wanted, t + 1, reply.next, n - 1);
      TrailFollowsCursors(serve, wanted, t + 1, reply.next, n - 1, k - 1);
      assert Trail(serve, wanted, t, cursor, n) == [Visit(cursor, reply)] + rest;
    }
  }
}
