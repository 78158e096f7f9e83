/**
 The ConversationBookmark controller. Slack's side is an assumption: every add makes a new bookmark, an
 edit leaves alone every field it is not sent, and an archived channel refuses changes. The client does
 not send an empty title or link.
 */
module Bookmarks {
  import opened Outcomes
  import opened Errors
  import opened Types
  import opened Runtime

  // ---------- The client's encoding and Slack's side ----------

  /** The optional form parameters of an edit. */
  function EncodeEdit(title: string, link: string): (form: map<string, string>) {
    var form := if title != "" then map["title" := title] else map[];
    if link != "" then form["link" := link] else form
  }

  datatype Shelf = Shelf(archived: bool, marks: seq<Bookmark>)

  type Shelves = map<string, Shelf>

  function IndexOf(marks: seq<Bookmark>, id: string): (k: nat)
    ensures k <= |marks|
    ensures k < |marks| ==> marks[k].id == id
    ensures forall j :: 0 <= j < k ==> marks[j].id != id
  {
    if marks == [] || marks[0].id == id then 0 else 1 + IndexOf(marks[1..], id)
  }

  function Listed(shelves: Shelves, channel: string): (Shelves, Result<seq<Bookmark>, Error>) {
    (shelves, if channel in shelves then Ok(shelves[channel].marks) else Err(Rejection("channel_not_found")))
  }

  /** `ids(n)` is the ID a bookmark gets that is added by call number `n`. */
  function Added(ids: nat -> string, shelves: Shelves, channel: string, title: string, kind: string,
        link: string, n: nat)
    : (Shelves, Result<Bookmark, Error>)
  {
    if channel !in shelves then (shelves, Err(Rejection("channel_not_found")))
    else if shelves[channel].archived then (shelves, Err(Rejection("is_archived")))
    else
      var b := Bookmark(ids(n), channel, title, kind, link, n);
      (shelves[channel := shelves[channel].(marks := shelves[channel].marks + [b])], Ok(b))
  }

  function Edited(shelves: Shelves, channel: string, id: string, form: map<string, string>): (Shelves,
        Result<(), Error>)
  {
    if channel !in shelves then (shelves, Err(Rejection("channel_not_found")))
    else
      var marks := shelves[channel].marks;
      var k := IndexOf(marks, id);
      if shelves[channel].archived then (shelves, Err(Rejection("is_archived")))
      else if k == |marks| then (shelves, Err(Rejection("bookmark_not_found")))
      else
        var b := marks[k].(title := Sent(form, "title", marks[k].title), link := Sent(form, "link", marks[k].link));
        (shelves[channel := shelves[channel].(marks := marks[k := b])], Ok(()))
  }

  function Removed(shelves: Shelves, channel: string, id: string): (Shelves, Result<(), Error>) {
    if channel !in shelves then (shelves, Err(Rejection("channel_not_found")))
    else
      var marks := shelves[channel].marks;
      var k := IndexOf(marks, id);
      if shelves[channel].archived then (shelves, Err(Rejection("is_archived")))
      else if k == |marks| then (shelves, Err(Rejection("bookmark_not_found")))
      else (shelves[channel := shelves[channel].(marks := marks[..k] + marks[k + 1..])], Ok(()))
  }

  class BookmarkClient {
    const ids: nat -> string
    const faults: Faults
    var net: Net<Shelves>

    constructor (ids: nat -> string, faults: Faults, shelves: Shelves)
      ensures this.ids == ids && this.faults == faults && net == Net(shelves, 0)
    {
      this.ids, this.faults, net := ids, faults, Net(shelves, 0);
    }

    method ListBookmarks(channel: string) returns (r: Result<seq<Bookmark>, Error>)
      modifies this
      ensures (net, r) == Transit(faults, old(net), Listed(old(net.world), channel))
    {
      var (after, answer) := Transit(faults, net, Listed(net.world, channel));
      net, r := after, answer;
    }

    method AddBookmark(channel: string, title: string, kind: string, link: string) returns (r: Result<Bookmark, Error>)
      modifies this
      ensures (net, r) == Transit(faults, old(net),
                            Added(ids, old(net.world), channel, title, kind, link, old(net.calls)))
    {
      var (after, answer) := Transit(faults, net, Added(ids, net.world, channel, title, kind, link, net.calls));
      net, r := after, answer;
    }

    method EditBookmark(channel: string, id: string, title: string, link: string) returns (r: Result<(), Error>)
      modifies this
      ensures (net, r) == Transit(faults, old(net), Edited(old(net.world), channel, id, EncodeEdit(title, link)))
    {
      var form: map<string, string> := map[];
      if title != "" {
        form := form["title" := title];
      }
      if link != "" {
        form := form["link" := link];
      }
      var (after, answer) := Transit(faults, net, Edited(net.world, channel, id, form));
      net, r := after, answer;
    }

    method RemoveBookmark(channel: string, id: string) returns (r: Result<(), Error>)
      modifies this
      ensures (net, r) == Transit(faults, old(net), Removed(old(net.world), channel, id))
    {
      var (after, answer) := Transit(faults, net, Removed(net.world, channel, id));
      net, r := after, answer;
    }
  }

  // ---------- The operations as functions ----------

  datatype Spec = Spec(title: string, kind: string, link: string)

  datatype Status = Status(id: string, channelID: string, dateCreated: int)

  datatype State = State(meta: Meta<Status>, net: Net<Shelves>)

  function Flag(meta: Meta<Status>, e: Error): Meta<Status> {
    if !IsChannelUnavailable(e) then meta
    else meta.With(Synced, Condition(false, "ChannelUnavailable", AsSlackError(e).value.message))
  }

  function IsUpToDate(spec: Spec, b: Bookmark): bool {
    if spec.title != b.title then false else if spec.link != b.link then false else true
  }

  function Observed(faults: Faults, spec: Spec, s: State, channel: Result<string, Error>): (State,
        Result<Observation, Error>)
  {
    if s.meta.externalName == "" then (s, Ok(MISSING))
    else if channel.Err? then (s, Err(Wrapped("cannot resolve conversation ID", channel.error)))
    else if channel.value == "" then (s, Ok(MISSING))
    else
      var (net, marks) := Transit(faults, s.net, Listed(s.net.world, channel.value));
      match marks
      case Err(e) =>
        if IsChannelUnavailable(e) then (State(Flag(s.meta, e), net), Ok(MISSING))
        else (s.(net := net), Err(Wrapped("cannot list bookmarks", e)))
      case Ok(list) =>
        var k := IndexOf(list, s.meta.externalName);
        if k == |list| then (s.(net := net), Ok(MISSING))
        else
          var status := Status(list[k].id, list[k].channelID, list[k].dateCreated);
          (State(s.meta.(atProvider := status).With(Ready, AVAILABLE), net),
           Ok(Observation(true, IsUpToDate(spec, list[k]))))
  }

  function AfterCreate(ids: nat -> string, faults: Faults, spec: Spec, s: State,
        channel: Result<string, Error>): (State, Option<Error>)
  {
    if channel.Err? then (s, Some(Wrapped("cannot resolve conversation ID", channel.error)))
    else
      var (net, r) := Transit(faults, s.net,
        Added(ids, s.net.world, channel.value, spec.title, spec.kind, spec.link, s.net.calls));
      match r
      case Err(e) => (State(Flag(s.meta, e), net), Some(Wrapped("cannot add bookmark", e)))
      case Ok(b) => (State(s.meta.(externalName := b.id), net), None)
  }

  function AfterUpdate(faults: Faults, spec: Spec, s: State, channel: Result<string, Error>): (State, Option<Error>) {
    if channel.Err? then (s, Some(Wrapped("cannot resolve conversation ID", channel.error)))
    else
      var (net, r) := Transit(faults, s.net,
        Edited(s.net.world, channel.value, s.meta.externalName, EncodeEdit(spec.title, spec.link)));
      match r
      case Err(e) => (State(Flag(s.meta, e), net), Some(Wrapped("cannot edit bookmark", e)))
      case Ok(_) => (s.(net := net), None)
  }

  function AfterDelete(faults: Faults, s: State, channel: Result<string, Error>): (State, Option<Error>) {
    if s.meta.externalName == "" then (s, None)
    else if channel.Err? then (s, Some(Wrapped("cannot resolve conversation ID", channel.error)))
    else
      var (net, r) := Transit(faults, s.net, Removed(s.net.world, channel.value, s.meta.externalName));
      (s.(net := net),
       if r.Ok? || IsChannelUnavailable(r.error) || HasCode(r.error, "bookmark_not_found") then None
       else Some(Wrapped("cannot remove bookmark", r.error)))
  }

  // ---------- The controller ----------

  class External {
    const client: BookmarkClient

    constructor (client: BookmarkClient)
      ensures this.client == client
    {
      this.client := client;
    }

    function View(cr: Managed<Spec, Status>): State
      reads cr, client
    {
      State(cr.View(), client.net)
    }

    method SetFlag(cr: Managed<Spec, Status>, e: Error)
      modifies cr`conditions
      ensures cr.View() == Flag(old(cr.View()), e)
    {
      if IsChannelUnavailable(e) {
        cr.SetCondition(Synced, Condition(false, "ChannelUnavailable", AsSlackError(e).value.message));
      }
    }

    method Observe(cr: Managed<Spec, Status>, channel: Result<string, Error>) returns (r: Result<Observation, Error>)
      modifies cr, client
      ensures (View(cr), r) == Observed(client.faults, cr.spec, old(View(cr)), channel)
    {
      hide Listed, Flag, HasCode;
      var externalName := cr.externalName;
      if externalName == "" {
        return Ok(MISSING);
      }
      if channel.Err? {
        return Err(Wrapped("cannot resolve conversation ID", channel.error));
      }
      if channel.value == "" {
        return Ok(MISSING);
      }
      var marks := client.ListBookmarks(channel.value);
      if marks.Err? {
        if IsChannelUnavailable(marks.error) {
          SetFlag(cr, marks.error);
          return Ok(MISSING);
        }
        return Err(Wrapped("cannot list bookmarks", marks.error));
      }
      var found: Option<Bookmark> := None;
      var list := marks.value;
      for i := 0 to |list|
        invariant found == None && i <= IndexOf(list, externalName)
      {
        if list[i].id == externalName {
          found := Some(list[i]);
          break;
        }
      }
      if found.None? {
        return Ok(MISSING);
      }
      cr.atProvider := Status(found.value.id, found.value.channelID, found.value.dateCreated);
      var upToDate := IsUpToDate(cr.spec, found.value);
      cr.SetCondition(Ready, AVAILABLE);
      return Ok(Observation(true, upToDate));
    }

    method Create(cr: Managed<Spec, Status>, channel: Result<string, Error>) returns (r: Option<Error>)
      modifies cr, client
      ensures (View(cr), r) == AfterCreate(client.ids, client.faults, cr.spec, old(View(cr)), channel)
    {
      hide Added, Flag;
      if channel.Err? {
        return Some(Wrapped("cannot resolve conversation ID", channel.error));
      }
      var added := client.AddBookmark(channel.value, cr.spec.title, cr.spec.kind, cr.spec.link);
      if added.Err? {
        SetFlag(cr, added.error);
        return Some(Wrapped("cannot add bookmark", added.error));
      }
      cr.externalName := added.value.id;
      return None;
    }

    method Update(cr: Managed<Spec, Status>, channel: Result<string, Error>) returns (r: Option<Error>)
      modifies cr, client
      ensures (View(cr), r) == AfterUpdate(client.faults, cr.spec, old(View(cr)), channel)
    {
      hide Edited, EncodeEdit, Flag;
      var externalName := cr.externalName;
      if channel.Err? {
        return Some(Wrapped("cannot resolve conversation ID", channel.error));
      }
      var w := client.EditBookmark(channel.value, externalName, cr.spec.title, cr.spec.link);
      if w.Err? {
        SetFlag(cr, w.error);
        return Some(Wrapped("cannot edit bookmark", w.error));
      }
      return None;
    }

    method Delete(cr: Managed<Spec, Status>, channel: Result<string, Error>) returns (r: Option<Error>)
      modifies client
      ensures (View(cr), r) == AfterDelete(client.faults, old(View(cr)), channel)
    {
      hide Removed, HasCode;
      var externalName := cr.externalName;
      if externalName == "" {
        return None;
      }
      if channel.Err? {
        return Some(Wrapped("cannot resolve conversation ID", channel.error));
      }
      var w := client.RemoveBookmark(channel.value, externalName);
      if w.Err? {
        if IsChannelUnavailable(w.error) {
          return None;
        }
        if HasCode(w.error, "bookmark_not_found") {
          return None;
        }
        return Some(Wrapped("cannot remove bookmark", w.error));
      }
      return None;
    }
  }

  // ---------- Convergence ----------

  /** The bookmark has the desired title and link, the two fields that an edit can change. */
  ghost predicate AsDesired(spec: Spec, b: Bookmark) {
    b.title == spec.title && b.link == spec.link
  }

  /** Position of the resource's bookmark on its channel's shelf. */
  ghost predicate Manages(s: State, channel: string, k: nat) {
    && channel in s.net.world && k < |s.net.world[channel].marks|
    && IndexOf(s.net.world[channel].marks, s.meta.externalName) == k
  }

  lemma SameIdsSameIndex(marks: seq<Bookmark>, marks': seq<Bookmark>, id: string)
    requires |marks'| == |marks| && forall j :: 0 <= j < |marks| ==> marks'[j].id == marks[j].id
    ensures IndexOf(marks', id) == IndexOf(marks, id)
  {
    var i, j := IndexOf(marks, id), IndexOf(marks', id);
    assert i < |marks| ==> marks'[i].id == id;
    assert j < |marks| ==> marks[j].id == id;
  }

  /** Under any faults an Update touches one bookmark at most, and only its title and link: together they
      stay, or become the desired ones save where a desired one is empty. */
  lemma UpdateIsAllOrNothing(faults: Faults, spec: Spec, s: State, channel: string, k: nat)
    requires Manages(s, channel, k)
    ensures var (s', r) := AfterUpdate(faults, spec, s, Ok(channel));
            var (shelf, b) := (s.net.world[channel], s.net.world[channel].marks[k]);
            var edited := b.(title := if spec.title != "" then spec.title else b.title,
                             link := if spec.link != "" then spec.link else b.link);
            var after := s.net.world[channel := shelf.(marks := shelf.marks[k := edited])];
            && s'.meta.externalName == s.meta.externalName
            && (s'.net.world == s.net.world || s'.net.world == after)
            && (r.None? ==> s'.net.world == after)
            && (shelf.archived ==> s'.net.world == s.net.world)
  {
    hide IndexOf;
  }

  /** Convergence, exactly: after a fault-free Update the next fault-free Observe is up to date if and only
      if it was already, or the channel is open and each of title and link is desired non-empty or is
      empty remotely. */
  lemma UpdateConvergesIff(faults: Faults, spec: Spec, s: State, channel: string, k: nat)
    requires Calm(faults) && Manages(s, channel, k) && s.meta.externalName != "" && channel != ""
    ensures var shelf := s.net.world[channel];
            var s' := AfterUpdate(faults, spec, s, Ok(channel)).0;
            Observed(faults, spec, s', Ok(channel)).1 == Ok(Observation(true, true)) <==>
              if shelf.archived then AsDesired(spec, shelf.marks[k])
              else (spec.title != "" || shelf.marks[k].title == "") && (spec.link != "" || shelf.marks[k].link == "")
  {
    var (s', r) := AfterUpdate(faults, spec, s, Ok(channel));
    UpdateIsAllOrNothing(faults, spec, s, channel, k);
    assert r.None? <==> !s.net.world[channel].archived;
    SameIdsSameIndex(s.net.world[channel].marks, s'.net.world[channel].marks, s.meta.externalName);
    hide AfterUpdate, IndexOf;
  }

  /** The resource's bookmark is on the shelf of its channel. */
  predicate OnShelf(s: State, channel: string) {
    && s.meta.externalName != "" && channel != "" && channel in s.net.world
    && IndexOf(s.net.world[channel].marks, s.meta.externalName) < |s.net.world[channel].marks|
  }

  function Unavailable(code: string): Condition {
    Condition(false, "ChannelUnavailable", "slack API returned error: " + code)
  }

  /** What a fault-free Observe answers and records: of a bookmark on the shelf that it is there, up to date exactly
      if it has the desired title and link, with its ID, channel and date, and that the resource is available; of
      a known channel without it nothing; of an unknown channel that it is unavailable. */
  lemma CalmObserveRecords(faults: Faults, spec: Spec, s: State, channel: string)
    requires Calm(faults)
    ensures var (s', o) := Observed(faults, spec, s, Ok(channel));
            if OnShelf(s, channel) then
              var b := s.net.world[channel].marks[IndexOf(s.net.world[channel].marks, s.meta.externalName)];
              && b.id == s.meta.externalName
              && o == Ok(Observation(true, b.title == spec.title && b.link == spec.link))
              && s'.meta == s.meta.(atProvider := Status(b.id, b.channelID, b.dateCreated),
                                    conditions := s.meta.conditions[Ready := Condition(true, "Available", "")])
            else
              && o == Ok(Observation(false, false))
              && s'.meta ==
                   if s.meta.externalName != "" && channel != "" && channel !in s.net.world then
                     s.meta.(conditions := s.meta.conditions[Synced := Unavailable("channel_not_found")])
                   else s.meta
  {
    hide IndexOf;
  }

  /** What fault-free writes record: Create and Update of an unknown or archived channel fail, with the code Slack
      gave in the error and in the condition; a Create that succeeds sets the external name to the new
      bookmark's ID, and nothing else of the resource ever changes. */
  lemma UnavailableIsFlagged(ids: nat -> string, faults: Faults, spec: Spec, s: State, channel: string)
    requires Calm(faults)
    ensures var (created, r) := AfterCreate(ids, faults, spec, s, Ok(channel));
            var (updated, r') := AfterUpdate(faults, spec, s, Ok(channel));
            var shelves := s.net.world;
            if channel !in shelves || shelves[channel].archived then
              var code := if channel !in shelves then "channel_not_found" else "is_archived";
              var flagged := s.meta.(conditions := s.meta.conditions[Synced := Unavailable(code)]);
              && created.meta == flagged && r.Some? && HasCode(r.value, code)
              && updated.meta == flagged && r'.Some? && HasCode(r'.value, code)
            else
              var marks := shelves[channel].marks;
              && created.meta == s.meta.(externalName := ids(s.net.calls)) && r.None?
              && updated.meta == s.meta
              && (if IndexOf(marks, s.meta.externalName) < |marks| then r'.None?
                  else r'.Some? && HasCode(r'.value, "bookmark_not_found"))
  {
    hide EncodeEdit, IndexOf;
  }

  /** A call that is not answered makes its operation fail, with the cause inside and nothing recorded, unless
      the cause itself carries a code that the operation takes for an answer. */
  lemma UnansweredFails(ids: nat -> string, faults: Faults, spec: Spec, s: State, channel: string)
    requires !faults(s.net.calls).Deliver? && s.meta.externalName != "" && channel != ""
    ensures var cause := faults(s.net.calls).cause;
            var unavailable := HasCode(cause, "channel_not_found") || HasCode(cause, "is_archived");
            var (observed, o) := Observed(faults, spec, s, Ok(channel));
            var (created, r) := AfterCreate(ids, faults, spec, s, Ok(channel));
            var (updated, r') := AfterUpdate(faults, spec, s, Ok(channel));
            var (deleted, r'') := AfterDelete(faults, s, Ok(channel));
            && r.Some? && r.value.Wrapped? && r.value.inner == cause
            && r'.Some? && r'.value.Wrapped? && r'.value.inner == cause
            && (r''.None? <==> unavailable || HasCode(cause, "bookmark_not_found"))
            && (r''.Some? ==> r''.value.Wrapped? && r''.value.inner == cause) && deleted.meta == s.meta
            && (if unavailable then o == Ok(MISSING)
                else o.Err? && o.error.Wrapped? && o.error.inner == cause)
            && (!unavailable ==>
                  observed.meta == s.meta && created.meta == s.meta && updated.meta == s.meta)
  {
    hide EncodeEdit, IndexOf;
  }

  /** A reference to the channel that does not resolve stops every operation with that error before any call. */
  lemma UnresolvedChannelStops(ids: nat -> string, faults: Faults, spec: Spec, s: State, e: Error)
    ensures var named := s.meta.externalName != "";
            && Observed(faults, spec, s, Err(e)).0 == s
            && (if named then Observed(faults, spec, s, Err(e)).1 == Err(Wrapped("cannot resolve conversation ID", e))
                else Observed(faults, spec, s, Err(e)).1 == Ok(MISSING))
            && AfterCreate(ids, faults, spec, s, Err(e)) == (s, Some(Wrapped("cannot resolve conversation ID", e)))
            && AfterUpdate(faults, spec, s, Err(e)) == (s, Some(Wrapped("cannot resolve conversation ID", e)))
            && AfterDelete(faults, s, Err(e)) ==
                 (s, if named then Some(Wrapped("cannot resolve conversation ID", e)) else None)
  {
  }

  ghost predicate DistinctIds(marks: seq<Bookmark>) {
    forall i, j :: 0 <= i < j < |marks| ==> marks[i].id != marks[j].id
  }

  /** Fault-free Delete always succeeds when the channel resolves, also for an unknown channel and a bookmark
      that is gone already. It takes the bookmark away from an open channel; in an archived one the bookmark
      stays, and the next Observe still finds it. Nothing else changes. */
  lemma DeleteThenGoneIff(faults: Faults, spec: Spec, s: State, channel: string)
    requires Calm(faults) && (channel in s.net.world ==> DistinctIds(s.net.world[channel].marks))
    ensures var (s', r) := AfterDelete(faults, s, Ok(channel));
            && r.None? && s'.meta == s.meta
            && (Observed(faults, spec, s', Ok(channel)).1 == Ok(MISSING) <==>
                  !(OnShelf(s, channel) && s.net.world[channel].archived))
            && (OnShelf(s, channel) && !s.net.world[channel].archived ==>
                  var (shelf, k) := (s.net.world[channel], IndexOf(s.net.world[channel].marks, s.meta.externalName));
                  s'.net.world == s.net.world[channel := shelf.(marks := shelf.marks[..k] + shelf.marks[k + 1..])])
            && ((!OnShelf(s, channel) && channel != "") || (channel in s.net.world && s.net.world[channel].archived) ==>
                  s'.net.world == s.net.world)
  {
    var s' := AfterDelete(faults, s, Ok(channel)).0;
    if OnShelf(s, channel) && !s.net.world[channel].archived {
      RemovalLeavesNone(s.net.world[channel].marks, s.meta.externalName);
    }
    hide IndexOf, IsUpToDate;
  }

  lemma RemovalLeavesNone(marks: seq<Bookmark>, id: string)
    requires DistinctIds(marks) && IndexOf(marks, id) < |marks|
    ensures var (k, rest) := (IndexOf(marks, id), marks[..IndexOf(marks, id)] + marks[IndexOf(marks, id) + 1..]);
            IndexOf(rest, id) == |rest|
  {
    var k := IndexOf(marks, id);
    var rest := marks[..k] + marks[k + 1..];
    forall i | 0 <= i < |rest| ensures rest[i].id != id {
      assert rest[i] == if i < k then marks[i] else marks[i + 1];
    }
    hide IndexOf;
  }

  // ---------- Runs ----------

  /** Bookmarks on a shelf with the desired title, kind and link. */
  function Copies(spec: Spec, marks: seq<Bookmark>): (r: nat) {
    if marks == [] then 0
    else
      var b := marks[|marks| - 1];
      Copies(spec, marks[..|marks| - 1]) +
      if b.title == spec.title && b.kind == spec.kind && b.link == spec.link then 1 else 0
  }

  /** A reconcile whose outcome gets lost: the resource is observed, created if it is missing, and the name it
      gets is not stored. */
  ghost function ForgetfulTurn(ids: nat -> string, faults: Faults, spec: Spec, s: State, channel: string): State {
    var (seen, o) := Observed(faults, spec, s, Ok(channel));
    var after := if o.Ok? && !o.value.present then AfterCreate(ids, faults, spec, seen, Ok(channel)).0 else seen;
    after.(meta := after.meta.(externalName := s.meta.externalName))
  }

  ghost function ForgetfulRun(ids: nat -> string, faults: Faults, spec: Spec, s: State,
        channel: string, n: nat): State
  {
    if n == 0 then s else ForgetfulTurn(ids, faults, spec, ForgetfulRun(ids, faults, spec, s, channel, n - 1), channel)
  }

  /** The number of the next call and how many adds have reached Slack after `n` such turns, the first call
      being number `from`. A turn without a name to look for only adds; one with a name lists first, and adds
      unless the listing fails with anything but an unavailable channel. */
  ghost function Tally(faults: Faults, looks: bool, from: nat, n: nat): (nat, nat) {
    if n == 0 then (from, 0)
    else
      var (at, adds) := Tally(faults, looks, from, n - 1);
      if looks && !faults(at).Deliver? && !IsChannelUnavailable(faults(at).cause) then (at + 1, adds)
      else
        var add := if looks then at + 1 else at;
        (add + 1, adds + if faults(add).Drop? then 0 else 1)
  }

  /** A resource on an open channel whose external name, if it has one, is that of no bookmark there now or
      later: Slack gives no ID twice. */
  ghost predicate Unfound(ids: nat -> string, s: State, channel: string) {
    var name := s.meta.externalName;
    && channel in s.net.world && !s.net.world[channel].archived
    && (name != "" ==>
          && IndexOf(s.net.world[channel].marks, name) == |s.net.world[channel].marks|
          && forall n :: n >= s.net.calls ==> ids(n) != name)
  }

  predicate Looks(s: State, channel: string) {
    s.meta.externalName != "" && channel != ""
  }

  lemma UnfoundIsOpen(ids: nat -> string, s: State, channel: string)
    requires Unfound(ids, s, channel)
    ensures channel in s.net.world
  {
  }

  lemma AddIsOneMoreCopy(spec: Spec, marks: seq<Bookmark>, b: Bookmark, name: string)
    requires b.title == spec.title && b.kind == spec.kind && b.link == spec.link
    ensures Copies(spec, marks + [b]) == Copies(spec, marks) + 1
    ensures IndexOf(marks, name) == |marks| && b.id != name ==> IndexOf(marks + [b], name) == |marks + [b]|
  {
    assert (marks + [b])[..|marks|] == marks;
    assert forall k :: 0 <= k < |marks| ==> (marks + [b])[k] == marks[k];
    hide IndexOf;
  }

  lemma ObserveUnfound(ids: nat -> string, faults: Faults, spec: Spec, s: State, channel: string)
    requires Unfound(ids, s, channel)
    ensures var (seen, o) := Observed(faults, spec, s, Ok(channel));
            var at := s.net.calls;
            && seen.net == s.net.(calls := if Looks(s, channel) then at + 1 else at)
            && seen.meta.externalName == s.meta.externalName && Unfound(ids, seen, channel)
            && (o.Ok? ==> !o.value.present)
            && (o.Err? <==> Looks(s, channel) && !faults(at).Deliver? && !IsChannelUnavailable(faults(at).cause))
  {
    hide IndexOf, IsUpToDate, HasCode;
  }

  lemma CreateUnfoundAdds(ids: nat -> string, faults: Faults, spec: Spec, s: State, channel: string)
    requires Unfound(ids, s, channel)
    ensures var s' := AfterCreate(ids, faults, spec, s, Ok(channel)).0;
            var unnamed := s'.(meta := s'.meta.(externalName := s.meta.externalName));
            && Unfound(ids, unnamed, channel) && s'.net.calls == s.net.calls + 1
            && Copies(spec, s'.net.world[channel].marks)
               == Copies(spec, s.net.world[channel].marks) + if faults(s.net.calls).Drop? then 0 else 1
  {
    var at := s.net.calls;
    AddIsOneMoreCopy(spec, s.net.world[channel].marks,
                     Bookmark(ids(at), channel, spec.title, spec.kind, spec.link, at), s.meta.externalName);
    hide Copies, IndexOf, IsChannelUnavailable;
  }

  lemma TallyOne(faults: Faults, looks: bool, at: nat)
    ensures Tally(faults, looks, at, 1)
            == if looks && !faults(at).Deliver? && !IsChannelUnavailable(faults(at).cause) then (at + 1, 0)
               else
                 var add := if looks then at + 1 else at;
                 (add + 1, if faults(add).Drop? then 0 else 1)
  {
    assert Tally(faults, looks, at, 0) == (at, 0);
    hide IsChannelUnavailable;
  }

  lemma ForgetfulTurnAdds(ids: nat -> string, faults: Faults, spec: Spec, s: State, channel: string)
    requires Unfound(ids, s, channel)
    ensures var s' := ForgetfulTurn(ids, faults, spec, s, channel);
            var (next, adds) := Tally(faults, Looks(s, channel), s.net.calls, 1);
            && s'.meta.externalName == s.meta.externalName && Unfound(ids, s', channel) && s'.net.calls == next
            && Copies(spec, s'.net.world[channel].marks) == Copies(spec, s.net.world[channel].marks) + adds
  {
    hide Observed, AfterCreate, Copies, IsChannelUnavailable, Unfound, Looks, Tally;
    TallyOne(faults, Looks(s, channel), s.net.calls);
    UnfoundIsOpen(ids, s, channel);
    ObserveUnfound(ids, faults, spec, s, channel);
    CreateUnfoundAdds(ids, faults, spec, Observed(faults, spec, s, Ok(channel)).0, channel);
    UnfoundIsOpen(ids, ForgetfulTurn(ids, faults, spec, s, channel), channel);
  }

  lemma TallyOneMore(faults: Faults, looks: bool, from: nat, n: nat)
    ensures var (at, adds) := Tally(faults, looks, from, n);
            Tally(faults, looks, from, n + 1)
            == (Tally(faults, looks, at, 1).0, adds + Tally(faults, looks, at, 1).1)
  {
    var at := Tally(faults, looks, from, n).0;
    assert Tally(faults, looks, at, 0) == (at, 0);
    hide IsChannelUnavailable;
  }

  /** Duplicates, counted exactly: while the name that Create leaves keeps getting lost, every add that reaches
      an open channel leaves one more copy. Nothing in the controller looks for a copy made before. */
  lemma {:induction false} LostNamesDuplicate(ids: nat -> string, faults: Faults, spec: Spec, s: State,
        channel: string, n: nat)
    requires Unfound(ids, s, channel)
    ensures var s' := ForgetfulRun(ids, faults, spec, s, channel, n);
            var (next, adds) := Tally(faults, Looks(s, channel), s.net.calls, n);
            && s'.meta.externalName == s.meta.externalName && Unfound(ids, s', channel) && s'.net.calls == next
            && Copies(spec, s'.net.world[channel].marks) == Copies(spec, s.net.world[channel].marks) + adds
    decreases n
  {
    if n == 0 {
      hide Copies, Unfound;
    } else {
      hide ForgetfulTurn, Copies, Unfound, Tally;
      LostNamesDuplicate(ids, faults, spec, s, channel, n - 1);
      ForgetfulTurnAdds(ids, faults, spec, ForgetfulRun(ids, faults, spec, s, channel, n - 1), channel);
      TallyOneMore(faults, Looks(s, channel), s.net.calls, n - 1);
      UnfoundIsOpen(ids, ForgetfulRun(ids, faults, spec, s, channel, n), channel);
    }
  }

  // ---------- Exactly when a fault-free run ends well ----------

  /** One reconcile that is not deleting. */
  ghost function Reconcile(ids: nat -> string, faults: Faults, spec: Spec, s: State, channel: string): State {
    var (seen, o) := Observed(faults, spec, s, Ok(channel));
    if o.Err? then seen
    else if !o.value.present then AfterCreate(ids, faults, spec, seen, Ok(channel)).0
    else if !o.value.upToDate then AfterUpdate(faults, spec, seen, Ok(channel)).0
    else seen
  }

  ghost function CalmRun(ids: nat -> string, faults: Faults, spec: Spec, s: State, channel: string, n: nat): State {
    if n == 0 then s else Reconcile(ids, faults, spec, CalmRun(ids, faults, spec, s, channel, n - 1), channel)
  }

  ghost predicate SeenAfter(ids: nat -> string, faults: Faults, spec: Spec, s: State, channel: string, n: nat,
        wanted: Observation)
  {
    Observed(faults, spec, CalmRun(ids, faults, spec, s, channel, n), Ok(channel)).1 == Ok(wanted)
  }

  predicate Open(s: State, channel: string) {
    channel != "" && channel in s.net.world && !s.net.world[channel].archived
  }

  /** What an edit leaves of title and link is what is desired. */
  predicate Editable(spec: Spec, b: Bookmark) {
    (spec.title != "" || b.title == "") && (spec.link != "" || b.link == "")
  }

  /** The condition a caller can check before the run. */
  ghost predicate CanConverge(spec: Spec, s: State, channel: string) {
    if OnShelf(s, channel) then
      var b := s.net.world[channel].marks[IndexOf(s.net.world[channel].marks, s.meta.externalName)];
      if Open(s, channel) then Editable(spec, b) else AsDesired(spec, b)
    else Open(s, channel)
  }

  lemma CalmObserve(faults: Faults, spec: Spec, s: State, channel: string)
    requires Calm(faults)
    ensures var (seen, o) := Observed(faults, spec, s, Ok(channel));
            && o.Ok? && (o.value.present <==> OnShelf(s, channel))
            && seen.net.world == s.net.world && seen.meta.externalName == s.meta.externalName
            && (!o.value.present ==> !o.value.upToDate)
            && (o.value.present ==>
                  var marks := s.net.world[channel].marks;
                  o.value.upToDate <==> AsDesired(spec, marks[IndexOf(marks, s.meta.externalName)]))
  {
    hide IndexOf;
  }

  /** Slack gives no ID twice. */
  ghost predicate FreshIds(ids: nat -> string, s: State, channel: string) {
    && (forall n :: ids(n) != "")
    && (channel in s.net.world ==> forall k, n :: 0 <= k < |s.net.world[channel].marks| && n >= s.net.calls ==>
          s.net.world[channel].marks[k].id != ids(n))
  }

  /** From a missing bookmark one turn makes it, as desired, if the channel is open, and changes nothing that
      matters otherwise. */
  lemma MissingTurn(ids: nat -> string, faults: Faults, spec: Spec, s: State, channel: string)
    requires Calm(faults) && !OnShelf(s, channel)
    ensures var s' := Reconcile(ids, faults, spec, s, channel);
            && (Open(s, channel) && FreshIds(ids, s, channel) ==>
                  Observed(faults, spec, s', Ok(channel)).1 == Ok(Observation(true, true)))
            && (!Open(s, channel) && channel != "" ==>
                  s'.net.world == s.net.world && s'.meta.externalName == s.meta.externalName)
  {
    CalmObserve(faults, spec, s, channel);
    var seen := Observed(faults, spec, s, Ok(channel)).0;
    var s' := AfterCreate(ids, faults, spec, seen, Ok(channel)).0;
    CalmObserve(faults, spec, s', channel);
    if Open(s, channel) && FreshIds(ids, s, channel) {
      var at, marks, marks' := seen.net.calls, s.net.world[channel].marks, s'.net.world[channel].marks;
      assert at >= s.net.calls;
      assert marks'[|marks|].id == ids(at);
      assert forall k :: 0 <= k < |marks| ==> marks'[k] == marks[k] && marks[k].id != ids(at);
    }
    hide Observed, IndexOf;
  }

  /** A turn never makes a hopeless resource converge, nor a missing one on a closed channel exist. */
  lemma HopelessTurn(ids: nat -> string, faults: Faults, spec: Spec, s: State, channel: string)
    requires Calm(faults)
    ensures var s' := Reconcile(ids, faults, spec, s, channel);
            && (!CanConverge(spec, s, channel) ==> !CanConverge(spec, s', channel))
            && (!OnShelf(s, channel) && !Open(s, channel) ==> !OnShelf(s', channel) && !Open(s', channel))
            && (!CanConverge(spec, s, channel) ==>
                  Observed(faults, spec, s, Ok(channel)).1 != Ok(Observation(true, true)))
  {
    CalmObserve(faults, spec, s, channel);
    var (seen, o) := Observed(faults, spec, s, Ok(channel));
    if OnShelf(s, channel) {
      var marks := s.net.world[channel].marks;
      var k := IndexOf(marks, s.meta.externalName);
      UpdateIsAllOrNothing(faults, spec, seen, channel, k);
      var s' := AfterUpdate(faults, spec, seen, Ok(channel)).0;
      SameIdsSameIndex(marks, s'.net.world[channel].marks, s.meta.externalName);
    } else {
      MissingTurn(ids, faults, spec, s, channel);
    }
    hide Observed, AfterUpdate, AfterCreate, IndexOf;
  }

  lemma {:induction false} HopelessForever(ids: nat -> string, faults: Faults, spec: Spec, s: State,
        channel: string, n: nat)
    requires Calm(faults)
    ensures !CanConverge(spec, s, channel) ==>
              !SeenAfter(ids, faults, spec, s, channel, n, Observation(true, true))
              && !CanConverge(spec, CalmRun(ids, faults, spec, s, channel, n), channel)
    ensures !OnShelf(s, channel) && !Open(s, channel) ==>
              var s' := CalmRun(ids, faults, spec, s, channel, n); !OnShelf(s', channel) && !Open(s', channel)
    decreases n
  {
    hide Observed, Reconcile, CanConverge, OnShelf, Open;
    if n > 0 {
      HopelessForever(ids, faults, spec, s, channel, n - 1);
      HopelessTurn(ids, faults, spec, CalmRun(ids, faults, spec, s, channel, n - 1), channel);
    }
    HopelessTurn(ids, faults, spec, CalmRun(ids, faults, spec, s, channel, n), channel);
  }

  lemma ConvergesInOne(ids: nat -> string, faults: Faults, spec: Spec, s: State, channel: string) returns (n: nat)
    requires Calm(faults) && FreshIds(ids, s, channel) && CanConverge(spec, s, channel)
    ensures n <= 1 && SeenAfter(ids, faults, spec, s, channel, n, Observation(true, true))
  {
    CalmObserve(faults, spec, s, channel);
    var (seen, o) := Observed(faults, spec, s, Ok(channel));
    assert CalmRun(ids, faults, spec, s, channel, 0) == s;
    assert CalmRun(ids, faults, spec, s, channel, 1) == Reconcile(ids, faults, spec, s, channel);
    if !o.value.present {
      MissingTurn(ids, faults, spec, s, channel);
      n := 1;
    } else if !o.value.upToDate {
      UpdateConvergesIff(faults, spec, seen, channel, IndexOf(s.net.world[channel].marks, s.meta.externalName));
      n := 1;
    } else {
      n := 0;
    }
    hide Observed, AfterUpdate, AfterCreate, IndexOf, AsDesired, FreshIds;
  }

  /** Exact reachability, from any external name: a fault-free run ever finds the bookmark present and up to
      date if and only if it is on the shelf and each of title and link is desired non-empty or empty there
      (or nothing drifts, if the channel is archived), or it is not and the channel is open; it ever finds it
      present at all if and only if it is on the shelf or the channel is open. */
  lemma ConvergenceReachableIff(ids: nat -> string, faults: Faults, spec: Spec, s: State, channel: string)
    requires Calm(faults) && FreshIds(ids, s, channel)
    ensures (exists n: nat :: SeenAfter(ids, faults, spec, s, channel, n, Observation(true, true))) <==>
              CanConverge(spec, s, channel)
    ensures (exists n: nat, upToDate: bool :: SeenAfter(ids, faults, spec, s, channel, n, Observation(true, upToDate)))
            <==> OnShelf(s, channel) || Open(s, channel)
  {
    CalmObserve(faults, spec, s, channel);
    assert CalmRun(ids, faults, spec, s, channel, 0) == s;
    if OnShelf(s, channel) {
      var o := Observed(faults, spec, s, Ok(channel)).1;
      assert SeenAfter(ids, faults, spec, s, channel, 0, Observation(true, o.value.upToDate));
    }
    if CanConverge(spec, s, channel) {
      var n := ConvergesInOne(ids, faults, spec, s, channel);
    }
    hide Observed, CalmRun, IndexOf, AsDesired, FreshIds;
    forall n: nat, upToDate: bool | SeenAfter(ids, faults, spec, s, channel, n, Observation(true, upToDate))
      ensures OnShelf(s, channel) || Open(s, channel)
    {
      HopelessForever(ids, faults, spec, s, channel, n);
      CalmObserve(faults, spec, CalmRun(ids, faults, spec, s, channel, n), channel);
    }
    if n: nat :| SeenAfter(ids, faults, spec, s, channel, n, Observation(true, true)) {
      HopelessForever(ids, faults, spec, s, channel, n);
    }
  }

  /** An empty desired title does not clear the one that is there, however often the update is repeated. */
  lemma EmptyTitleNeverClears(ids: nat -> string, faults: Faults, meta: Meta<Status>, n: nat)
    requires Calm(faults) && meta.externalName == "Bk1"
    ensures var b := Bookmark("Bk1", "C1", "Wiki", "link", "https://w", 0);
            var s := State(meta, Net(map["C1" := Shelf(false, [b])], 0));
            !SeenAfter(ids, faults, Spec("", "link", "https://w"), s, "C1", n, Observation(true, true))
  {
    var b := Bookmark("Bk1", "C1", "Wiki", "link", "https://w", 0);
    var s := State(meta, Net(map["C1" := Shelf(false, [b])], 0));
    var spec := Spec("", "link", "https://w");
    assert IndexOf([b], "Bk1") == 0;
    assert !CanConverge(spec, s, "C1");
    HopelessForever(ids, faults, spec, s, "C1", n);
  }

  // ---------- Runs under faults ----------

  /** One reconcile, after which the external name left in memory may or may not get stored. */
  ghost function FaultyTurn(ids: nat -> string, faults: Faults, spec: Spec, s: State, channel: string,
        stored: bool): State
  {
    var after := Reconcile(ids, faults, spec, s, channel);
    if stored then after else after.(meta := after.meta.(externalName := s.meta.externalName))
  }

  ghost function FaultyRun(ids: nat -> string, faults: Faults, spec: Spec, s: State, channel: string,
        stored: seq<bool>): State
  {
    if stored == [] then s
    else
      var n := |stored| - 1;
      FaultyTurn(ids, faults, spec, FaultyRun(ids, faults, spec, s, channel, stored[..n]), channel, stored[n])
  }

  /** Under any faults that no one mistakes for an unavailable channel, an Observe that answers is right. */
  lemma AnsweredObserve(faults: Faults, spec: Spec, s: State, channel: string)
    requires FaultsSpare(faults, {"channel_not_found", "is_archived"})
    ensures var (seen, o) := Observed(faults, spec, s, Ok(channel));
            && seen.net.world == s.net.world && seen.meta.externalName == s.meta.externalName
            && seen.net.calls >= s.net.calls
            && (o.Ok? ==> (o.value.present <==> OnShelf(s, channel)))
            && (o.Ok? && o.value.present ==>
                  var marks := s.net.world[channel].marks;
                  o.value.upToDate <==> AsDesired(spec, marks[IndexOf(marks, s.meta.externalName)]))
  {
    assert "channel_not_found" in {"channel_not_found", "is_archived"};
    assert "is_archived" in {"channel_not_found", "is_archived"};
    hide IndexOf;
  }

  /** No ID is given twice, now or later. */
  ghost predicate Fresh(ids: nat -> string, s: State, channel: string) {
    FreshIds(ids, s, channel) && forall m, n :: ids(m) == ids(n) ==> m == n
  }

  function NewMark(ids: nat -> string, spec: Spec, channel: string, at: nat): Bookmark {
    Bookmark(ids(at), channel, spec.title, spec.kind, spec.link, at)
  }

  function Grown(shelves: Shelves, channel: string, b: Bookmark): Shelves
    requires channel in shelves
  {
    shelves[channel := shelves[channel].(marks := shelves[channel].marks + [b])]
  }

  /** Whatever is lost, Create adds the desired bookmark or changes nothing. */
  lemma FaultyCreate(ids: nat -> string, faults: Faults, spec: Spec, s: State, channel: string)
    ensures var (s', at) := (AfterCreate(ids, faults, spec, s, Ok(channel)).0, s.net.calls);
            && s'.net.calls == at + 1
            && (|| (s'.net.world == s.net.world && s'.meta.externalName == s.meta.externalName)
                || (&& channel in s.net.world && !s.net.world[channel].archived
                    && s'.net.world == Grown(s.net.world, channel, NewMark(ids, spec, channel, at))
                    && s'.meta.externalName in {s.meta.externalName, ids(at)}
                    && (faults(at).Deliver? ==> s'.meta.externalName == ids(at))))
  {
    hide IsChannelUnavailable;
  }

  /** A desired bookmark more on an open shelf leaves the resource able to converge. */
  lemma AddedStillConverges(spec: Spec, s: State, s': State, channel: string, b: Bookmark)
    requires Open(s, channel) && !OnShelf(s, channel) && b.title == spec.title && b.link == spec.link
    requires s'.net.world == Grown(s.net.world, channel, b)
    requires var (marks, id) := (s.net.world[channel].marks, s'.meta.externalName);
             id == s.meta.externalName || (id == b.id && forall k :: 0 <= k < |marks| ==> marks[k].id != b.id)
    ensures CanConverge(spec, s', channel)
  {
    var marks, id := s.net.world[channel].marks, s'.meta.externalName;
    assert forall k :: 0 <= k < |marks| ==> (marks + [b])[k] == marks[k];
    assert (marks + [b])[|marks|] == b;
    var k, k' := IndexOf(marks, id), IndexOf(marks + [b], id);
    assert k' < |marks| ==> marks[k'].id == id;
    assert id != "" ==> k == |marks|;
    hide IndexOf, AsDesired;
  }

  lemma FaultyUpdateKeepsFate(faults: Faults, spec: Spec, s: State, channel: string)
    requires OnShelf(s, channel)
    ensures var s' := AfterUpdate(faults, spec, s, Ok(channel)).0;
            && s'.meta.externalName == s.meta.externalName
            && (CanConverge(spec, s', channel) <==> CanConverge(spec, s, channel))
  {
    var (s', marks) := (AfterUpdate(faults, spec, s, Ok(channel)).0, s.net.world[channel].marks);
    UpdateIsAllOrNothing(faults, spec, s, channel, IndexOf(marks, s.meta.externalName));
    SameIdsSameIndex(marks, s'.net.world[channel].marks, s.meta.externalName);
    hide AfterUpdate, IndexOf;
  }

  /** Reconciling adds at most the one bookmark that its call is to make. */
  lemma FaultyTurnKeepsFresh(ids: nat -> string, faults: Faults, spec: Spec, s: State, channel: string, stored: bool)
    requires Fresh(ids, s, channel) && FaultsSpare(faults, {"channel_not_found", "is_archived"})
    ensures Fresh(ids, FaultyTurn(ids, faults, spec, s, channel, stored), channel)
  {
    var (seen, o) := Observed(faults, spec, s, Ok(channel));
    AnsweredObserve(faults, spec, s, channel);
    FaultyCreate(ids, faults, spec, seen, channel);
    if o.Ok? && o.value.present {
      UpdateIsAllOrNothing(faults, spec, seen, channel, IndexOf(s.net.world[channel].marks, s.meta.externalName));
      UpdateCountsOne(faults, spec, seen, channel);
    }
    hide Observed, AfterCreate, AfterUpdate, IndexOf, FaultsSpare, AsDesired;
  }

  lemma UpdateCountsOne(faults: Faults, spec: Spec, s: State, channel: string)
    ensures AfterUpdate(faults, spec, s, Ok(channel)).0.net.calls == s.net.calls + 1
  {
    hide Edited;
  }

  /** No turn under faults changes whether the resource can converge. */
  lemma FaultyTurnKeepsFate(ids: nat -> string, faults: Faults, spec: Spec, s: State, channel: string, stored: bool)
    requires Fresh(ids, s, channel) && FaultsSpare(faults, {"channel_not_found", "is_archived"})
    ensures CanConverge(spec, FaultyTurn(ids, faults, spec, s, channel, stored), channel) <==>
              CanConverge(spec, s, channel)
  {
    var s' := FaultyTurn(ids, faults, spec, s, channel, stored);
    var (seen, o) := Observed(faults, spec, s, Ok(channel));
    AnsweredObserve(faults, spec, s, channel);
    FaultyCreate(ids, faults, spec, seen, channel);
    if o.Ok? && o.value.present {
      FaultyUpdateKeepsFate(faults, spec, seen, channel);
    } else if o.Ok? && s'.net.world != s.net.world && channel != "" {
      var at := seen.net.calls;
      AddedStillConverges(spec, s, s', channel, NewMark(ids, spec, channel, at));
    }
    hide Observed, AfterCreate, AfterUpdate, IndexOf, FaultsSpare, AsDesired, Editable;
  }

  lemma {:induction false} FaultyRunKeepsFate(ids: nat -> string, faults: Faults, spec: Spec, s: State,
        channel: string, stored: seq<bool>)
    requires Fresh(ids, s, channel) && FaultsSpare(faults, {"channel_not_found", "is_archived"})
    ensures var s' := FaultyRun(ids, faults, spec, s, channel, stored);
            Fresh(ids, s', channel) && (CanConverge(spec, s', channel) <==> CanConverge(spec, s, channel))
    decreases |stored|
  {
    hide FaultyTurn, CanConverge, FaultsSpare, Fresh;
    if stored != [] {
      var n := |stored| - 1;
      var before := FaultyRun(ids, faults, spec, s, channel, stored[..n]);
      FaultyRunKeepsFate(ids, faults, spec, s, channel, stored[..n]);
      FaultyTurnKeepsFate(ids, faults, spec, before, channel, stored[n]);
      FaultyTurnKeepsFresh(ids, faults, spec, before, channel, stored[n]);
    }
  }

  /** Faults never decide: whatever copies a finite run under faults leaves behind, fault-free turns bring the
      resource's bookmark up to date if and only if they could have before the run. */
  lemma EventuallyConvergesIff(ids: nat -> string, faults: Faults, calm: Faults, spec: Spec, s: State,
        channel: string, stored: seq<bool>)
    requires Fresh(ids, s, channel) && FaultsSpare(faults, {"channel_not_found", "is_archived"}) && Calm(calm)
    ensures var s' := FaultyRun(ids, faults, spec, s, channel, stored);
            (exists n: nat :: SeenAfter(ids, calm, spec, s', channel, n, Observation(true, true))) <==>
              CanConverge(spec, s, channel)
  {
    var s' := FaultyRun(ids, faults, spec, s, channel, stored);
    FaultyRunKeepsFate(ids, faults, spec, s, channel, stored);
    assert FreshIds(ids, s', channel);
    hide FaultyRun, CanConverge, SeenAfter, Fresh, FreshIds, FaultsSpare;
    ConvergenceReachableIff(ids, calm, spec, s', channel);
  }

  // ---------- Deletion by the driver ----------

  /** Fault-free turns of a resource being deleted: observe, then delete if present. */
  ghost function DeletionRun(faults: Faults, spec: Spec, s: State, channel: string, n: nat): State {
    if n == 0 then s
    else
      var (seen, o) := Observed(faults, spec, DeletionRun(faults, spec, s, channel, n - 1), Ok(channel));
      if o.Ok? && o.value.present then AfterDelete(faults, seen, Ok(channel)).0 else seen
  }

  ghost predicate GoneAfter(faults: Faults, spec: Spec, s: State, channel: string, n: nat) {
    Observed(faults, spec, DeletionRun(faults, spec, s, channel, n), Ok(channel)).1 == Ok(MISSING)
  }

  /** The bookmark is on the shelf of an archived channel. */
  predicate Kept(s: State, channel: string) {
    OnShelf(s, channel) && s.net.world[channel].archived
  }

  lemma KeptTurn(faults: Faults, spec: Spec, s: State, channel: string)
    requires Calm(faults) && Kept(s, channel)
    ensures var s' := AfterDelete(faults, Observed(faults, spec, s, Ok(channel)).0, Ok(channel)).0;
            && s'.net.world == s.net.world && s'.meta.externalName == s.meta.externalName
            && Observed(faults, spec, s, Ok(channel)).1.Ok? && Observed(faults, spec, s, Ok(channel)).1.value.present
  {
    CalmObserve(faults, spec, s, channel);
    hide Observed, IndexOf;
  }

  lemma {:induction false} DeletionKept(faults: Faults, spec: Spec, s: State, channel: string, n: nat)
    requires Calm(faults) && Kept(s, channel)
    ensures var s' := DeletionRun(faults, spec, s, channel, n);
            && s'.net.world == s.net.world && s'.meta.externalName == s.meta.externalName
            && Observed(faults, spec, s', Ok(channel)).1 != Ok(MISSING)
    decreases n
  {
    hide Observed, AfterDelete, IndexOf;
    if n > 0 {
      DeletionKept(faults, spec, s, channel, n - 1);
      KeptTurn(faults, spec, DeletionRun(faults, spec, s, channel, n - 1), channel);
    }
    KeptTurn(faults, spec, DeletionRun(faults, spec, s, channel, n), channel);
  }

  /** Deletion, exactly: fault-free turns ever report the bookmark missing, so that the driver can finish, if and
      only if it is not on the shelf of an archived channel. */
  lemma DeletionFinishesIff(faults: Faults, spec: Spec, s: State, channel: string)
    requires Calm(faults) && (channel in s.net.world ==> DistinctIds(s.net.world[channel].marks))
    ensures (exists n: nat :: GoneAfter(faults, spec, s, channel, n)) <==> !Kept(s, channel)
  {
    CalmObserve(faults, spec, s, channel);
    var (seen, o) := Observed(faults, spec, s, Ok(channel));
    assert DeletionRun(faults, spec, s, channel, 0) == s;
    if Kept(s, channel) {
      forall n: nat ensures !GoneAfter(faults, spec, s, channel, n) {
        DeletionKept(faults, spec, s, channel, n);
      }
    } else if OnShelf(s, channel) {
      DeleteThenGoneIff(faults, spec, seen, channel);
      assert DeletionRun(faults, spec, s, channel, 1) == AfterDelete(faults, seen, Ok(channel)).0;
      assert GoneAfter(faults, spec, s, channel, 1);
    } else {
      assert GoneAfter(faults, spec, s, channel, 0);
    }
    hide Observed, AfterDelete, IndexOf;
  }
}
