/**
 The Conversation controller: Observe, Create, Update and Delete over the managed object and the
 client. Every method is tied to a function of the state before the call; what the source promises is
 proved about those functions here and in ConversationRuns.
 */
module Conversation {
  import opened Outcomes
  import opened Errors
  import opened Types
  import opened AutoLinks
  import opened Pagination
  import opened Runtime
  import opened ConversationApi

  datatype Spec = Spec(name: string, isPrivate: Option<bool>, topic: Option<string>, purpose: Option<string>)

  datatype Status = Status(id: string, isArchived: bool, numMembers: int, created: int)

  datatype State = State(meta: Meta<Status>, net: Net<Workspace>)

  const NAME_CONFLICT: Condition := Condition(false, "NameConflict", "channel name is already taken")
  const NOT_FOUND: Condition := Condition(false, "NotFound", "channel not found in Slack")

  function IsUpToDate(spec: Spec, c: Channel): bool {
    if spec.name != c.name then false
    else if spec.topic.GetOr("") != Strip(c.topic) then false
    else if spec.purpose.GetOr("") != Strip(c.purpose) then false
    else true
  }

  function ErrorLabel(w: Write): string {
    match w
    case Join(_) => "cannot join conversation"
    case Rename(_, _) => "cannot rename conversation"
    case SetTopic(_, _) => "cannot set conversation topic"
    case SetPurpose(_, _) => "cannot set conversation purpose"
    case Archive(_) => "cannot archive conversation"
  }

  // ---------- The four operations as functions ----------

  /** The channel ID an external name stands for: a name is looked up, an ID is taken as it is. */
  function Adopt(faults: Faults, s: State): (State, Result<bool, Error>) {
    if IsChannelID(s.meta.externalName) then (s, Ok(true))
    else
      var (net, found) := Transit(faults, s.net, Found(s.net.world, s.meta.externalName));
      match found
      case Err(e) => (s.(net := net), Err(Wrapped("cannot get conversation info", e)))
      case Ok(c) =>
        if c.None? then (s.(net := net), Ok(false))
        else (State(s.meta.(externalName := c.value.id), net), Ok(true))
  }

  function Inspect(faults: Faults, spec: Spec, s: State): (State, Result<Observation, Error>) {
    var (net, info) := Transit(faults, s.net, Info(s.net.world, s.meta.externalName));
    match info
    case Err(e) =>
      if HasCode(e, "channel_not_found") then (State(s.meta.With(Synced, NOT_FOUND), net), Ok(MISSING))
      else (s.(net := net), Err(Wrapped("cannot get conversation info", e)))
    case Ok(c) =>
      if c.isArchived then (s.(net := net), Ok(MISSING))
      else
        (State(s.meta.(atProvider := Status(c.id, c.isArchived, c.numMembers, c.created)).With(Ready, AVAILABLE), net),
         Ok(Observation(true, IsUpToDate(spec, c))))
  }

  function Observed(faults: Faults, spec: Spec, s: State): (State, Result<Observation, Error>) {
    if s.meta.externalName == "" then (s, Ok(MISSING))
    else
      var (s', adopted) := Adopt(faults, s);
      match adopted
      case Err(e) => (s', Err(e))
      case Ok(false) => (s', Ok(MISSING))
      case Ok(true) => Inspect(faults, spec, s')
  }

  /** Runs writes in order up to the first that fails. */
  function RunWrites(srv: Server, faults: Faults, net: Net<Workspace>,
        writes: seq<Write>): (Net<Workspace>, Option<(Write, Error)>)
    decreases |writes|
  {
    if writes == [] then (net, None)
    else
      var (net', r) := Transit(faults, net, Apply(srv, net.world, writes[0]));
      match r
      case Err(e) => (net', Some((writes[0], e)))
      case Ok(_) => RunWrites(srv, faults, net', writes[1..])
  }

  lemma NothingToRun(srv: Server, faults: Faults, net: Net<Workspace>)
    ensures RunWrites(srv, faults, net, []) == (net, None)
  {
  }

  lemma RunFirst(srv: Server, faults: Faults, net: Net<Workspace>, w: Write, rest: seq<Write>)
    ensures RunWrites(srv, faults, net, [w] + rest) ==
              var (net', r) := Transit(faults, net, Apply(srv, net.world, w));
              if r.Err? then (net', Some((w, r.error))) else RunWrites(srv, faults, net', rest)
  {
    assert ([w] + rest)[1..] == rest;
    hide Apply;
  }

  lemma {:induction false} NoRenameFails(srv: Server, faults: Faults, net: Net<Workspace>, writes: seq<Write>)
    requires forall k :: 0 <= k < |writes| ==> !writes[k].Rename?
    ensures var failed := RunWrites(srv, faults, net, writes).1;
            failed.Some? ==> !failed.value.0.Rename?
    decreases |writes|
  {
    hide Apply;
    if writes != [] {
      var (net', r) := Transit(faults, net, Apply(srv, net.world, writes[0]));
      if r.Ok? { NoRenameFails(srv, faults, net', writes[1..]); }
    }
  }

  /** The writes a drifted channel needs, in the order in which they are made. */
  function Plan(spec: Spec, id: string, c: Channel): seq<Write> {
    (if spec.name != c.name then [Rename(id, spec.name)] else []) +
    (if spec.topic.GetOr("") != Strip(c.topic) then [SetTopic(id, spec.topic.GetOr(""))] else []) +
    (if spec.purpose.GetOr("") != Strip(c.purpose) then [SetPurpose(id, spec.purpose.GetOr(""))] else [])
  }

  /** The writes a new channel needs. */
  function Furnish(spec: Spec, id: string): seq<Write> {
    (if spec.topic.GetOr("") != "" then [SetTopic(id, spec.topic.value)] else []) +
    (if spec.purpose.GetOr("") != "" then [SetPurpose(id, spec.purpose.value)] else [])
  }

  function AfterWrites(meta: Meta<Status>, done: (Net<Workspace>, Option<(Write, Error)>)): (State, Option<Error>) {
    match done.1
    case None => (State(meta, done.0), None)
    case Some((w, e)) =>
      var meta' := if w.Rename? && HasCode(e, "name_taken") then meta.With(Synced, NAME_CONFLICT) else meta;
      (State(meta', done.0), Some(Wrapped(ErrorLabel(w), e)))
  }

  function AfterCreate(srv: Server, faults: Faults, spec: Spec, s: State): (State, Option<Error>) {
    var (net, r) := Transit(faults, s.net, Created(srv, s.net.world, spec.name, spec.isPrivate.GetOr(false)));
    match r
    case Ok(c) =>
      AfterWrites(s.meta.(externalName := c.id), RunWrites(srv, faults, net, Furnish(spec, c.id)))
    case Err(e) =>
      var failure := Some(Wrapped("cannot create conversation", e));
      if !HasCode(e, "name_taken") then (s.(net := net), failure)
      else
        var (net', found) := Transit(faults, net, Found(net.world, spec.name));
        if found.Ok? && found.value.Some? then (State(s.meta.(externalName := found.value.value.id), net'), None)
        else (State(s.meta.With(Synced, NAME_CONFLICT), net'), failure)
  }

  function AfterUpdate(srv: Server, faults: Faults, spec: Spec, s: State): (State, Option<Error>) {
    var id := s.meta.externalName;
    var (net, joined) := Transit(faults, s.net, Apply(srv, s.net.world, Join(id)));
    if joined.Err? then (s.(net := net), Some(Wrapped("cannot join conversation", joined.error)))
    else
      var (net', info) := Transit(faults, net, Info(net.world, id));
      if info.Err? then (s.(net := net'), Some(Wrapped("cannot update conversation", info.error)))
      else AfterWrites(s.meta, RunWrites(srv, faults, net', Plan(spec, id, info.value)))
  }

  function AfterDelete(srv: Server, faults: Faults, s: State): (State, Option<Error>) {
    if s.meta.externalName == "" then (s, None)
    else
      var (net, r) := Transit(faults, s.net, Apply(srv, s.net.world, Archive(s.meta.externalName)));
      (s.(net := net),
       if r.Err? && !HasCode(r.error, "channel_not_found") then Some(Wrapped("cannot archive conversation", r.error))
         else None)
  }

  // ---------- The controller ----------

  class External {
    const client: SlackClient

    constructor (client: SlackClient)
      ensures this.client == client
    {
      this.client := client;
    }

    function View(cr: Managed<Spec, Status>): State
      reads cr, client
    {
      State(cr.View(), client.net)
    }

    method Observe(cr: Managed<Spec, Status>) returns (r: Result<Observation, Error>)
      modifies cr, client
      ensures (View(cr), r) == Observed(client.faults, cr.spec, old(View(cr)))
    {
      hide Info, Found, IsUpToDate, IsChannelID;
      var externalName := cr.externalName;
      if externalName == "" {
        return Ok(MISSING);
      }
      if !IsChannelID(externalName) {
        var found := client.FindConversationByName(externalName);
        if found.Err? {
          return Err(Wrapped("cannot get conversation info", found.error));
        }
        if found.value.None? {
          return Ok(MISSING);
        }
        cr.externalName := found.value.value.id;
        externalName := found.value.value.id;
      }
      var info := client.GetConversationInfo(externalName);
      if info.Err? {
        if HasCode(info.error, "channel_not_found") {
          cr.SetCondition(Synced, NOT_FOUND);
          return Ok(MISSING);
        }
        return Err(Wrapped("cannot get conversation info", info.error));
      }
      var conv := info.value;
      if conv.isArchived {
        return Ok(MISSING);
      }
      cr.atProvider := Status(conv.id, conv.isArchived, conv.numMembers, conv.created);
      var upToDate := IsUpToDate(cr.spec, conv);
      cr.SetCondition(Ready, AVAILABLE);
      return Ok(Observation(true, upToDate));
    }

    method Create(cr: Managed<Spec, Status>) returns (r: Option<Error>)
      modifies cr, client
      ensures (View(cr), r) == AfterCreate(client.srv, client.faults, cr.spec, old(View(cr)))
    {
      hide Created, Found, Apply, RunWrites;
      var isPrivate := false;
      if cr.spec.isPrivate.Some? {
        isPrivate := cr.spec.isPrivate.value;
      }
      var conv := client.CreateConversation(cr.spec.name, isPrivate);
      if conv.Err? {
        if HasCode(conv.error, "name_taken") {
          var found := client.FindConversationByName(cr.spec.name);
          if found.Ok? && found.value.Some? {
            cr.externalName := found.value.value.id;
            return None;
          }
          cr.SetCondition(Synced, NAME_CONFLICT);
        }
        return Some(Wrapped("cannot create conversation", conv.error));
      }
      cr.externalName := conv.value.id;
      ghost var toDo := Furnish(cr.spec, conv.value.id);
      if cr.spec.topic.Some? && cr.spec.topic.value != "" {
        assert toDo == [toDo[0]] + toDo[1..];
        RunFirst(client.srv, client.faults, client.net, toDo[0], toDo[1..]);
        toDo := toDo[1..];
        var w := client.Write(SetTopic(conv.value.id, cr.spec.topic.value));
        if w.Err? {
          return Some(Wrapped("cannot set conversation topic", w.error));
        }
      }
      if cr.spec.purpose.Some? && cr.spec.purpose.value != "" {
        assert toDo == [toDo[0]] + toDo[1..];
        RunFirst(client.srv, client.faults, client.net, toDo[0], toDo[1..]);
        toDo := toDo[1..];
        var w := client.Write(SetPurpose(conv.value.id, cr.spec.purpose.value));
        if w.Err? {
          return Some(Wrapped("cannot set conversation purpose", w.error));
        }
      }
      NothingToRun(client.srv, client.faults, client.net);
      return None;
    }

    method Update(cr: Managed<Spec, Status>) returns (r: Option<Error>)
      modifies cr, client
      ensures (View(cr), r) == AfterUpdate(client.srv, client.faults, cr.spec, old(View(cr)))
    {
      hide Info, Apply, Strip, RunWrites;
      var externalName := cr.externalName;
      var joined := client.Write(Join(externalName));
      if joined.Err? {
        return Some(Wrapped("cannot join conversation", joined.error));
      }
      var info := client.GetConversationInfo(externalName);
      if info.Err? {
        return Some(Wrapped("cannot update conversation", info.error));
      }
      var conv := info.value;
      ghost var toDo := Plan(cr.spec, externalName, conv);
      if cr.spec.name != conv.name {
        assert toDo == [toDo[0]] + toDo[1..];
        RunFirst(client.srv, client.faults, client.net, toDo[0], toDo[1..]);
        toDo := toDo[1..];
        var w := client.Write(Rename(externalName, cr.spec.name));
        if w.Err? {
          if HasCode(w.error, "name_taken") {
            cr.SetCondition(Synced, NAME_CONFLICT);
          }
          return Some(Wrapped("cannot rename conversation", w.error));
        }
      }
      var desiredTopic := cr.spec.topic.GetOr("");
      if desiredTopic != Strip(conv.topic) {
        assert toDo == [toDo[0]] + toDo[1..];
        RunFirst(client.srv, client.faults, client.net, toDo[0], toDo[1..]);
        toDo := toDo[1..];
        var w := client.Write(SetTopic(externalName, desiredTopic));
        if w.Err? {
          return Some(Wrapped("cannot set conversation topic", w.error));
        }
      }
      var desiredPurpose := cr.spec.purpose.GetOr("");
      if desiredPurpose != Strip(conv.purpose) {
        assert toDo == [toDo[0]] + toDo[1..];
        RunFirst(client.srv, client.faults, client.net, toDo[0], toDo[1..]);
        toDo := toDo[1..];
        var w := client.Write(SetPurpose(externalName, desiredPurpose));
        if w.Err? {
          return Some(Wrapped("cannot set conversation purpose", w.error));
        }
      }
      NothingToRun(client.srv, client.faults, client.net);
      return None;
    }

    method Delete(cr: Managed<Spec, Status>) returns (r: Option<Error>)
      modifies cr, client
      ensures (View(cr), r) == AfterDelete(client.srv, client.faults, old(View(cr)))
    {
      hide Apply;
      var externalName := cr.externalName;
      if externalName == "" {
        return None;
      }
      var w := client.Write(Archive(externalName));
      if w.Err? {
        if HasCode(w.error, "channel_not_found") {
          return None;
        }
        return Some(Wrapped("cannot archive conversation", w.error));
      }
      return None;
    }
  }
}
