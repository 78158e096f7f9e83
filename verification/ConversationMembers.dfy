/**
 The ConversationMember controller. Slack's side is an assumption: a channel has a list of members,
 inviting a member again is refused with `already_in_channel`, and an archived channel accepts no
 invitations. Whether an archived channel lets members be removed is left open: the server decides.
 */
module ConversationMembers {
  import opened Outcomes
  import opened Errors
  import opened Runtime
  import opened ExternalNames

  // ---------- Slack's side ----------

  datatype Club = Club(archived: bool, members: seq<string>)

  type Clubs = map<string, Club>

  /** `directory` answers an email lookup; `archiveIsFinal` tells whether an archived channel refuses to lose
      members. */
  datatype Server = Server(directory: string -> Result<Option<string>, Error>, archiveIsFinal: bool)

  function Joined(clubs: Clubs, channel: string): (Clubs, Result<(), Error>) {
    (clubs,
     if channel !in clubs then Err(Rejection("channel_not_found"))
     else if clubs[channel].archived then Err(Rejection("is_archived"))
     else Ok(()))
  }

  function Invited(clubs: Clubs, channel: string, user: string): (Clubs, Result<(), Error>) {
    if channel !in clubs then (clubs, Err(Rejection("channel_not_found")))
    else
      var club := clubs[channel];
      if club.archived then (clubs, Err(Rejection("is_archived")))
      else if user in club.members then (clubs, Err(Rejection("already_in_channel")))
      else (clubs[channel := club.(members := club.members + [user])], Ok(()))
  }

  function Excluding(members: seq<string>, user: string): (r: seq<string>)
    ensures forall u :: u in r <==> u in members && u != user
  {
    if members == [] then []
    else (if members[0] == user then [] else [members[0]]) + Excluding(members[1..], user)
  }

  function Kicked(srv: Server, clubs: Clubs, channel: string, user: string): (Clubs, Result<(), Error>) {
    if channel !in clubs then (clubs, Err(Rejection("channel_not_found")))
    else
      var club := clubs[channel];
      if club.archived && srv.archiveIsFinal then (clubs, Err(Rejection("is_archived")))
      else if user !in club.members then (clubs, Err(Rejection("not_in_channel")))
      else (clubs[channel := club.(members := Excluding(club.members, user))], Ok(()))
  }

  /** The members of all pages together. */
  function Listed(clubs: Clubs, channel: string): (Clubs, Result<seq<string>, Error>) {
    (clubs, if channel in clubs then Ok(clubs[channel].members) else Err(Rejection("channel_not_found")))
  }

  class MemberClient {
    const srv: Server
    const faults: Faults
    var net: Net<Clubs>

    constructor (srv: Server, faults: Faults, clubs: Clubs)
      ensures this.srv == srv && this.faults == faults && net == Net(clubs, 0)
    {
      this.srv, this.faults, net := srv, faults, Net(clubs, 0);
    }

    method JoinConversation(channel: string) returns (r: Result<(), Error>)
      modifies this
      ensures (net, r) == Transit(faults, old(net), Joined(old(net.world), channel))
    {
      var (after, answer) := Transit(faults, net, Joined(net.world, channel));
      net, r := after, answer;
    }

    method InviteToConversation(channel: string, user: string) returns (r: Result<(), Error>)
      modifies this
      ensures (net, r) == Transit(faults, old(net), Invited(old(net.world), channel, user))
    {
      var (after, answer) := Transit(faults, net, Invited(net.world, channel, user));
      net, r := after, answer;
    }

    method KickFromConversation(channel: string, user: string) returns (r: Result<(), Error>)
      modifies this
      ensures (net, r) == Transit(faults, old(net), Kicked(srv, old(net.world), channel, user))
    {
      var (after, answer) := Transit(faults, net, Kicked(srv, net.world, channel, user));
      net, r := after, answer;
    }

    method GetConversationMembers(channel: string) returns (r: Result<seq<string>, Error>)
      modifies this
      ensures (net, r) == Transit(faults, old(net), Listed(old(net.world), channel))
    {
      var (after, answer) := Transit(faults, net, Listed(net.world, channel));
      net, r := after, answer;
    }

    method LookupUserByEmail(email: string) returns (r: Result<Option<string>, Error>)
      modifies this
      ensures (net, r) == Transit(faults, old(net), (old(net.world), srv.directory(email)))
    {
      var (after, answer) := Transit(faults, net, (net.world, srv.directory(email)));
      net, r := after, answer;
    }
  }

  // ---------- The operations as functions ----------

  datatype Spec = Spec(userID: Option<string>, userEmail: Option<string>)

  datatype Status = Status(resolvedUserID: string, channelID: string)

  datatype State = State(meta: Meta<Status>, net: Net<Clubs>)

  function Failure(text: string): Error {
    Library(Foreign(NotNetwork, text, None))
  }

  /** A user ID is taken as it is; an email is looked up; the ID wins if both are given. */
  function ResolvedUser(srv: Server, faults: Faults, spec: Spec, net: Net<Clubs>): (Net<Clubs>, Result<string, Error>) {
    if spec.userID.GetOr("") != "" then (net, Ok(spec.userID.value))
    else if spec.userEmail.GetOr("") != "" then
      var (net', user) := Transit(faults, net, (net.world, srv.directory(spec.userEmail.value)));
      (net',
       if user.Err? then Err(user.error)
       else if user.value.GetOr("") == "" then Err(Failure("user not found for email " + spec.userEmail.value))
       else Ok(user.value.value))
    else (net, Err(Failure("one of userEmail or userId is required")))
  }

  function Observed(faults: Faults, s: State): (State, Result<Observation, Error>) {
    match Cut(s.meta.externalName, '/')
    case None => (s, Ok(MISSING))
    case Some((channel, user)) =>
      var (net, members) := Transit(faults, s.net, Listed(s.net.world, channel));
      if members.Err? then (s.(net := net), Err(Wrapped("cannot list conversation members", members.error)))
      else if user !in members.value then (s.(net := net), Ok(MISSING))
      else
        (State(s.meta.(atProvider := Status(user, channel)).With(Ready, AVAILABLE), net),
         Ok(Observation(true, true)))
  }

  function AfterCreate(srv: Server, faults: Faults, spec: Spec, s: State, channel: Result<string,
        Error>): (State, Option<Error>)
  {
    if channel.Err? then (s, Some(Wrapped("cannot resolve conversation ID", channel.error)))
    else
      var (net, user) := ResolvedUser(srv, faults, spec, s.net);
      if user.Err? then (s.(net := net), Some(Wrapped("cannot resolve user", user.error)))
      else
        var net' := Transit(faults, net, Joined(net.world, channel.value)).0;
        var (net'', invited) := Transit(faults, net', Invited(net'.world, channel.value, user.value));
        if invited.Err? && !HasCode(invited.error, "already_in_channel") then
          (s.(net := net''), Some(Wrapped("cannot invite user to conversation", invited.error)))
        else (State(s.meta.(externalName := FormatMember(channel.value, user.value)), net''), None)
  }

  function AfterDelete(srv: Server, faults: Faults, s: State): (State, Option<Error>) {
    match Cut(s.meta.externalName, '/')
    case None => (s, None)
    case Some((channel, user)) =>
      var (net, r) := Transit(faults, s.net, Kicked(srv, s.net.world, channel, user));
      (s.(net := net),
       if r.Ok? || HasCode(r.error, "not_in_channel") || HasCode(r.error, "channel_not_found") then None
       else Some(Wrapped("cannot remove user from conversation", r.error)))
  }

  // ---------- The controller ----------

  class External {
    const client: MemberClient

    constructor (client: MemberClient)
      ensures this.client == client
    {
      this.client := client;
    }

    function View(cr: Managed<Spec, Status>): State
      reads cr, client
    {
      State(cr.View(), client.net)
    }

    method ResolveUserID(spec: Spec) returns (r: Result<string, Error>)
      modifies client
      ensures (client.net, r) == ResolvedUser(client.srv, client.faults, spec, old(client.net))
    {
      if spec.userID.Some? && spec.userID.value != "" {
        return Ok(spec.userID.value);
      }
      if spec.userEmail.Some? && spec.userEmail.value != "" {
        var user := client.LookupUserByEmail(spec.userEmail.value);
        if user.Err? {
          return Err(user.error);
        }
        if user.value.None? || user.value.value == "" {
          return Err(Failure("user not found for email " + spec.userEmail.value));
        }
        return Ok(user.value.value);
      }
      return Err(Failure("one of userEmail or userId is required"));
    }

    method Observe(cr: Managed<Spec, Status>) returns (r: Result<Observation, Error>)
      modifies cr, client
      ensures (View(cr), r) == Observed(client.faults, old(View(cr)))
    {
      var externalName := cr.externalName;
      if externalName == "" {
        return Ok(MISSING);
      }
      hide Cut, Listed;
      var channel, user, ok := ParseMember(externalName);
      if !ok {
        return Ok(MISSING);
      }
      var members := client.GetConversationMembers(channel);
      if members.Err? {
        return Err(Wrapped("cannot list conversation members", members.error));
      }
      for i := 0 to |members.value|
        invariant user !in members.value[..i]
      {
        if members.value[i] == user {
          cr.atProvider := Status(user, channel);
          cr.SetCondition(Ready, AVAILABLE);
          return Ok(Observation(true, true));
        }
      }
      assert members.value[..|members.value|] == members.value;
      return Ok(MISSING);
    }

    method Create(cr: Managed<Spec, Status>, channel: Result<string, Error>) returns (r: Option<Error>)
      modifies cr, client
      ensures (View(cr), r) == AfterCreate(client.srv, client.faults, cr.spec, old(View(cr)), channel)
    {
      hide Invited, Joined, HasCode, ResolvedUser;
      if channel.Err? {
        return Some(Wrapped("cannot resolve conversation ID", channel.error));
      }
      var user := ResolveUserID(cr.spec);
      if user.Err? {
        return Some(Wrapped("cannot resolve user", user.error));
      }
      var _ := client.JoinConversation(channel.value);
      var invited := client.InviteToConversation(channel.value, user.value);
      if invited.Err? {
        if !HasCode(invited.error, "already_in_channel") {
          return Some(Wrapped("cannot invite user to conversation", invited.error));
        }
      }
      cr.externalName := FormatMember(channel.value, user.value);
      return None;
    }

    method Delete(cr: Managed<Spec, Status>) returns (r: Option<Error>)
      modifies client
      ensures (View(cr), r) == AfterDelete(client.srv, client.faults, old(View(cr)))
    {
      var externalName := cr.externalName;
      if externalName == "" {
        return None;
      }
      hide Cut, Kicked, HasCode;
      var channel, user, ok := ParseMember(externalName);
      if !ok {
        return None;
      }
      var kicked := client.KickFromConversation(channel, user);
      if kicked.Err? {
        if HasCode(kicked.error, "not_in_channel") || HasCode(kicked.error, "channel_not_found") {
          return None;
        }
        return Some(Wrapped("cannot remove user from conversation", kicked.error));
      }
      return None;
    }
  }

  // ---------- Lifecycle ----------

  predicate IsMember(clubs: Clubs, channel: string, user: string) {
    channel in clubs && user in clubs[channel].members
  }

  /** The user a spec stands for when no call is lost. */
  function SpecUser(srv: Server, spec: Spec): Option<string> {
    if spec.userID.GetOr("") != "" then spec.userID
    else if spec.userEmail.GetOr("") == "" then None
    else
      match srv.directory(spec.userEmail.value)
      case Err(_) => None
      case Ok(user) => if user.GetOr("") == "" then None else user
  }

  /** Fault-free Create succeeds exactly when the user resolves and the channel is open, whether or not the
      user is a member already; it makes that user a member and changes no other membership; and the next
      Observe then finds the membership, provided the channel ID holds no slash. */
  lemma CreateThenPresent(srv: Server, faults: Faults, spec: Spec, s: State, channel: string)
    requires Calm(faults)
    ensures var (s', r) := AfterCreate(srv, faults, spec, s, Ok(channel));
            var clubs := s.net.world;
            && (r.None? <==> SpecUser(srv, spec).Some? && channel in clubs && !clubs[channel].archived)
            && (r.Some? ==> s'.net.world == clubs && s'.meta == s.meta)
            && (r.None? ==> forall c, u :: IsMember(s'.net.world, c, u) <==>
                  IsMember(clubs, c, u) || (c == channel && u == SpecUser(srv, spec).value))
            && (r.None? && '/' !in channel ==> Observed(faults, s').1 == Ok(Observation(true, true)))
  {
    var (s', r) := AfterCreate(srv, faults, spec, s, Ok(channel));
    if r.None? {
      MemberRoundTripIff(channel, SpecUser(srv, spec).value);
      hide Cut, FormatMember;
    }
  }

  /** Fault-free Delete of a well-formed name succeeds exactly unless the channel is archived and refuses; it then
      ends that membership, if there is one, and no other, and the next Observe of a known channel finds
      nothing. */
  lemma DeleteThenGone(srv: Server, faults: Faults, s: State, channel: string, user: string)
    requires Calm(faults) && Cut(s.meta.externalName, '/') == Some((channel, user))
    ensures var (s', r) := AfterDelete(srv, faults, s);
            var refused := channel in s.net.world && s.net.world[channel].archived && srv.archiveIsFinal;
            && s'.meta == s.meta && (r.None? <==> !refused) && (refused ==> s'.net.world == s.net.world)
            && (!refused ==>
                  forall c, u ::
                    IsMember(s'.net.world, c, u) <==> IsMember(s.net.world, c, u) && (c != channel || u != user))
            && (!refused && channel in s.net.world ==> Observed(faults, s').1 == Ok(MISSING))
  {
    hide Cut;
  }

  /** Observe fails, rather than reporting the membership missing, exactly when the channel is gone: so
      although Delete accepts a missing channel, a driver that observes first never gets to it. */
  lemma CalmObserveFailsIff(srv: Server, faults: Faults, s: State)
    requires Calm(faults)
    ensures Observed(faults, s).1.Err? <==>
              Cut(s.meta.externalName, '/').Some? && Cut(s.meta.externalName, '/').value.0 !in s.net.world
    ensures Cut(s.meta.externalName, '/').Some? && Observed(faults, s).1.Err? ==> AfterDelete(srv, faults, s).1.None?
  {
    hide Cut;
  }

  // ---------- Runs ----------

  /** One reconcile that is not deleting: observe, then create if missing. */
  ghost function Reconcile(srv: Server, faults: Faults, spec: Spec, s: State, channel: string): State {
    var (seen, o) := Observed(faults, s);
    if o.Ok? && !o.value.present then AfterCreate(srv, faults, spec, seen, Ok(channel)).0 else seen
  }

  ghost function CalmRun(srv: Server, faults: Faults, spec: Spec, s: State, channel: string, n: nat): State {
    if n == 0 then s else Reconcile(srv, faults, spec, CalmRun(srv, faults, spec, s, channel, n - 1), channel)
  }

  ghost predicate PresentAfter(srv: Server, faults: Faults, spec: Spec, s: State, channel: string, n: nat) {
    Observed(faults, CalmRun(srv, faults, spec, s, channel, n)).1 == Ok(Observation(true, true))
  }

  /** The external name is that of a membership. */
  predicate NamesMember(clubs: Clubs, externalName: string) {
    var parts := Cut(externalName, '/');
    parts.Some? && IsMember(clubs, parts.value.0, parts.value.1)
  }

  /** The external name is that of a membership in a channel that is gone. */
  predicate Blocked(clubs: Clubs, externalName: string) {
    var parts := Cut(externalName, '/');
    parts.Some? && parts.value.0 !in clubs
  }

  /** The user resolves and the channel is open. */
  predicate Joinable(srv: Server, spec: Spec, clubs: Clubs, channel: string) {
    SpecUser(srv, spec).Some? && channel in clubs && !clubs[channel].archived
  }

  /** The name that a successful Create leaves will be found. */
  predicate FoundOnceNamed(clubs: Clubs, channel: string, user: string) {
    '/' in channel ==> NamesMember(clubs, FormatMember(channel, user))
  }

  /** The condition a caller can check before the run. */
  predicate CanExist(srv: Server, spec: Spec, s: State, channel: string) {
    || NamesMember(s.net.world, s.meta.externalName)
    || (&& !Blocked(s.net.world, s.meta.externalName) && Joinable(srv, spec, s.net.world, channel)
        && FoundOnceNamed(s.net.world, channel, SpecUser(srv, spec).value))
  }

  lemma CalmObserve(faults: Faults, s: State)
    requires Calm(faults)
    ensures var (seen, o) := Observed(faults, s);
            && seen.net.world == s.net.world && seen.meta.externalName == s.meta.externalName
            && (o.Err? <==> Blocked(s.net.world, s.meta.externalName))
            && (o == Ok(Observation(true, true)) <==> NamesMember(s.net.world, s.meta.externalName))
            && (o.Ok? && !NamesMember(s.net.world, s.meta.externalName) ==> o == Ok(MISSING))
  {
    hide Cut;
  }

  /** What a fault-free Observe answers and records: of a membership that it is there and up to date, with its user
      and channel, and that the resource is available; of a channel that is gone, Slack's error; and otherwise
      nothing. */
  lemma CalmObserveRecords(faults: Faults, s: State, channel: string, user: string)
    requires Calm(faults) && Cut(s.meta.externalName, '/') == Some((channel, user))
    ensures var (s', o) := Observed(faults, s);
            if IsMember(s.net.world, channel, user) then
              && o == Ok(Observation(true, true))
              && s'.meta == s.meta.(atProvider := Status(user, channel),
                                    conditions := s.meta.conditions[Ready := Condition(true, "Available", "")])
            else
              && s'.meta == s.meta
              && if channel in s.net.world then o == Ok(Observation(false, false))
                 else o.Err? && HasCode(o.error, "channel_not_found")
  {
    hide Cut;
  }

  /** The number of the call that invites, in a Create whose first call has number `first`. */
  function InviteCall(spec: Spec, first: nat): nat {
    if spec.userID.GetOr("") != "" then first + 1 else first + 2
  }

  /** The user that a spec stands for: its ID if there is one, else whom Slack knows under its email. */
  lemma SpecUserIff(srv: Server, spec: Spec, id: string)
    ensures SpecUser(srv, spec) == Some(id) <==>
              && id != ""
              && (|| spec.userID == Some(id)
                  || (&& (spec.userID.None? || spec.userID == Some(""))
                      && spec.userEmail.Some? && spec.userEmail != Some("")
                      && srv.directory(spec.userEmail.value) == Ok(Some(id))))
  {
  }

  /** Exactly when Create fails, under any faults: the user does not resolve, its email being looked up first; or the
      invitation is refused or not answered. Whether the bot could join before does not matter. */
  lemma CreateFailsIff(srv: Server, faults: Faults, spec: Spec, s: State, channel: string)
    ensures var (s', r) := AfterCreate(srv, faults, spec, s, Ok(channel));
            var (clubs, invite) := (s.net.world, faults(InviteCall(spec, s.net.calls)));
            var byEmail := spec.userID.GetOr("") == "" && spec.userEmail.GetOr("") != "";
            && (r.Some? <==>
                  || SpecUser(srv, spec).None? || (byEmail && !faults(s.net.calls).Deliver?)
                  || (if invite.Deliver? then channel !in clubs || clubs[channel].archived
                      else !HasCode(invite.cause, "already_in_channel")))
            && (r.Some? ==> s'.meta == s.meta && r.value.Wrapped?)
            && (r.Some? ==>
                  if byEmail && !faults(s.net.calls).Deliver? then r.value.inner == faults(s.net.calls).cause
                  else if SpecUser(srv, spec).Some? then
                    if !invite.Deliver? then r.value.inner == invite.cause
                    else HasCode(r.value, if channel !in clubs then "channel_not_found" else "is_archived")
                  else byEmail && srv.directory(spec.userEmail.value).Err? ==>
                    r.value.inner == srv.directory(spec.userEmail.value).error)
            && (r.None? ==>
                  s'.meta == s.meta.(externalName := channel + "/" + SpecUser(srv, spec).value))
  {
    if SpecUser(srv, spec).Some? {
      assert FormatMember(channel, SpecUser(srv, spec).value) == channel + "/" + SpecUser(srv, spec).value;
    }
    hide FormatMember;
  }

  /** A call that is not answered makes Observe and Delete fail, with the cause inside, unless the cause itself
      carries a code that Delete takes for an answer. */
  lemma UnansweredFails(srv: Server, faults: Faults, s: State)
    requires !faults(s.net.calls).Deliver? && Cut(s.meta.externalName, '/').Some?
    ensures var cause := faults(s.net.calls).cause;
            var (observed, o) := Observed(faults, s);
            var (deleted, r) := AfterDelete(srv, faults, s);
            && o.Err? && o.error.Wrapped? && o.error.inner == cause && observed.meta == s.meta
            && (r.None? <==> HasCode(cause, "not_in_channel") || HasCode(cause, "channel_not_found"))
            && (r.Some? ==> r.value.Wrapped? && r.value.inner == cause) && deleted.meta == s.meta
  {
    hide Cut;
  }

  /** A reference to the channel that does not resolve stops Create with that error before any call. */
  lemma UnresolvedChannelStops(srv: Server, faults: Faults, spec: Spec, s: State, e: Error)
    ensures AfterCreate(srv, faults, spec, s, Err(e)) == (s, Some(Wrapped("cannot resolve conversation ID", e)))
  {
  }

  /** A successful Create names a membership exactly as predicted. */
  lemma CreatedIsFoundIff(srv: Server, faults: Faults, spec: Spec, s: State, channel: string)
    requires Calm(faults) && Joinable(srv, spec, s.net.world, channel)
    ensures var (s', user) := (AfterCreate(srv, faults, spec, s, Ok(channel)).0, SpecUser(srv, spec).value);
            && (NamesMember(s'.net.world, s'.meta.externalName) <==> FoundOnceNamed(s.net.world, channel, user))
            && (FoundOnceNamed(s'.net.world, channel, user) <==> FoundOnceNamed(s.net.world, channel, user))
  {
    var (s', user) := (AfterCreate(srv, faults, spec, s, Ok(channel)).0, SpecUser(srv, spec).value);
    CreateThenPresent(srv, faults, spec, s, channel);
    MemberRoundTripIff(channel, user);
    var name := FormatMember(channel, user);
    assert s'.meta.externalName == name;
    NoCutIff(name, '/');
    assert name[|channel|] == '/';
    if Cut(name, '/').Some? {
      CutIff(name, '/', Cut(name, '/').value.0, Cut(name, '/').value.1);
      assert '/' in channel ==> Cut(name, '/').value.0 != channel;
    }
    hide AfterCreate, Cut, FormatMember, IsMember;
  }

  lemma HopelessTurn(srv: Server, faults: Faults, spec: Spec, s: State, channel: string)
    requires Calm(faults) && !CanExist(srv, spec, s, channel)
    ensures var s' := Reconcile(srv, faults, spec, s, channel);
            && !CanExist(srv, spec, s', channel)
            && (Blocked(s.net.world, s.meta.externalName) || !Joinable(srv, spec, s.net.world, channel) ==>
                  s'.net.world == s.net.world && s'.meta.externalName == s.meta.externalName)
  {
    var seen := Observed(faults, s).0;
    CalmObserve(faults, s);
    CreateThenPresent(srv, faults, spec, seen, channel);
    if Joinable(srv, spec, s.net.world, channel) { CreatedIsFoundIff(srv, faults, spec, seen, channel); }
    hide Observed, AfterCreate, NamesMember, Blocked, FoundOnceNamed, SpecUser, IsMember, Cut;
  }

  lemma {:induction false} HopelessForever(srv: Server, faults: Faults, spec: Spec, s: State, channel: string, n: nat)
    requires Calm(faults) && !CanExist(srv, spec, s, channel)
    ensures !CanExist(srv, spec, CalmRun(srv, faults, spec, s, channel, n), channel)
    ensures !PresentAfter(srv, faults, spec, s, channel, n)
    decreases n
  {
    hide Observed, Reconcile, NamesMember, Blocked, Joinable, FoundOnceNamed;
    if n > 0 {
      HopelessForever(srv, faults, spec, s, channel, n - 1);
      HopelessTurn(srv, faults, spec, CalmRun(srv, faults, spec, s, channel, n - 1), channel);
    }
    CalmObserve(faults, CalmRun(srv, faults, spec, s, channel, n));
  }

  /** Exact reachability, from any external name: a fault-free run finds the membership if and only if it is
      there already, or the external name does not tie the resource to a channel that is gone, the user
      resolves, and the desired channel is open, with an ID that the membership's name parses back to. */
  lemma PresenceReachableIff(srv: Server, faults: Faults, spec: Spec, s: State, channel: string)
    requires Calm(faults)
    ensures (exists n: nat :: PresentAfter(srv, faults, spec, s, channel, n)) <==> CanExist(srv, spec, s, channel)
  {
    CalmObserve(faults, s);
    assert CalmRun(srv, faults, spec, s, channel, 0) == s;
    if NamesMember(s.net.world, s.meta.externalName) {
      assert PresentAfter(srv, faults, spec, s, channel, 0);
    } else if CanExist(srv, spec, s, channel) {
      var seen := Observed(faults, s).0;
      var s' := AfterCreate(srv, faults, spec, seen, Ok(channel)).0;
      CreatedIsFoundIff(srv, faults, spec, seen, channel);
      assert CalmRun(srv, faults, spec, s, channel, 1) == s';
      CalmObserve(faults, s');
      assert PresentAfter(srv, faults, spec, s, channel, 1);
    } else {
      forall n: nat ensures !PresentAfter(srv, faults, spec, s, channel, n) {
        HopelessForever(srv, faults, spec, s, channel, n);
      }
    }
    hide Observed, AfterCreate, NamesMember, Blocked, FoundOnceNamed, SpecUser, CanExist;
  }

  /** A Create that takes effect while its response is lost does no harm: repeating it without faults
      succeeds and adds nobody twice, and the membership is then found. */
  lemma LostCreateIsAdopted(srv: Server, faults: Faults, lossy: Faults, spec: Spec, s: State, channel: string)
    requires Calm(faults) && SpecUser(srv, spec).Some? && '/' !in channel
    requires ResolvedUser(srv, lossy, spec, s.net).1.Ok? && lossy(InviteCall(spec, s.net.calls)).Lose?
    requires Invited(s.net.world, channel, SpecUser(srv, spec).value).1.Ok?
    ensures var user := SpecUser(srv, spec).value;
            var s1 := AfterCreate(srv, lossy, spec, s, Ok(channel)).0;
            var (s2, r) := AfterCreate(srv, faults, spec, s1, Ok(channel));
            var club := s.net.world[channel];
            && s1.net.world == s.net.world[channel := club.(members := club.members + [user])]
            && (!HasCode(lossy(InviteCall(spec, s.net.calls)).cause, "already_in_channel") ==> s1.meta == s.meta)
            && r.None? && s2.net.world == s1.net.world && Observed(faults, s2).1 == Ok(Observation(true, true))
  {
    var user := SpecUser(srv, spec).value;
    var s1 := AfterCreate(srv, lossy, spec, s, Ok(channel)).0;
    assert ResolvedUser(srv, lossy, spec, s.net).1 == Ok(user);
    assert ResolvedUser(srv, lossy, spec, s.net).0.calls + 1 == InviteCall(spec, s.net.calls);
    assert s1.net.world == Invited(s.net.world, channel, user).0;
    CreateThenPresent(srv, faults, spec, s1, channel);
    hide HasCode;
  }

  // ---------- Runs under faults ----------

  /** One reconcile, after which the external name left in memory may or may not get stored. */
  ghost function FaultyTurn(srv: Server, faults: Faults, spec: Spec, s: State, channel: string, stored: bool): State {
    var after := Reconcile(srv, faults, spec, s, channel);
    if stored then after else after.(meta := after.meta.(externalName := s.meta.externalName))
  }

  ghost function FaultyRun(srv: Server, faults: Faults, spec: Spec, s: State, channel: string,
        stored: seq<bool>): State
  {
    if stored == [] then s
    else
      var n := |stored| - 1;
      FaultyTurn(srv, faults, spec, FaultyRun(srv, faults, spec, s, channel, stored[..n]), channel, stored[n])
  }

  lemma AnsweredObserve(faults: Faults, s: State)
    ensures var (seen, o) := Observed(faults, s);
            && seen.net.world == s.net.world && seen.meta.externalName == s.meta.externalName
            && (o.Ok? ==> !Blocked(s.net.world, s.meta.externalName))
            && (o.Ok? ==> (o.value.present <==> NamesMember(s.net.world, s.meta.externalName)))
  {
    hide Cut;
  }

  /** Whether a Create did its work, whatever was lost. */
  ghost predicate Admitted(srv: Server, spec: Spec, clubs: Clubs, clubs': Clubs, channel: string) {
    && Joinable(srv, spec, clubs, channel) && Joinable(srv, spec, clubs', channel) && clubs'.Keys == clubs.Keys
    && forall c, u :: IsMember(clubs', c, u) <==>
         IsMember(clubs, c, u) || (c == channel && u == SpecUser(srv, spec).value)
  }

  /** Under any faults that no one mistakes for Slack's `already_in_channel`, Create admits the user or changes
      nothing, and names the membership only if it is there. */
  lemma FaultyCreate(srv: Server, faults: Faults, spec: Spec, s: State, channel: string)
    requires FaultsSpare(faults, {"already_in_channel"})
    ensures var (clubs, s') := (s.net.world, AfterCreate(srv, faults, spec, s, Ok(channel)).0);
            && (s'.net.world == clubs || Admitted(srv, spec, clubs, s'.net.world, channel))
            && (s'.meta.externalName == s.meta.externalName ||
                  (&& Admitted(srv, spec, clubs, s'.net.world, channel)
                   && s'.meta.externalName == FormatMember(channel, SpecUser(srv, spec).value)))
  {
    assert "already_in_channel" in {"already_in_channel"};
    ResolutionAnswers(srv, faults, spec, s.net);
    hide FormatMember, ResolvedUser, SpecUser, Invited, Admitted, HasCode;
    if ResolvedUser(srv, faults, spec, s.net).1.Ok? { InviteOutcome(srv, spec, s.net.world, channel); }
  }

  lemma ResolutionAnswers(srv: Server, faults: Faults, spec: Spec, net: Net<Clubs>)
    ensures var (net', user) := ResolvedUser(srv, faults, spec, net);
            net'.world == net.world && (user.Ok? ==> SpecUser(srv, spec) == Some(user.value))
  {
  }

  lemma InviteOutcome(srv: Server, spec: Spec, clubs: Clubs, channel: string)
    requires SpecUser(srv, spec).Some?
    ensures var (clubs', r) := Invited(clubs, channel, SpecUser(srv, spec).value);
            && (clubs' == clubs || Admitted(srv, spec, clubs, clubs', channel))
            && (r.Ok? || HasCode(r.error, "already_in_channel") ==> Admitted(srv, spec, clubs, clubs', channel))
  {
    hide SpecUser;
  }

  /** Where the membership is not found yet, an admission changes nothing about what can be. */
  lemma AdmissionKeepsFate(srv: Server, spec: Spec, s: State, s': State, channel: string)
    requires !NamesMember(s.net.world, s.meta.externalName) && !Blocked(s.net.world, s.meta.externalName)
    requires Admitted(srv, spec, s.net.world, s'.net.world, channel)
    requires s'.meta.externalName in {s.meta.externalName, FormatMember(channel, SpecUser(srv, spec).value)}
    ensures CanExist(srv, spec, s', channel) <==> CanExist(srv, spec, s, channel)
  {
    var user := SpecUser(srv, spec).value;
    var name, made := s'.meta.externalName, FormatMember(channel, user);
    MemberRoundTripIff(channel, user);
    NoCutIff(made, '/');
    assert made[|channel|] == '/';
    if Cut(made, '/').Some? {
      CutIff(made, '/', Cut(made, '/').value.0, Cut(made, '/').value.1);
      assert '/' in channel ==> Cut(made, '/').value.0 != channel;
    }
    if Cut(name, '/').Some? {
      CutIff(name, '/', Cut(name, '/').value.0, Cut(name, '/').value.1);
    }
    hide Cut, FormatMember, SpecUser, IsMember, Joinable;
  }

  /** No turn under faults changes whether the membership can be found. */
  lemma FaultyTurnKeepsFate(srv: Server, faults: Faults, spec: Spec, s: State, channel: string, stored: bool)
    requires FaultsSpare(faults, {"already_in_channel"})
    ensures CanExist(srv, spec, FaultyTurn(srv, faults, spec, s, channel, stored), channel) <==>
              CanExist(srv, spec, s, channel)
  {
    var s' := FaultyTurn(srv, faults, spec, s, channel, stored);
    var (seen, o) := Observed(faults, s);
    AnsweredObserve(faults, s);
    FaultyCreate(srv, faults, spec, seen, channel);
    hide Observed, AfterCreate, Admitted, NamesMember, Blocked, FoundOnceNamed, Joinable, SpecUser, FaultsSpare;
    if o.Ok? && !o.value.present && s'.net.world != s.net.world {
      AdmissionKeepsFate(srv, spec, s, s', channel);
    } else if s'.meta.externalName != s.meta.externalName {
      AdmissionKeepsFate(srv, spec, s, s', channel);
    }
  }

  lemma {:induction false} FaultyRunKeepsFate(srv: Server, faults: Faults, spec: Spec, s: State, channel: string,
        stored: seq<bool>)
    requires FaultsSpare(faults, {"already_in_channel"})
    ensures CanExist(srv, spec, FaultyRun(srv, faults, spec, s, channel, stored), channel) <==>
              CanExist(srv, spec, s, channel)
    decreases |stored|
  {
    hide FaultyTurn, CanExist, FaultsSpare;
    if stored != [] {
      var n := |stored| - 1;
      FaultyRunKeepsFate(srv, faults, spec, s, channel, stored[..n]);
      FaultyTurnKeepsFate(srv, faults, spec, FaultyRun(srv, faults, spec, s, channel, stored[..n]), channel, stored[n]);
    }
  }

  /** Lost responses and lost names never decide: after any finite run under faults, fault-free turns find the
      membership if and only if they could have before the run. */
  lemma EventuallyPresentIff(srv: Server, faults: Faults, calm: Faults, spec: Spec, s: State, channel: string,
        stored: seq<bool>)
    requires FaultsSpare(faults, {"already_in_channel"}) && Calm(calm)
    ensures var s' := FaultyRun(srv, faults, spec, s, channel, stored);
            (exists n: nat :: PresentAfter(srv, calm, spec, s', channel, n)) <==> CanExist(srv, spec, s, channel)
  {
    FaultyRunKeepsFate(srv, faults, spec, s, channel, stored);
    PresenceReachableIff(srv, calm, spec, FaultyRun(srv, faults, spec, s, channel, stored), channel);
    hide FaultyRun, CanExist, PresentAfter, FaultsSpare;
  }

  // ---------- Deletion by the driver ----------

  /** Fault-free turns of a resource being deleted: observe, then delete if present. */
  ghost function DeletionRun(srv: Server, faults: Faults, s: State, n: nat): State {
    if n == 0 then s
    else
      var (seen, o) := Observed(faults, DeletionRun(srv, faults, s, n - 1));
      if o.Ok? && o.value.present then AfterDelete(srv, faults, seen).0 else seen
  }

  /** The channel of the external name is archived and lets no member go. */
  predicate Kept(srv: Server, s: State) {
    && NamesMember(s.net.world, s.meta.externalName) && srv.archiveIsFinal
    && s.net.world[Cut(s.meta.externalName, '/').value.0].archived
  }

  lemma {:induction false} DeletionBlocked(srv: Server, faults: Faults, s: State, n: nat)
    requires Calm(faults) && (Blocked(s.net.world, s.meta.externalName) || Kept(srv, s))
    ensures var s' := DeletionRun(srv, faults, s, n);
            && s'.net.world == s.net.world && s'.meta.externalName == s.meta.externalName
            && Observed(faults, s').1 != Ok(MISSING)
    decreases n
  {
    hide Observed, AfterDelete, Cut;
    if n > 0 {
      var before := DeletionRun(srv, faults, s, n - 1);
      DeletionBlocked(srv, faults, s, n - 1);
      var (seen, o) := Observed(faults, before);
      CalmObserve(faults, before);
      if o.Ok? {
        var parts := Cut(s.meta.externalName, '/').value;
        DeleteThenGone(srv, faults, seen, parts.0, parts.1);
      }
    }
    CalmObserve(faults, DeletionRun(srv, faults, s, n));
  }

  /** Deletion, exactly: fault-free turns ever report the membership missing, so that the driver can finish, if
      and only if the external name does not tie the resource to a channel that is gone, or to a member of
      an archived channel that lets no one go. */
  lemma DeletionFinishesIff(srv: Server, faults: Faults, s: State)
    requires Calm(faults)
    ensures (exists n: nat :: Observed(faults, DeletionRun(srv, faults, s, n)).1 == Ok(MISSING)) <==>
              !Blocked(s.net.world, s.meta.externalName) && !Kept(srv, s)
  {
    CalmObserve(faults, s);
    assert DeletionRun(srv, faults, s, 0) == s;
    if Blocked(s.net.world, s.meta.externalName) || Kept(srv, s) {
      forall n: nat ensures Observed(faults, DeletionRun(srv, faults, s, n)).1 != Ok(MISSING) {
        DeletionBlocked(srv, faults, s, n);
      }
    } else if NamesMember(s.net.world, s.meta.externalName) {
      var seen := Observed(faults, s).0;
      var parts := Cut(s.meta.externalName, '/').value;
      DeleteThenGone(srv, faults, seen, parts.0, parts.1);
      assert DeletionRun(srv, faults, s, 1) == AfterDelete(srv, faults, seen).0;
      assert Observed(faults, DeletionRun(srv, faults, s, 1)).1 == Ok(MISSING);
    } else {
      assert Observed(faults, DeletionRun(srv, faults, s, 0)).1 == Ok(MISSING);
    }
    hide Observed, AfterDelete, Cut;
  }
}
