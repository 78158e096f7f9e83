/**
 The UserGroupMembers controller: emails are resolved to user IDs, and a group's whole membership is
 compared with and replaced by the resolved list. Slack's side is an assumption: a group's membership is
 a set, recorded from a comma-separated list, and an empty list means no members.
 */
module UserGroupMembers {
  import opened Outcomes
  import opened Errors
  import opened Runtime
  import opened StringSets
  import opened Joins

  // ---------- Slack's side ----------

  type Groups = map<string, seq<string>>

  /** `directory` answers an email lookup with a user ID, with no user, or with an error; `record` is
      the membership list that Slack keeps for the text it is sent. */
  datatype Server = Server(directory: string -> Result<Option<string>, Error>, record: string -> seq<string>)

  ghost predicate RecordsAsSet(srv: Server) {
    forall users :: NoDuplicates(srv.record(users))
      && Elements(srv.record(users)) == if users == "" then {} else Elements(Split(users))
  }

  ghost predicate CommaFreeDirectory(srv: Server) {
    forall email :: srv.directory(email).Ok? && srv.directory(email).value.Some? ==>
      CommaFree(srv.directory(email).value.value)
  }

  function Listed(groups: Groups, group: string): (Groups, Result<seq<string>, Error>) {
    (groups, if group in groups then Ok(groups[group]) else Err(Rejection("no_such_subteam")))
  }

  function Replaced(srv: Server, groups: Groups, group: string, users: string): (Groups, Result<(), Error>) {
    if group in groups then (groups[group := srv.record(users)], Ok(()))
    else (groups, Err(Rejection("no_such_subteam")))
  }

  class GroupClient {
    const srv: Server
    const faults: Faults
    var net: Net<Groups>

    constructor (srv: Server, faults: Faults, groups: Groups)
      ensures this.srv == srv && this.faults == faults && net == Net(groups, 0)
    {
      this.srv, this.faults, net := srv, faults, Net(groups, 0);
    }

    method LookupUserByEmail(email: string) returns (r: Result<Option<string>, Error>)
      modifies this
      ensures (net, r) == Transit(faults, old(net), (old(net.world), srv.directory(email)))
    {
      var (after, answer) := Transit(faults, net, (net.world, srv.directory(email)));
      net, r := after, answer;
    }

    method ListUserGroupMembers(group: string) returns (r: Result<seq<string>, Error>)
      modifies this
      ensures (net, r) == Transit(faults, old(net), Listed(old(net.world), group))
    {
      var (after, answer) := Transit(faults, net, Listed(net.world, group));
      net, r := after, answer;
    }

    method UpdateUserGroupMembers(group: string, userIDs: seq<string>) returns (r: Result<(), Error>)
      modifies this
      ensures (net, r) == Transit(faults, old(net), Replaced(srv, old(net.world), group, Join(userIDs, ",")))
    {
      var users := JoinStrings(userIDs, ",");
      var (after, answer) := Transit(faults, net, Replaced(srv, net.world, group, users));
      net, r := after, answer;
    }
  }

  // ---------- Resolving emails ----------

  datatype Verdict = Resolved(id: string) | Unresolvable | Abort(error: Error)

  function VerdictOf(r: Result<Option<string>, Error>): Verdict {
    match r
    case Err(e) =>
      if AssertSlackError(e).Some? && AssertSlackError(e).value.code == "users_not_found" then Unresolvable
      else Abort(e)
    case Ok(user) => if user.Some? && user.value != "" then Resolved(user.value) else Unresolvable
  }

  /** The verdict on an email when its lookup is call number `call`. */
  function VerdictAt(srv: Server, faults: Faults, call: nat, email: string): Verdict {
    VerdictOf(Transit(faults, Net((), call), ((), srv.directory(email))).1)
  }

  /** The verdicts on a list of emails looked up one after the other from call number `call`. */
  ghost function Verdicts(srv: Server, faults: Faults, call: nat, emails: seq<string>): (vs: seq<Verdict>)
    ensures |vs| == |emails|
  {
    seq(|emails|, i requires 0 <= i < |emails| => VerdictAt(srv, faults, call + i, emails[i]))
  }

  /** How many lookups come before the first that aborts. */
  function UntilAbort(vs: seq<Verdict>): (k: nat)
    ensures k <= |vs|
    ensures forall i :: 0 <= i < k ==> !vs[i].Abort?
    ensures k < |vs| ==> vs[k].Abort?
  {
    if vs == [] || vs[0].Abort? then 0 else 1 + UntilAbort(vs[1..])
  }

  function ResolvedIDs(vs: seq<Verdict>): seq<string> {
    if vs == [] then []
    else ResolvedIDs(vs[..|vs| - 1]) + if vs[|vs| - 1].Resolved? then [vs[|vs| - 1].id] else []
  }

  function UnresolvedEmails(vs: seq<Verdict>, emails: seq<string>): seq<string>
    requires |vs| == |emails|
  {
    if vs == [] then []
    else
      UnresolvedEmails(vs[..|vs| - 1], emails[..|vs| - 1]) +
      if vs[|vs| - 1].Unresolvable? then [emails[|vs| - 1]] else []
  }

  lemma TakeNone(vs: seq<Verdict>, emails: seq<string>)
    requires |vs| == |emails|
    ensures ResolvedIDs(vs[..0]) == [] && UnresolvedEmails(vs[..0], emails[..0]) == []
    ensures vs[..|emails|] == vs && emails[..|emails|] == emails
  {
  }

  lemma TakeOneMore(vs: seq<Verdict>, emails: seq<string>, i: nat)
    requires i < |vs| == |emails|
    ensures ResolvedIDs(vs[..i + 1]) == ResolvedIDs(vs[..i]) + if vs[i].Resolved? then [vs[i].id] else []
    ensures UnresolvedEmails(vs[..i + 1], emails[..i + 1])
            == UnresolvedEmails(vs[..i], emails[..i]) + if vs[i].Unresolvable? then [emails[i]] else []
  {
    assert vs[..i + 1][..i] == vs[..i] && emails[..i + 1][..i] == emails[..i];
  }

  datatype Resolution = Resolution(ids: seq<string>, unresolvable: seq<string>)

  /** The outcome of resolving, and the number of lookups made. */
  ghost function ResolutionOf(vs: seq<Verdict>, emails: seq<string>): (Result<Resolution, Error>, nat)
    requires |vs| == |emails|
  {
    var k := UntilAbort(vs);
    if k < |vs| then (Err(vs[k].error), k + 1)
    else (Ok(Resolution(ResolvedIDs(vs), UnresolvedEmails(vs, emails))), k)
  }

  /** Lookups made are exactly those up to the first aborting one; an abort returns neither list. */
  method ResolveEmails(client: GroupClient, emails: seq<string>) returns (r: Result<Resolution, Error>)
    modifies client
    ensures var vs := Verdicts(client.srv, client.faults, old(client.net.calls), emails);
            (r, client.net.calls - old(client.net.calls)) == ResolutionOf(vs, emails)
    ensures client.net.world == old(client.net.world)
  {
    ghost var vs := Verdicts(client.srv, client.faults, client.net.calls, emails);
    ghost var start := client.net;
    var resolved, unresolvable: seq<string> := [], [];
    TakeNone(vs, emails);
    hide Verdicts, ResolvedIDs, UnresolvedEmails, UntilAbort;
    for i := 0 to |emails|
      invariant client.net == Net(start.world, start.calls + i)
      invariant i <= UntilAbort(vs)
      invariant resolved == ResolvedIDs(vs[..i]) && unresolvable == UnresolvedEmails(vs[..i], emails[..i])
    {
      TakeOneMore(vs, emails, i);
      LookupGivesVerdict(client.srv, client.faults, start, emails, i);
      var user := client.LookupUserByEmail(emails[i]);
      if user.Err? {
        var slackError := AssertSlackError(user.error);
        if slackError.Some? && slackError.value.code == "users_not_found" {
          unresolvable := unresolvable + [emails[i]];
          continue;
        }
        return Err(user.error);
      }
      if user.value.Some? && user.value.value != "" {
        resolved := resolved + [user.value.value];
      } else {
        unresolvable := unresolvable + [emails[i]];
      }
    }
    return Ok(Resolution(resolved, unresolvable));
  }

  lemma LookupGivesVerdict(srv: Server, faults: Faults, net: Net<Groups>, emails: seq<string>, i: nat)
    requires i < |emails|
    ensures Verdicts(srv, faults, net.calls, emails)[i]
            == VerdictOf(Transit(faults, Net(net.world, net.calls + i), (net.world, srv.directory(emails[i]))).1)
  {
  }

  /** Positions of the verdicts of one kind, in order. */
  ghost function Positions(vs: seq<Verdict>, resolved: bool): seq<nat> {
    if vs == [] then []
    else
      var last := vs[|vs| - 1];
      Positions(vs[..|vs| - 1], resolved) +
      if (resolved && last.Resolved?) || (!resolved && last.Unresolvable?) then [|vs| - 1] else []
  }

  ghost predicate Increasing(p: seq<nat>, bound: nat) {
    (forall j :: 0 <= j < |p| ==> p[j] < bound) && forall i, j :: 0 <= i < j < |p| ==> p[i] < p[j]
  }

  lemma {:induction false} PositionsIncrease(vs: seq<Verdict>, resolved: bool)
    ensures Increasing(Positions(vs, resolved), |vs|)
    decreases |vs|
  {
    if vs != [] { PositionsIncrease(vs[..|vs| - 1], resolved); }
  }

  lemma {:induction false} ResolvedAtPositions(vs: seq<Verdict>)
    ensures var p, ids := Positions(vs, true), ResolvedIDs(vs);
            |p| == |ids| && forall j :: 0 <= j < |p| ==> p[j] < |vs| && vs[p[j]] == Resolved(ids[j])
    decreases |vs|
  {
    if vs != [] { ResolvedAtPositions(vs[..|vs| - 1]); }
  }

  lemma {:induction false} UnresolvedAtPositions(vs: seq<Verdict>, emails: seq<string>)
    requires |vs| == |emails|
    ensures var q, rest := Positions(vs, false), UnresolvedEmails(vs, emails);
            && |q| == |rest|
            && forall j :: 0 <= j < |q| ==> q[j] < |vs| && vs[q[j]].Unresolvable? && emails[q[j]] == rest[j]
    decreases |vs|
  {
    if vs != [] { UnresolvedAtPositions(vs[..|vs| - 1], emails[..|vs| - 1]); }
  }

  lemma {:induction false} PositionsCover(vs: seq<Verdict>)
    requires forall k :: 0 <= k < |vs| ==> !vs[k].Abort?
    ensures |Positions(vs, true)| + |Positions(vs, false)| == |vs|
    decreases |vs|
  {
    if vs != [] { PositionsCover(vs[..|vs| - 1]); }
  }

  /** Resolution is an order-preserving partition: the IDs and the unresolvable emails are what stands at
      two increasing lists of positions that together have one entry for every email. */
  lemma ResolutionPartitions(vs: seq<Verdict>, emails: seq<string>)
    requires |vs| == |emails| && forall k :: 0 <= k < |vs| ==> !vs[k].Abort?
    ensures var p, q := Positions(vs, true), Positions(vs, false);
            var ids, rest := ResolvedIDs(vs), UnresolvedEmails(vs, emails);
            && |p| == |ids| && |q| == |rest| && |ids| + |rest| == |emails|
            && Increasing(p, |emails|) && Increasing(q, |emails|)
            && (forall j :: 0 <= j < |p| ==> vs[p[j]] == Resolved(ids[j]))
            && (forall j :: 0 <= j < |q| ==> vs[q[j]].Unresolvable? && emails[q[j]] == rest[j])
  {
    PositionsIncrease(vs, true);
    PositionsIncrease(vs, false);
    ResolvedAtPositions(vs);
    UnresolvedAtPositions(vs, emails);
    PositionsCover(vs);
    hide Positions, ResolvedIDs, UnresolvedEmails;
  }

  // ---------- The controller ----------

  datatype Spec = Spec(userEmails: seq<string>)

  datatype Status = Status(resolvedUserIDs: seq<string>, memberCount: nat)

  datatype State = State(meta: Meta<Status>, net: Net<Groups>)

  function UserNotFound(emails: seq<string>): Condition {
    Condition(false, "UserNotFound", "cannot resolve email(s): " + Join(emails, ", "))
  }

  function Report(meta: Meta<Status>, unresolvable: seq<string>): Meta<Status> {
    if unresolvable == [] then meta else meta.With(Synced, UserNotFound(unresolvable))
  }

  /** The condition's message names every email that could not be resolved. */
  lemma ReportMentions(emails: seq<string>, k: nat) returns (at: nat)
    requires k < |emails|
    ensures var message := UserNotFound(emails).message;
            at + |emails[k]| <= |message| && message[at..at + |emails[k]|] == emails[k]
  {
    var inner := JoinMentions(emails, ", ", k);
    var prefix := "cannot resolve email(s): ";
    at := |prefix| + inner;
    var message := prefix + Join(emails, ", ");
    assert message[at..at + |emails[k]|] == Join(emails, ", ")[inner..inner + |emails[k]|];
  }

  ghost function Resolving(srv: Server, faults: Faults, net: Net<Groups>,
        emails: seq<string>): (Net<Groups>, Result<Resolution, Error>)
  {
    var (r, made) := ResolutionOf(Verdicts(srv, faults, net.calls, emails), emails);
    (net.(calls := net.calls + made), r)
  }

  ghost function Observed(srv: Server, faults: Faults, spec: Spec, s: State): (State, Result<Observation, Error>) {
    if s.meta.externalName == "" then (s, Ok(MISSING))
    else
      var (net, current) := Transit(faults, s.net, Listed(s.net.world, s.meta.externalName));
      if current.Err? then (s.(net := net), Err(Wrapped("cannot list user group members", current.error)))
      else
        var (net', resolution) := Resolving(srv, faults, net, spec.userEmails);
        if resolution.Err? then (s.(net := net'), Err(Wrapped("cannot resolve user emails", resolution.error)))
        else
          var Resolution(ids, unresolvable) := resolution.value;
          var upToDate := multiset(ids) == multiset(current.value);
          var meta := Report(s.meta, unresolvable).(atProvider := Status(current.value, |current.value|));
          (State(if upToDate && unresolvable == [] then meta.With(Ready, AVAILABLE) else meta, net'),
           Ok(Observation(true, upToDate)))
  }

  /** Resolve the emails and, if any resolved, replace the group's membership. */
  ghost function Replacing(srv: Server, faults: Faults, spec: Spec, s: State, group: string): (State, Option<Error>) {
    var (net, resolution) := Resolving(srv, faults, s.net, spec.userEmails);
    if resolution.Err? then (s.(net := net), Some(Wrapped("cannot resolve user emails", resolution.error)))
    else
      var Resolution(ids, unresolvable) := resolution.value;
      var meta := Report(s.meta, unresolvable);
      if ids == [] then (State(meta, net), None)
      else
        var (net', r) := Transit(faults, net, Replaced(srv, net.world, group, Join(ids, ",")));
        (State(meta, net'), if r.Err? then Some(Wrapped("cannot update user group members", r.error)) else None)
  }

  ghost function AfterCreate(srv: Server, faults: Faults, spec: Spec, s: State, group: Result<string,
        Error>): (State, Option<Error>)
  {
    if group.Err? then (s, Some(Wrapped("cannot resolve user group ID", group.error)))
    else Replacing(srv, faults, spec, s.(meta := s.meta.(externalName := group.value)), group.value)
  }

  ghost function AfterUpdate(srv: Server, faults: Faults, spec: Spec, s: State): (State, Option<Error>) {
    Replacing(srv, faults, spec, s, s.meta.externalName)
  }

  ghost function AfterDelete(srv: Server, faults: Faults, s: State): (State, Option<Error>) {
    if s.meta.externalName == "" then (s, None)
    else
      var (net, r) := Transit(faults, s.net, Replaced(srv, s.net.world, s.meta.externalName, ""));
      (s.(net := net), if r.Err? then Some(Wrapped("cannot update user group members", r.error)) else None)
  }

  class External {
    const client: GroupClient

    constructor (client: GroupClient)
      ensures this.client == client
    {
      this.client := client;
    }

    function View(cr: Managed<Spec, Status>): State
      reads cr, client
    {
      State(cr.View(), client.net)
    }

    method Slice(s: seq<string>) returns (a: array<string>)
      ensures fresh(a) && a[..] == s
    {
      a := new string[|s|](i requires 0 <= i < |s| => s[i]);
    }

    method Observe(cr: Managed<Spec, Status>) returns (r: Result<Observation, Error>)
      modifies cr, client
      ensures (View(cr), r) == Observed(client.srv, client.faults, cr.spec, old(View(cr)))
    {
      hide ResolutionOf, Verdicts, Join, Listed;
      var externalName := cr.externalName;
      if externalName == "" {
        return Ok(MISSING);
      }
      var current := client.ListUserGroupMembers(externalName);
      if current.Err? {
        return Err(Wrapped("cannot list user group members", current.error));
      }
      var resolution := ResolveEmails(client, cr.spec.userEmails);
      if resolution.Err? {
        return Err(Wrapped("cannot resolve user emails", resolution.error));
      }
      var Resolution(resolvedIDs, unresolvable) := resolution.value;
      if |unresolvable| > 0 {
        var emails := JoinStrings(unresolvable, ", ");
        cr.SetCondition(Synced, Condition(false, "UserNotFound", "cannot resolve email(s): " + emails));
      }
      cr.atProvider := Status(current.value, |current.value|);
      var desired := Slice(resolvedIDs);
      var members := Slice(current.value);
      var upToDate := SetsEqual(desired, members);
      if upToDate && |unresolvable| == 0 {
        cr.SetCondition(Ready, AVAILABLE);
      }
      return Ok(Observation(true, upToDate));
    }

    method Create(cr: Managed<Spec, Status>, group: Result<string, Error>) returns (r: Option<Error>)
      modifies cr, client
      ensures (View(cr), r) == AfterCreate(client.srv, client.faults, cr.spec, old(View(cr)), group)
    {
      hide ResolutionOf, Verdicts, Replaced;
      if group.Err? {
        return Some(Wrapped("cannot resolve user group ID", group.error));
      }
      cr.externalName := group.value;
      var resolution := ResolveEmails(client, cr.spec.userEmails);
      if resolution.Err? {
        return Some(Wrapped("cannot resolve user emails", resolution.error));
      }
      var Resolution(resolvedIDs, unresolvable) := resolution.value;
      if |unresolvable| > 0 {
        var emails := JoinStrings(unresolvable, ", ");
        cr.SetCondition(Synced, Condition(false, "UserNotFound", "cannot resolve email(s): " + emails));
      }
      if |resolvedIDs| > 0 {
        var w := client.UpdateUserGroupMembers(group.value, resolvedIDs);
        if w.Err? {
          return Some(Wrapped("cannot update user group members", w.error));
        }
      }
      return None;
    }

    method Update(cr: Managed<Spec, Status>) returns (r: Option<Error>)
      modifies cr, client
      ensures (View(cr), r) == AfterUpdate(client.srv, client.faults, cr.spec, old(View(cr)))
    {
      hide ResolutionOf, Verdicts, Replaced;
      var externalName := cr.externalName;
      var resolution := ResolveEmails(client, cr.spec.userEmails);
      if resolution.Err? {
        return Some(Wrapped("cannot resolve user emails", resolution.error));
      }
      var Resolution(resolvedIDs, unresolvable) := resolution.value;
      if |unresolvable| > 0 {
        var emails := JoinStrings(unresolvable, ", ");
        cr.SetCondition(Synced, Condition(false, "UserNotFound", "cannot resolve email(s): " + emails));
      }
      if |resolvedIDs| > 0 {
        var w := client.UpdateUserGroupMembers(externalName, resolvedIDs);
        if w.Err? {
          return Some(Wrapped("cannot update user group members", w.error));
        }
      }
      return None;
    }

    method Delete(cr: Managed<Spec, Status>) returns (r: Option<Error>)
      modifies cr, client
      ensures (View(cr), r) == AfterDelete(client.srv, client.faults, old(View(cr)))
    {
      hide Replaced;
      var externalName := cr.externalName;
      if externalName == "" {
        return None;
      }
      var w := client.UpdateUserGroupMembers(externalName, []);
      if w.Err? {
        return Some(Wrapped("cannot update user group members", w.error));
      }
      return None;
    }
  }

  /** What an Observe that succeeds leaves behind, under any faults: the status is the membership just
      listed; unresolvable emails are reported; and the resource is marked available exactly when the
      lists agree and every email resolved. */
  lemma ObserveReports(srv: Server, faults: Faults, spec: Spec, s: State)
    requires s.meta.externalName != "" && Observed(srv, faults, spec, s).1.Ok?
    ensures var (s', o) := Observed(srv, faults, spec, s);
            var vs := Verdicts(srv, faults, s.net.calls + 1, spec.userEmails);
            var rest := UnresolvedEmails(vs, spec.userEmails);
            && s.meta.externalName in s.net.world && s'.net.world == s.net.world && o.value.present
            && s'.meta.atProvider == Status(s.net.world[s.meta.externalName], |s.net.world[s.meta.externalName]|)
            && (rest != [] ==> s'.meta.conditions == s.meta.conditions[Synced := UserNotFound(rest)])
            && (rest == [] && o.value.upToDate ==> s'.meta.conditions == s.meta.conditions[Ready := AVAILABLE])
            && (rest == [] && !o.value.upToDate ==> s'.meta.conditions == s.meta.conditions)
  {
    hide Verdicts, ResolvedIDs, UnresolvedEmails, Join;
  }

  // ---------- What lookups mean, in terms of Slack's directory ----------

  /** The directory answers that there is no such user: with none, with a blank ID, or with the bare Slack error that
      says so. */
  predicate IsUnknown(srv: Server, email: string) {
    match srv.directory(email)
    case Ok(user) => user == None || user == Some("")
    case Err(e) => e.SlackError? && e.code == "users_not_found"
  }

  /** The directory answers with any other error. */
  predicate Breaks(srv: Server, email: string) {
    match srv.directory(email)
    case Ok(_) => false
    case Err(e) => !(e.SlackError? && e.code == "users_not_found")
  }

  /** The first email on which the directory breaks. */
  ghost predicate BreaksFirstAt(srv: Server, emails: seq<string>, k: nat) {
    k < |emails| && Breaks(srv, emails[k]) && forall i :: 0 <= i < k ==> !Breaks(srv, emails[i])
  }

  /** The known users among the emails, in order. */
  function UsersOf(srv: Server, emails: seq<string>): seq<string> {
    if emails == [] then []
    else
      var answer := srv.directory(emails[|emails| - 1]);
      UsersOf(srv, emails[..|emails| - 1]) +
      if answer.Ok? && answer.value.Some? && answer.value.value != "" then [answer.value.value] else []
  }

  /** The emails of unknown users, in order. */
  function UnknownOf(srv: Server, emails: seq<string>): seq<string> {
    if emails == [] then []
    else
      UnknownOf(srv, emails[..|emails| - 1]) +
      if IsUnknown(srv, emails[|emails| - 1]) then [emails[|emails| - 1]] else []
  }

  /** The verdict on an answered lookup, exactly; and on one that is not answered, which stops the resolution with its
      cause unless that is itself the bare Slack error of an unknown user. */
  lemma VerdictIff(srv: Server, faults: Faults, call: nat, email: string)
    ensures var (v, answer) := (VerdictAt(srv, faults, call, email), srv.directory(email));
            if faults(call).Deliver? then
              && (v.Unresolvable? <==>
                    || answer == Ok(None) || answer == Ok(Some(""))
                    || (answer.Err? && answer.error.SlackError? && answer.error.code == "users_not_found"))
              && (forall id :: v == Resolved(id) <==> id != "" && answer == Ok(Some(id)))
              && (v.Abort? ==> answer == Err(v.error))
            else
              if faults(call).cause.SlackError? && faults(call).cause.code == "users_not_found" then v.Unresolvable?
              else v == Abort(faults(call).cause)
  {
  }

  lemma {:induction false} CalmVerdictLists(srv: Server, faults: Faults, call: nat, emails: seq<string>,
        vs: seq<Verdict>)
    requires Calm(faults) && vs == Verdicts(srv, faults, call, emails)
    ensures ResolvedIDs(vs) == UsersOf(srv, emails) && UnresolvedEmails(vs, emails) == UnknownOf(srv, emails)
    decreases |emails|
  {
    if emails != [] {
      var n := |emails| - 1;
      VerdictsAre(srv, faults, call, emails, n);
      VerdictIff(srv, faults, call + n, emails[n]);
      var init := Verdicts(srv, faults, call, emails[..n]);
      assert vs[..n] == init;
      hide Verdicts, VerdictAt;
      CalmVerdictLists(srv, faults, call, emails[..n], init);
    }
  }

  lemma AbortIffBreaks(srv: Server, faults: Faults, call: nat, email: string)
    requires faults(call).Deliver?
    ensures var v := VerdictAt(srv, faults, call, email);
            && (v.Abort? <==> Breaks(srv, email)) && (v.Abort? ==> srv.directory(email) == Err(v.error))
  {
    VerdictIff(srv, faults, call, email);
    hide VerdictAt;
  }

  /** Resolution without faults, from the directory alone: it stops at the first email on which the directory breaks,
      with its error, after the lookups up to there; otherwise it finds exactly the known users and the unknown
      emails, each in order, with one lookup per email. */
  lemma CalmResolution(srv: Server, faults: Faults, call: nat, emails: seq<string>)
    requires Calm(faults)
    ensures var vs := Verdicts(srv, faults, call, emails);
            && (UntilAbort(vs) == |vs| <==> forall i :: 0 <= i < |emails| ==> !Breaks(srv, emails[i]))
            && ResolvedIDs(vs) == UsersOf(srv, emails)
            && (UntilAbort(vs) == |vs| ==>
                  ResolutionOf(vs, emails) == (Ok(Resolution(UsersOf(srv, emails), UnknownOf(srv, emails))), |emails|))
            && (forall k :: 0 <= k < |emails| && BreaksFirstAt(srv, emails, k) ==>
                  ResolutionOf(vs, emails) == (Err(srv.directory(emails[k]).error), k + 1))
  {
    hide Verdicts, VerdictAt, UsersOf, UnknownOf, Breaks, ResolvedIDs, UnresolvedEmails, UntilAbort;
    var vs := Verdicts(srv, faults, call, emails);
    forall i | 0 <= i < |emails|
      ensures vs[i].Abort? <==> Breaks(srv, emails[i])
      ensures vs[i].Abort? ==> srv.directory(emails[i]) == Err(vs[i].error)
    {
      VerdictsAre(srv, faults, call, emails, i);
      AbortIffBreaks(srv, faults, call + i, emails[i]);
    }
    CalmVerdictLists(srv, faults, call, emails, vs);
    forall k | 0 <= k < |emails| && BreaksFirstAt(srv, emails, k)
      ensures UntilAbort(vs) == k
    {
      var at := UntilAbort(vs);
      assert !(at < k) && !(k < at);
    }
  }

  /** The error of the first email on which the directory breaks. */
  function FirstBreak(srv: Server, emails: seq<string>): Option<Error> {
    if emails == [] then None
    else if Breaks(srv, emails[0]) then Some(srv.directory(emails[0]).error)
    else FirstBreak(srv, emails[1..])
  }

  lemma {:induction false} FirstBreakIsFirst(srv: Server, emails: seq<string>)
    ensures FirstBreak(srv, emails).None? <==> forall i :: 0 <= i < |emails| ==> !Breaks(srv, emails[i])
    ensures FirstBreak(srv, emails).Some? ==>
              exists k :: 0 <= k < |emails| && BreaksFirstAt(srv, emails, k)
                          && srv.directory(emails[k]) == Err(FirstBreak(srv, emails).value)
    decreases |emails|
  {
    if emails != [] && !Breaks(srv, emails[0]) {
      var rest := emails[1..];
      FirstBreakIsFirst(srv, rest);
      assert forall i :: 0 < i < |emails| ==> emails[i] == rest[i - 1];
      if FirstBreak(srv, rest).Some? {
        var k :| 0 <= k < |rest| && BreaksFirstAt(srv, rest, k)
                 && srv.directory(rest[k]) == Err(FirstBreak(srv, rest).value);
        assert BreaksFirstAt(srv, emails, k + 1);
        assert srv.directory(emails[k + 1]) == Err(FirstBreak(srv, emails).value);
      }
    } else if emails != [] {
      assert BreaksFirstAt(srv, emails, 0) && srv.directory(emails[0]) == Err(FirstBreak(srv, emails).value);
    }
  }

  lemma CalmAt(faults: Faults, call: nat)
    requires Calm(faults)
    ensures faults(call).Deliver?
  {
  }

  lemma CalmResolving(srv: Server, faults: Faults, net: Net<Groups>, emails: seq<string>)
    requires Calm(faults)
    ensures var (net', r) := Resolving(srv, faults, net, emails);
            && net'.world == net.world
            && r == if FirstBreak(srv, emails).Some? then Err(FirstBreak(srv, emails).value)
                    else Ok(Resolution(UsersOf(srv, emails), UnknownOf(srv, emails)))
  {
    CalmResolution(srv, faults, net.calls, emails);
    FirstBreakIsFirst(srv, emails);
    hide Verdicts, UsersOf, UnknownOf, Breaks, FirstBreak, ResolutionOf;
  }

  /** The resource after emails could not be resolved. */
  function Reported(meta: Meta<Status>, emails: seq<string>): Meta<Status> {
    if emails == [] then meta
    else
      var message := "cannot resolve email(s): " + Join(emails, ", ");
      meta.(conditions := meta.conditions[Synced := Condition(false, "UserNotFound", message)])
  }

  /** What a fault-free Observe of a named resource answers and records, from Slack's directory and lists alone. */
  lemma CalmObserveRecords(srv: Server, faults: Faults, spec: Spec, s: State)
    requires Calm(faults) && s.meta.externalName != ""
    ensures var (s', o) := Observed(srv, faults, spec, s);
            var (groups, group, emails) := (s.net.world, s.meta.externalName, spec.userEmails);
            if group !in groups then s'.meta == s.meta && o.Err? && HasCode(o.error, "no_such_subteam")
            else if FirstBreak(srv, emails).Some? then
              s'.meta == s.meta && o == Err(Wrapped("cannot resolve user emails", FirstBreak(srv, emails).value))
            else
              var (members, same) := (groups[group], multiset(UsersOf(srv, emails)) == multiset(groups[group]));
              var meta := Reported(s.meta, UnknownOf(srv, emails)).(atProvider := Status(members, |members|));
              && o == Ok(Observation(true, same))
              && s'.meta ==
                   if same && UnknownOf(srv, emails) == [] then
                     meta.(conditions := meta.conditions[Ready := Condition(true, "Available", "")])
                   else meta
  {
    hide Resolving, UsersOf, UnknownOf, FirstBreak, Join, Calm;
    CalmResolving(srv, faults, s.net.(calls := s.net.calls + 1), spec.userEmails);
    CalmAt(faults, s.net.calls);
  }

  /** What fault-free writes record: a lookup on which the directory breaks stops Update and Create with its error;
      otherwise the unknown emails are reported, and the write fails only if there is one to make and the group is
      unknown. Create names the group in any case, before the lookups. */
  lemma CalmWritesRecord(srv: Server, faults: Faults, spec: Spec, s: State, group: string)
    requires Calm(faults)
    ensures var (created, r) := AfterCreate(srv, faults, spec, s, Ok(group));
            var (updated, r') := AfterUpdate(srv, faults, spec, s);
            var (groups, emails, named) := (s.net.world, spec.userEmails, s.meta.(externalName := group));
            if FirstBreak(srv, emails).Some? then
              var failed := Some(Wrapped("cannot resolve user emails", FirstBreak(srv, emails).value));
              created.meta == named && r == failed && updated.meta == s.meta && r' == failed
            else
              && created.meta == Reported(named, UnknownOf(srv, emails))
              && updated.meta == Reported(s.meta, UnknownOf(srv, emails))
              && (r.Some? <==> UsersOf(srv, emails) != [] && group !in groups)
              && (r'.Some? <==> UsersOf(srv, emails) != [] && s.meta.externalName !in groups)
              && (r.Some? ==> HasCode(r.value, "no_such_subteam"))
              && (r'.Some? ==> HasCode(r'.value, "no_such_subteam"))
  {
    CalmResolving(srv, faults, s.net, spec.userEmails);
    hide Resolving, UsersOf, UnknownOf, FirstBreak, Join;
  }

  /** Under any faults: a listing, a resolution or a write that is not answered makes its operation fail with the
      cause inside; a write is made exactly when the resolution is answered and finds someone. */
  lemma UnansweredFails(srv: Server, faults: Faults, spec: Spec, s: State)
    requires s.meta.externalName != ""
    ensures var (o, r) := (Observed(srv, faults, spec, s).1, AfterUpdate(srv, faults, spec, s).1);
            var (deleted, r') := AfterDelete(srv, faults, s);
            var (net, resolution) := Resolving(srv, faults, s.net, spec.userEmails);
            && (!faults(s.net.calls).Deliver? ==>
                  && o.Err? && o.error.Wrapped? && o.error.inner == faults(s.net.calls).cause
                  && r'.Some? && r'.value.Wrapped? && r'.value.inner == faults(s.net.calls).cause)
            && deleted.meta == s.meta
            && (resolution.Err? ==> r.Some? && r.value.Wrapped? && r.value.inner == resolution.error)
            && (resolution.Ok? && resolution.value.ids == [] ==> r.None?)
            && (resolution.Ok? && resolution.value.ids != [] && !faults(net.calls).Deliver? ==>
                  r.Some? && r.value.Wrapped? && r.value.inner == faults(net.calls).cause)
  {
    hide Resolving, Join;
  }

  /** A reference to the group that does not resolve stops Create with that error before any lookup. */
  lemma UnresolvedGroupStops(srv: Server, faults: Faults, spec: Spec, s: State, e: Error)
    ensures AfterCreate(srv, faults, spec, s, Err(e)) == (s, Some(Wrapped("cannot resolve user group ID", e)))
  {
  }

  // ---------- Convergence ----------

  /** Under any faults an Update changes no other group, and the group's membership either stays as it was
      or becomes exactly what Slack records for the full list of IDs resolved in this call. */
  lemma UpdateIsAllOrNothing(srv: Server, faults: Faults, spec: Spec, s: State)
    ensures var (s', r) := AfterUpdate(srv, faults, spec, s);
            var ids := ResolvedIDs(Verdicts(srv, faults, s.net.calls, spec.userEmails));
            var group := s.meta.externalName;
            && s'.net.world.Keys == s.net.world.Keys
            && (forall g :: g in s.net.world && g != group ==> s'.net.world[g] == s.net.world[g])
            && (group in s.net.world ==>
                  s'.net.world[group] == s.net.world[group] || s'.net.world[group] == srv.record(Join(ids, ",")))
            && (r.None? && ids != [] ==> group in s.net.world && s'.net.world[group] == srv.record(Join(ids, ",")))
            && (ids == [] ==> s'.net.world == s.net.world)
  {
    hide Verdicts, ResolvedIDs, UnresolvedEmails, Join;
  }

  lemma CalmVerdicts(srv: Server, faults: Faults, call: nat, call': nat, emails: seq<string>)
    requires Calm(faults)
    ensures Verdicts(srv, faults, call, emails) == Verdicts(srv, faults, call', emails)
  {
  }

  lemma {:induction false} ResolvedIDsAreClean(srv: Server, faults: Faults, call: nat,
        emails: seq<string>, vs: seq<Verdict>)
    requires Calm(faults) && CommaFreeDirectory(srv)
    requires vs <= Verdicts(srv, faults, call, emails)
    ensures forall k :: 0 <= k < |ResolvedIDs(vs)| ==> ResolvedIDs(vs)[k] != "" && CommaFree(ResolvedIDs(vs)[k])
    decreases |vs|
  {
    if vs != [] {
      var n := |vs| - 1;
      ResolvedIDsAreClean(srv, faults, call, emails, vs[..n]);
      assert vs[n] == VerdictAt(srv, faults, call + n, emails[n]);
      assert vs[n].Resolved? ==> srv.directory(emails[n]) == Ok(Some(vs[n].id));
    }
  }

  lemma {:induction false} JoinNotBlank(ids: seq<string>)
    requires ids != [] && forall k :: 0 <= k < |ids| ==> ids[k] != ""
    ensures Join(ids, ",") != ""
  {
  }

  /** What Slack records for a joined list is that list as a set, so it compares equal to the list exactly
      when the list has no duplicates. */
  lemma RecordedEqualIff(srv: Server, ids: seq<string>)
    requires RecordsAsSet(srv) && ids != []
    requires forall k :: 0 <= k < |ids| ==> ids[k] != "" && CommaFree(ids[k])
    ensures multiset(ids) == multiset(srv.record(Join(ids, ","))) <==> NoDuplicates(ids)
  {
    var users := Join(ids, ",");
    JoinNotBlank(ids);
    SplitUndoesJoin(ids);
    assert NoDuplicates(srv.record(users)) && Elements(srv.record(users)) == Elements(ids);
    if multiset(ids) == multiset(srv.record(users)) {
      DuplicatesShow(ids, srv.record(users));
    }
    if NoDuplicates(ids) {
      SetEqualityWithoutDuplicates(ids, srv.record(users));
    }
  }

  /** Convergence, exactly: after a fault-free Update the next fault-free Observe is up to date if and only
      if the directory breaks on no email, knows no user under two of them, and either knows one or the group is
      already empty. The condition is on the directory and the group before the Update. */
  lemma UpdateConvergesIff(srv: Server, faults: Faults, spec: Spec, s: State)
    requires Calm(faults) && RecordsAsSet(srv) && CommaFreeDirectory(srv)
    requires s.meta.externalName != "" && s.meta.externalName in s.net.world
    ensures var users := UsersOf(srv, spec.userEmails);
            Observed(srv, faults, spec, AfterUpdate(srv, faults, spec, s).0).1 == Ok(Observation(true, true)) <==>
              && (forall i :: 0 <= i < |spec.userEmails| ==> !Breaks(srv, spec.userEmails[i]))
              && NoDuplicates(users) && (users != [] || s.net.world[s.meta.externalName] == [])
  {
    CalmResolution(srv, faults, s.net.calls, spec.userEmails);
    hide UsersOf, UnknownOf, Breaks;
    var vs := Verdicts(srv, faults, s.net.calls, spec.userEmails);
    var ids := ResolvedIDs(vs);
    var s' := AfterUpdate(srv, faults, spec, s).0;
    ResolvedIDsAreClean(srv, faults, s.net.calls, spec.userEmails, vs);
    if ids != [] { RecordedEqualIff(srv, ids); }
    hide Verdicts, ResolvedIDs, UnresolvedEmails, Join, RecordsAsSet, CommaFreeDirectory, NoDuplicates;
    var members := if ids == [] then s.net.world[s.meta.externalName] else srv.record(Join(ids, ","));
    CalmUpdateRecords(srv, faults, spec, s);
    CalmObserveCompares(srv, faults, spec, s', s.net.calls);
    EmptyEqualIff(ids, s.net.world[s.meta.externalName]);
    hide AfterUpdate, Observed, UntilAbort;
  }

  lemma CalmUpdateRecords(srv: Server, faults: Faults, spec: Spec, s: State)
    requires Calm(faults) && s.meta.externalName in s.net.world
    ensures var vs := Verdicts(srv, faults, s.net.calls, spec.userEmails);
            var (ids, group, s') := (ResolvedIDs(vs), s.meta.externalName, AfterUpdate(srv, faults, spec, s).0);
            && s'.meta.externalName == group && group in s'.net.world
            && (UntilAbort(vs) == |vs| && ids != [] ==> s'.net.world[group] == srv.record(Join(ids, ",")))
            && (ids == [] ==> s'.net.world[group] == s.net.world[group])
  {
    hide Verdicts, ResolvedIDs, UnresolvedEmails, Join;
  }

  lemma CalmObserveCompares(srv: Server, faults: Faults, spec: Spec, s: State, call: nat)
    requires Calm(faults) && s.meta.externalName != "" && s.meta.externalName in s.net.world
    ensures var vs := Verdicts(srv, faults, call, spec.userEmails);
            Observed(srv, faults, spec, s).1.Ok? <==> UntilAbort(vs) == |vs|
    ensures var vs := Verdicts(srv, faults, call, spec.userEmails);
            UntilAbort(vs) == |vs| ==>
              Observed(srv, faults, spec, s).1.value
              == Observation(true, multiset(ResolvedIDs(vs)) == multiset(s.net.world[s.meta.externalName]))
  {
    CalmVerdicts(srv, faults, s.net.calls + 1, call, spec.userEmails);
    hide Verdicts, ResolvedIDs, UnresolvedEmails, Join;
  }

  lemma EmptyEqualIff(a: seq<string>, b: seq<string>)
    ensures a == [] ==> (multiset(a) == multiset(b) <==> b == []) && NoDuplicates(a)
  {
    assert |multiset(b)| == |b|;
  }

  // ---------- Exactly when a fault-free run converges ----------

  /** One reconcile that is not deleting; `group` is what the reference to the group resolves to. */
  ghost function Reconcile(srv: Server, faults: Faults, spec: Spec, s: State, group: string): State {
    var (seen, o) := Observed(srv, faults, spec, s);
    if o.Err? then seen
    else if !o.value.present then AfterCreate(srv, faults, spec, seen, Ok(group)).0
    else if !o.value.upToDate then AfterUpdate(srv, faults, spec, seen).0
    else seen
  }

  ghost function CalmRun(srv: Server, faults: Faults, spec: Spec, s: State, group: string, n: nat): State {
    if n == 0 then s else Reconcile(srv, faults, spec, CalmRun(srv, faults, spec, s, group, n - 1), group)
  }

  ghost predicate ConvergedAfter(srv: Server, faults: Faults, spec: Spec, s: State, group: string, n: nat) {
    Observed(srv, faults, spec, CalmRun(srv, faults, spec, s, group, n)).1 == Ok(Observation(true, true))
  }

  /** The group a resource manages or is about to. */
  function GroupOf(s: State, group: string): string {
    if s.meta.externalName == "" then group else s.meta.externalName
  }

  /** The condition a caller can check before the run. */
  ghost predicate CanConverge(s: State, group: string, vs: seq<Verdict>) {
    && GroupOf(s, group) != "" && GroupOf(s, group) in s.net.world && UntilAbort(vs) == |vs|
    && (if s.meta.externalName != "" || ResolvedIDs(vs) == [] then
          || multiset(ResolvedIDs(vs)) == multiset(s.net.world[GroupOf(s, group)])
          || (ResolvedIDs(vs) != [] && NoDuplicates(ResolvedIDs(vs)))
        else NoDuplicates(ResolvedIDs(vs)))
  }

  /** What a fault-free Observe sees, given the verdicts, which are the same whenever they are asked for. */
  lemma CalmObserve(srv: Server, faults: Faults, spec: Spec, s: State, vs: seq<Verdict>)
    requires Calm(faults) && vs == Verdicts(srv, faults, 0, spec.userEmails)
    ensures var (seen, o) := Observed(srv, faults, spec, s);
            var name := s.meta.externalName;
            && seen.net.world == s.net.world && seen.meta.externalName == name
            && (o.Ok? <==> name == "" || (name in s.net.world && UntilAbort(vs) == |vs|))
            && (o.Ok? ==> (o.value.present <==> name != ""))
            && (o.Ok? && name != "" ==>
                  (o.value.upToDate <==> multiset(ResolvedIDs(vs)) == multiset(s.net.world[name])))
            && (o == Ok(Observation(true, true)) <==> o.Ok? && name != "" && o.value.upToDate)
  {
    if s.meta.externalName != "" && s.meta.externalName in s.net.world {
      CalmObserveCompares(srv, faults, spec, s, 0);
    }
    hide Verdicts, ResolvedIDs, UnresolvedEmails, Join;
  }

  /** What a fault-free replacement leaves: the group's own list changes only if some email resolves and none
      aborts. */
  lemma CalmReplaces(srv: Server, faults: Faults, spec: Spec, s: State, group: string, vs: seq<Verdict>)
    requires Calm(faults) && vs == Verdicts(srv, faults, 0, spec.userEmails)
    ensures var s' := Replacing(srv, faults, spec, s, group).0;
            && s'.meta.externalName == s.meta.externalName && s'.net.world.Keys == s.net.world.Keys
            && (group in s.net.world ==>
                  s'.net.world[group] ==
                    if UntilAbort(vs) == |vs| && ResolvedIDs(vs) != [] then srv.record(Join(ResolvedIDs(vs), ","))
                    else s.net.world[group])
  {
    CalmVerdicts(srv, faults, s.net.calls, 0, spec.userEmails);
    hide Verdicts, ResolvedIDs, UnresolvedEmails, Join;
  }

  /** One turn from where no observation is up to date. */
  lemma CalmTurn(srv: Server, faults: Faults, spec: Spec, s: State, group: string, vs: seq<Verdict>)
    requires Calm(faults) && vs == Verdicts(srv, faults, 0, spec.userEmails)
    requires Observed(srv, faults, spec, s).1 != Ok(Observation(true, true))
    ensures var s' := Reconcile(srv, faults, spec, s, group);
            var name := GroupOf(s, group);
            && GroupOf(s', group) == name && s'.net.world.Keys == s.net.world.Keys
            && (Observed(srv, faults, spec, s).1.Ok? ==> s'.meta.externalName == name)
            && (name in s.net.world ==>
                  s'.net.world[name] ==
                    if UntilAbort(vs) == |vs| && ResolvedIDs(vs) != [] then srv.record(Join(ResolvedIDs(vs), ","))
                    else s.net.world[name])
  {
    CalmObserve(srv, faults, spec, s, vs);
    var (seen, o) := Observed(srv, faults, spec, s);
    var named := seen.(meta := seen.meta.(externalName := group));
    CalmReplaces(srv, faults, spec, named, group, vs);
    CalmReplaces(srv, faults, spec, seen, s.meta.externalName, vs);
    hide Observed, Replacing, Verdicts, ResolvedIDs, Join, UntilAbort;
  }

  lemma CleanVerdicts(srv: Server, faults: Faults, spec: Spec, vs: seq<Verdict>)
    requires Calm(faults) && RecordsAsSet(srv) && CommaFreeDirectory(srv)
    requires vs == Verdicts(srv, faults, 0, spec.userEmails)
    ensures ResolvedIDs(vs) != [] ==>
              (multiset(ResolvedIDs(vs)) == multiset(srv.record(Join(ResolvedIDs(vs), ","))) <==>
                 NoDuplicates(ResolvedIDs(vs)))
  {
    ResolvedIDsAreClean(srv, faults, 0, spec.userEmails, vs);
    if ResolvedIDs(vs) != [] { RecordedEqualIff(srv, ResolvedIDs(vs)); }
    hide Verdicts, ResolvedIDs, Join, RecordsAsSet, NoDuplicates;
  }

  lemma HopelessTurn(srv: Server, faults: Faults, spec: Spec, s: State, group: string, vs: seq<Verdict>)
    requires Calm(faults) && RecordsAsSet(srv) && CommaFreeDirectory(srv)
    requires vs == Verdicts(srv, faults, 0, spec.userEmails) && !CanConverge(s, group, vs)
    ensures !CanConverge(Reconcile(srv, faults, spec, s, group), group, vs)
    ensures Observed(srv, faults, spec, s).1 != Ok(Observation(true, true))
  {
    CalmObserve(srv, faults, spec, s, vs);
    CalmTurn(srv, faults, spec, s, group, vs);
    CleanVerdicts(srv, faults, spec, vs);
    hide Observed, Reconcile, Verdicts, ResolvedIDs, Join, UntilAbort, RecordsAsSet, CommaFreeDirectory, NoDuplicates;
  }

  lemma {:induction false} HopelessForever(srv: Server, faults: Faults, spec: Spec, s: State, group: string,
        vs: seq<Verdict>, n: nat)
    requires Calm(faults) && RecordsAsSet(srv) && CommaFreeDirectory(srv)
    requires vs == Verdicts(srv, faults, 0, spec.userEmails) && !CanConverge(s, group, vs)
    ensures !CanConverge(CalmRun(srv, faults, spec, s, group, n), group, vs)
    ensures !ConvergedAfter(srv, faults, spec, s, group, n)
    decreases n
  {
    hide Observed, Reconcile, CanConverge, Verdicts, RecordsAsSet, CommaFreeDirectory;
    if n > 0 {
      HopelessForever(srv, faults, spec, s, group, vs, n - 1);
      HopelessTurn(srv, faults, spec, CalmRun(srv, faults, spec, s, group, n - 1), group, vs);
    }
    HopelessTurn(srv, faults, spec, CalmRun(srv, faults, spec, s, group, n), group, vs);
  }

  lemma ConvergesInOne(srv: Server, faults: Faults, spec: Spec, s: State, group: string, vs: seq<Verdict>)
    returns (n: nat)
    requires Calm(faults) && RecordsAsSet(srv) && CommaFreeDirectory(srv)
    requires vs == Verdicts(srv, faults, 0, spec.userEmails) && CanConverge(s, group, vs)
    ensures n <= 1 && ConvergedAfter(srv, faults, spec, s, group, n)
  {
    hide Observed, Reconcile, Verdicts, ResolvedIDs, Join, UntilAbort, RecordsAsSet, CommaFreeDirectory, NoDuplicates;
    CalmObserve(srv, faults, spec, s, vs);
    var s' := Reconcile(srv, faults, spec, s, group);
    assert CalmRun(srv, faults, spec, s, group, 0) == s;
    assert CalmRun(srv, faults, spec, s, group, 1) == s';
    if Observed(srv, faults, spec, s).1 == Ok(Observation(true, true)) {
      n := 0;
    } else {
      CalmTurn(srv, faults, spec, s, group, vs);
      CalmObserve(srv, faults, spec, s', vs);
      CleanVerdicts(srv, faults, spec, vs);
      n := 1;
    }
  }

  lemma VerdictsDecide(srv: Server, faults: Faults, spec: Spec, s: State, group: string)
    requires Calm(faults) && RecordsAsSet(srv) && CommaFreeDirectory(srv)
    ensures (exists n: nat :: ConvergedAfter(srv, faults, spec, s, group, n)) <==>
              CanConverge(s, group, Verdicts(srv, faults, 0, spec.userEmails))
  {
    var vs := Verdicts(srv, faults, 0, spec.userEmails);
    if CanConverge(s, group, vs) {
      var n := ConvergesInOne(srv, faults, spec, s, group, vs);
    }
    hide ConvergedAfter, CanConverge, Verdicts, RecordsAsSet, CommaFreeDirectory;
    if n: nat :| ConvergedAfter(srv, faults, spec, s, group, n) {
      if !CanConverge(s, group, vs) { HopelessForever(srv, faults, spec, s, group, vs, n); }
    }
  }

  /** Exact reachability of convergence, with an external name or before there is one: a fault-free run ever
      finds the membership up to date if and only if the group is known, the directory breaks on no email, and
      either it knows some user and none under two emails, or the listed members are the known users already.
      (Without an external name the list is first replaced if any user is known, so then only the former will
      do.) */
  lemma ConvergenceReachableIff(srv: Server, faults: Faults, spec: Spec, s: State, group: string)
    requires Calm(faults) && RecordsAsSet(srv) && CommaFreeDirectory(srv)
    ensures var (users, name) := (UsersOf(srv, spec.userEmails), GroupOf(s, group));
            (exists n: nat :: ConvergedAfter(srv, faults, spec, s, group, n)) <==>
              && name != "" && name in s.net.world
              && (forall i :: 0 <= i < |spec.userEmails| ==> !Breaks(srv, spec.userEmails[i]))
              && (|| (users != [] && NoDuplicates(users))
                  || ((s.meta.externalName != "" || users == []) && multiset(users) == multiset(s.net.world[name])))
  {
    CalmResolution(srv, faults, 0, spec.userEmails);
    VerdictsDecide(srv, faults, spec, s, group);
    EmptyEqualIff(UsersOf(srv, spec.userEmails), []);
    hide ConvergedAfter, Verdicts, RecordsAsSet, CommaFreeDirectory, UsersOf, UnknownOf, Breaks, ResolvedIDs,
         UnresolvedEmails, UntilAbort, GroupOf;
    if UsersOf(srv, spec.userEmails) == [] && GroupOf(s, group) in s.net.world {
      EmptyEqualIff([], s.net.world[GroupOf(s, group)]);
    }
  }

  // ---------- Runs under faults ----------

  /** One reconcile, after which the external name left in memory may or may not get stored. */
  ghost function FaultyTurn(srv: Server, faults: Faults, spec: Spec, s: State, group: string, stored: bool): State {
    var after := Reconcile(srv, faults, spec, s, group);
    if stored then after else after.(meta := after.meta.(externalName := s.meta.externalName))
  }

  ghost function FaultyRun(srv: Server, faults: Faults, spec: Spec, s: State, group: string, stored: seq<bool>): State {
    if stored == [] then s
    else
      var n := |stored| - 1;
      FaultyTurn(srv, faults, spec, FaultyRun(srv, faults, spec, s, group, stored[..n]), group, stored[n])
  }

  /** Under any faults that no one mistakes for Slack's `users_not_found`, lookups that all answer give the
      verdicts that they give without faults. */
  lemma AnsweredLookups(srv: Server, faults: Faults, calm: Faults, net: Net<Groups>, emails: seq<string>,
        vs: seq<Verdict>)
    requires FaultsSpare(faults, {"users_not_found"}) && Calm(calm) && vs == Verdicts(srv, calm, 0, emails)
    ensures var (net', r) := Resolving(srv, faults, net, emails);
            && net'.world == net.world
            && (r.Ok? ==> UntilAbort(vs) == |vs| && r.value.ids == ResolvedIDs(vs))
  {
    var us := Verdicts(srv, faults, net.calls, emails);
    hide Verdicts, VerdictAt, ResolvedIDs, UnresolvedEmails, UntilAbort;
    forall i | 0 <= i < |us| ensures us[i] == vs[i] || us[i].Abort? {
      VerdictsAre(srv, faults, net.calls, emails, i);
      VerdictsAre(srv, calm, 0, emails, i);
      VerdictUnderFaults(srv, faults, calm, net.calls + i, i, emails[i]);
    }
    if UntilAbort(us) == |us| { assert us == vs; }
  }

  lemma VerdictsAre(srv: Server, faults: Faults, call: nat, emails: seq<string>, i: nat)
    requires i < |emails|
    ensures Verdicts(srv, faults, call, emails)[i] == VerdictAt(srv, faults, call + i, emails[i])
  {
    hide VerdictAt;
  }

  lemma VerdictUnderFaults(srv: Server, faults: Faults, calm: Faults, call: nat, call': nat, email: string)
    requires FaultsSpare(faults, {"users_not_found"}) && Calm(calm)
    ensures VerdictAt(srv, faults, call, email) == VerdictAt(srv, calm, call', email)
            || VerdictAt(srv, faults, call, email).Abort?
  {
    assert "users_not_found" in {"users_not_found"};
  }

  /** The members of the resource's group, none if it is unknown. */
  function MembersOf(s: State, group: string): seq<string> {
    if GroupOf(s, group) in s.net.world then s.net.world[GroupOf(s, group)] else []
  }

  /** Where Slack's list has no duplicates, the condition for convergence is one on the emails, and on whether the
      list is empty. */
  lemma CanConvergeIff(s: State, group: string, vs: seq<Verdict>)
    requires NoDuplicates(MembersOf(s, group))
    ensures CanConverge(s, group, vs) <==>
              && GroupOf(s, group) != "" && GroupOf(s, group) in s.net.world && UntilAbort(vs) == |vs|
              && NoDuplicates(ResolvedIDs(vs)) && (ResolvedIDs(vs) != [] || MembersOf(s, group) == [])
  {
    var ids, members := ResolvedIDs(vs), MembersOf(s, group);
    EmptyEqualIff(ids, members);
    if multiset(ids) == multiset(members) { DuplicatesShow(ids, members); }
    hide ResolvedIDs, NoDuplicates, UntilAbort;
  }

  lemma DeliveredOrNot<W, R>(faults: Faults, net: Net<W>, outcome: (W, Result<R, Error>))
    ensures Transit(faults, net, outcome).0.world in {net.world, outcome.0}
  {
  }

  lemma ReportKeepsName(meta: Meta<Status>, resolution: Result<Resolution, Error>)
    ensures resolution.Ok? ==> Report(meta, resolution.value.unresolvable).externalName == meta.externalName
  {
    hide Join;
  }

  /** Whatever is lost, a replacement leaves the list as it was or as Slack records the full list of IDs. */
  lemma FaultyReplacing(srv: Server, faults: Faults, calm: Faults, spec: Spec, s: State, group: string,
        vs: seq<Verdict>)
    requires FaultsSpare(faults, {"users_not_found"}) && Calm(calm)
    requires vs == Verdicts(srv, calm, 0, spec.userEmails)
    ensures var (groups, s') := (s.net.world, Replacing(srv, faults, spec, s, group).0);
            && s'.meta.externalName == s.meta.externalName && s'.net.world.Keys == groups.Keys
            && (group in groups ==>
                  || s'.net.world[group] == groups[group]
                  || (UntilAbort(vs) == |vs| && ResolvedIDs(vs) != []
                      && s'.net.world[group] == srv.record(Join(ResolvedIDs(vs), ","))))
            && (group !in groups ==> s'.net.world == groups)
  {
    hide Resolving, Verdicts, ResolvedIDs, UntilAbort, Join, FaultsSpare, Calm, Report;
    AnsweredLookups(srv, faults, calm, s.net, spec.userEmails, vs);
    var (net, resolution) := Resolving(srv, faults, s.net, spec.userEmails);
    ReportKeepsName(s.meta, resolution);
    if resolution.Ok? && resolution.value.ids != [] {
      var users := Join(resolution.value.ids, ",");
      DeliveredOrNot(faults, net, Replaced(srv, net.world, group, users));
    }
  }

  /** What a turn under faults does to the group. */
  lemma FaultyTurnReplaces(srv: Server, faults: Faults, calm: Faults, spec: Spec, s: State, group: string, stored: bool,
        vs: seq<Verdict>)
    requires FaultsSpare(faults, {"users_not_found"}) && Calm(calm)
    requires vs == Verdicts(srv, calm, 0, spec.userEmails)
    ensures var s' := FaultyTurn(srv, faults, spec, s, group, stored);
            && GroupOf(s', group) == GroupOf(s, group) && s'.net.world.Keys == s.net.world.Keys
            && (|| MembersOf(s', group) == MembersOf(s, group)
                || (UntilAbort(vs) == |vs| && ResolvedIDs(vs) != []
                    && MembersOf(s', group) == srv.record(Join(ResolvedIDs(vs), ","))))
  {
    var (seen, o) := Observed(srv, faults, spec, s);
    FaultyObserve(srv, faults, spec, s);
    var named := seen.(meta := seen.meta.(externalName := group));
    FaultyReplacing(srv, faults, calm, spec, named, group, vs);
    FaultyReplacing(srv, faults, calm, spec, seen, s.meta.externalName, vs);
    hide Observed, Replacing, Verdicts, ResolvedIDs, UntilAbort, Join, FaultsSpare;
  }

  lemma FaultyObserve(srv: Server, faults: Faults, spec: Spec, s: State)
    ensures var (seen, o) := Observed(srv, faults, spec, s);
            && seen.net.world == s.net.world && seen.meta.externalName == s.meta.externalName
            && (o.Ok? ==> (o.value.present <==> s.meta.externalName != ""))
  {
    hide Verdicts, ResolvedIDs, UnresolvedEmails, Join;
  }

  lemma {:induction false} FaultyRunReplaces(srv: Server, faults: Faults, calm: Faults, spec: Spec, s: State,
        group: string, stored: seq<bool>, vs: seq<Verdict>)
    requires FaultsSpare(faults, {"users_not_found"}) && Calm(calm)
    requires vs == Verdicts(srv, calm, 0, spec.userEmails)
    ensures var s' := FaultyRun(srv, faults, spec, s, group, stored);
            && GroupOf(s', group) == GroupOf(s, group) && s'.net.world.Keys == s.net.world.Keys
            && (|| MembersOf(s', group) == MembersOf(s, group)
                || (UntilAbort(vs) == |vs| && ResolvedIDs(vs) != []
                    && MembersOf(s', group) == srv.record(Join(ResolvedIDs(vs), ","))))
    decreases |stored|
  {
    hide FaultyTurn, GroupOf, MembersOf, Verdicts, ResolvedIDs, UntilAbort, Join, FaultsSpare;
    if stored != [] {
      var n := |stored| - 1;
      FaultyRunReplaces(srv, faults, calm, spec, s, group, stored[..n], vs);
      var before := FaultyRun(srv, faults, spec, s, group, stored[..n]);
      FaultyTurnReplaces(srv, faults, calm, spec, before, group, stored[n], vs);
    }
  }

  /** Faults never decide: after any finite run under faults, which may have replaced the membership, set the
      external name or lost it again, fault-free turns bring the membership up to date if and only if the group
      is known, the directory breaks on no email and knows no user under two of them, and it knows one or the
      group had no members. */
  lemma EventuallyConvergesIff(srv: Server, faults: Faults, calm: Faults, spec: Spec, s: State, group: string,
        stored: seq<bool>)
    requires FaultsSpare(faults, {"users_not_found"}) && Calm(calm)
    requires RecordsAsSet(srv) && CommaFreeDirectory(srv) && NoDuplicates(MembersOf(s, group))
    ensures var (s', users) := (FaultyRun(srv, faults, spec, s, group, stored), UsersOf(srv, spec.userEmails));
            (exists n: nat :: ConvergedAfter(srv, calm, spec, s', group, n)) <==>
              && GroupOf(s, group) != "" && GroupOf(s, group) in s.net.world
              && (forall i :: 0 <= i < |spec.userEmails| ==> !Breaks(srv, spec.userEmails[i]))
              && NoDuplicates(users) && (users != [] || MembersOf(s, group) == [])
  {
    CalmResolution(srv, calm, 0, spec.userEmails);
    hide UsersOf, UnknownOf, Breaks;
    var (s', vs) := (FaultyRun(srv, faults, spec, s, group, stored), Verdicts(srv, calm, 0, spec.userEmails));
    FaultyRunReplaces(srv, faults, calm, spec, s, group, stored, vs);
    RecordHasNoDuplicates(srv, Join(ResolvedIDs(vs), ","));
    hide FaultyRun, Verdicts, ResolvedIDs, UntilAbort, Join, FaultsSpare, RecordsAsSet, CommaFreeDirectory;
    hide NoDuplicates;
    CanConvergeIff(s', group, vs);
    VerdictsDecide(srv, calm, spec, s', group);
    hide ConvergedAfter, GroupOf, CanConverge;
  }

  lemma RecordHasNoDuplicates(srv: Server, users: string)
    requires RecordsAsSet(srv)
    ensures NoDuplicates(srv.record(users))
  {
  }

  // ---------- A server of the assumed kind, and what does not converge on it ----------

  function Dedup(ss: seq<string>): seq<string> {
    if ss == [] then []
    else
      var before, last := Dedup(ss[..|ss| - 1]), ss[|ss| - 1];
      if last in before then before else before + [last]
  }

  lemma {:induction false} DedupIsTheSet(ss: seq<string>)
    ensures NoDuplicates(Dedup(ss)) && Elements(Dedup(ss)) == Elements(ss)
    decreases |ss|
  {
    if ss != [] {
      var before := Dedup(ss[..|ss| - 1]);
      DedupIsTheSet(ss[..|ss| - 1]);
      assert ss == ss[..|ss| - 1] + [ss[|ss| - 1]];
      assert forall x :: x in before <==> x in Elements(before);
    }
  }

  function Record(users: string): seq<string> {
    if users == "" then [] else Dedup(Split(users))
  }

  lemma RecordIsTheSet(users: string)
    ensures NoDuplicates(Record(users))
    ensures Elements(Record(users)) == if users == "" then {} else Elements(Split(users))
  {
    DedupIsTheSet(Split(users));
  }

  /** Slack with a single user, whom every email belongs to. */
  function OneUser(): Server {
    Server(_ => Ok(Some("U1")), Record)
  }

  lemma OneUserIsAServer()
    ensures RecordsAsSet(OneUser()) && CommaFreeDirectory(OneUser())
  {
    forall users: string { RecordIsTheSet(users); }
    hide Record;
  }

  lemma OneUserTwice(faults: Faults, call: nat)
    requires Calm(faults)
    ensures ResolvedIDs(Verdicts(OneUser(), faults, call, ["a", "b"])) == ["U1", "U1"]
  {
    var vs := Verdicts(OneUser(), faults, call, ["a", "b"]);
    assert vs == [Resolved("U1"), Resolved("U1")];
    hide Verdicts, OneUser;
    var one := vs[..1];
    assert one == [Resolved("U1")] && one[..0] == [];
    assert ResolvedIDs(one[..0]) == [];
    assert ResolvedIDs(one) == ["U1"];
  }

  /** A user listed under two emails: after the update the resource is still not up to date, and as long as
      Slack's list has no duplicates it never is. */
  lemma TwoEmailsOfOneUser(faults: Faults, s: State)
    requires Calm(faults) && s.meta.externalName != "" && s.meta.externalName in s.net.world
    ensures var spec := Spec(["a", "b"]);
            Observed(OneUser(), faults, spec, AfterUpdate(OneUser(), faults, spec, s).0).1
            != Ok(Observation(true, true))
    ensures NoDuplicates(s.net.world[s.meta.externalName]) ==>
              forall group, n: nat :: !ConvergedAfter(OneUser(), faults, Spec(["a", "b"]), s, group, n)
  {
    var spec := Spec(["a", "b"]);
    OneUserIsAServer();
    UpdateConvergesIff(OneUser(), faults, spec, s);
    OneUserTwice(faults, s.net.calls);
    OneUserTwice(faults, 0);
    hide Verdicts, ResolvedIDs, Observed, AfterUpdate, OneUser, RecordsAsSet, CommaFreeDirectory, ConvergedAfter;
    assert !NoDuplicates(["U1", "U1"]) by { assert ["U1", "U1"][0] == ["U1", "U1"][1]; }
    if NoDuplicates(s.net.world[s.meta.externalName]) {
      forall group, n: nat ensures !ConvergedAfter(OneUser(), faults, spec, s, group, n) {
        CanConvergeIff(s, group, Verdicts(OneUser(), faults, 0, spec.userEmails));
        VerdictsDecide(OneUser(), faults, spec, s, group);
      }
    }
  }

  /** No emails: a group that has members keeps them. */
  lemma NoEmailsNeverClear(srv: Server, faults: Faults, s: State)
    requires Calm(faults) && RecordsAsSet(srv) && CommaFreeDirectory(srv)
    requires s.meta.externalName != "" && s.meta.externalName in s.net.world && s.net.world[s.meta.externalName] != []
    ensures var s' := AfterUpdate(srv, faults, Spec([]), s).0;
            s'.net.world == s.net.world && Observed(srv, faults, Spec([]), s').1 == Ok(Observation(true, false))
    ensures forall group, n: nat :: !ConvergedAfter(srv, faults, Spec([]), s, group, n)
  {
    var spec := Spec([]);
    var vs := Verdicts(srv, faults, s.net.calls, spec.userEmails);
    assert vs == [] && ResolvedIDs(vs) == [];
    UpdateIsAllOrNothing(srv, faults, spec, s);
    var s' := AfterUpdate(srv, faults, spec, s).0;
    CalmObserveCompares(srv, faults, spec, s', s.net.calls);
    EmptyEqualIff([], s.net.world[s.meta.externalName]);
    hide Observed, AfterUpdate, RecordsAsSet, CommaFreeDirectory;
    forall group, n: nat ensures !ConvergedAfter(srv, faults, spec, s, group, n) {
      ConvergenceReachableIff(srv, faults, spec, s, group);
    }
  }

  /** A fault-free Delete empties the group. */
  lemma DeleteEmptiesGroup(srv: Server, faults: Faults, s: State)
    requires Calm(faults) && RecordsAsSet(srv) && s.meta.externalName != ""
    ensures var (s', r) := AfterDelete(srv, faults, s);
            && (r.None? <==> s.meta.externalName in s.net.world)
            && (r.None? ==> s'.net.world == s.net.world[s.meta.externalName := []])
  {
    NoElements(srv.record(""));
  }

  /** Fault-free turns of a resource being deleted: observe, then delete if present. */
  ghost function DeletionRun(srv: Server, faults: Faults, spec: Spec, s: State, n: nat): State {
    if n == 0 then s
    else
      var (seen, o) := Observed(srv, faults, spec, DeletionRun(srv, faults, spec, s, n - 1));
      if o.Ok? && o.value.present then AfterDelete(srv, faults, seen).0 else seen
  }

  lemma {:induction false} DeletionKeepsName(srv: Server, faults: Faults, spec: Spec, s: State, n: nat)
    ensures DeletionRun(srv, faults, spec, s, n).meta.externalName == s.meta.externalName
    decreases n
  {
    hide Observed;
    if n > 0 {
      DeletionKeepsName(srv, faults, spec, s, n - 1);
      FaultyObserve(srv, faults, spec, DeletionRun(srv, faults, spec, s, n - 1));
    }
  }

  /** Deletion by the driver never finishes, under any faults, unless there is no external name: Delete empties
      the group, but Observe reports the resource present as long as it has a name to look at. */
  lemma DeletionFinishesIff(srv: Server, faults: Faults, spec: Spec, s: State)
    ensures (exists n: nat :: Observed(srv, faults, spec, DeletionRun(srv, faults, spec, s, n)).1 == Ok(MISSING)) <==>
              s.meta.externalName == ""
  {
    if s.meta.externalName == "" {
      assert DeletionRun(srv, faults, spec, s, 0) == s;
      assert Observed(srv, faults, spec, DeletionRun(srv, faults, spec, s, 0)).1 == Ok(MISSING);
    } else {
      forall n: nat ensures Observed(srv, faults, spec, DeletionRun(srv, faults, spec, s, n)).1 != Ok(MISSING) {
        DeletionKeepsName(srv, faults, spec, s, n);
        FaultyObserve(srv, faults, spec, DeletionRun(srv, faults, spec, s, n));
      }
    }
    hide Observed, DeletionRun;
  }

  lemma NoElements(s: seq<string>)
    ensures Elements(s) == {} <==> s == []
  {
    assert s != [] ==> s[0] in Elements(s);
  }
}
