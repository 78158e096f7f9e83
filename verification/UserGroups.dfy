/**
 The UserGroup controller. Slack's side is an assumption: group names are unique among all groups,
 disabled ones included; groups are never removed; an update leaves alone every field it is not sent; and
 a listed group tells whether it is enabled (the source decodes that flag from `is_usergroup`). The client
 does not send an empty description.
 */
module UserGroups {
  import opened Outcomes
  import opened Errors
  import opened Types
  import opened Runtime

  // ---------- The client's encoding and Slack's side ----------

  datatype Params = Params(name: string, handle: string, description: string)

  /** The form parameters of a request that creates or updates a group. */
  function Encode(p: Params): (form: map<string, string>) {
    var form := map["name" := p.name, "handle" := p.handle];
    if p.description != "" then form["description" := p.description] else form
  }

  type Groups = seq<UserGroup>

  function IndexOf(groups: Groups, id: string): (k: nat)
    ensures k <= |groups|
    ensures k < |groups| ==> groups[k].id == id
    ensures forall j :: 0 <= j < k ==> groups[j].id != id
  {
    if groups == [] || groups[0].id == id then 0 else 1 + IndexOf(groups[1..], id)
  }

  predicate NameTaken(groups: Groups, name: string, except: nat) {
    exists j :: 0 <= j < |groups| && j != except && groups[j].name == name
  }

  function Listed(groups: Groups): (Groups, Result<Groups, Error>) {
    (groups, Ok(groups))
  }

  /** `ids(k)` is the ID of the k-th group ever created. */
  function Added(ids: nat -> string, groups: Groups, form: map<string, string>): (Groups, Result<UserGroup, Error>) {
    var name := Sent(form, "name", "");
    if NameTaken(groups, name, |groups|) then (groups, Err(Rejection("name_already_exists")))
    else
      var g := UserGroup(ids(|groups|), name, Sent(form, "handle", ""), Sent(form, "description", ""), true, "", 0);
      (groups + [g], Ok(g))
  }

  function Changed(groups: Groups, id: string, form: map<string, string>): (Groups, Result<(), Error>) {
    var k := IndexOf(groups, id);
    if k == |groups| then (groups, Err(Rejection("no_such_subteam")))
    else if NameTaken(groups, Sent(form, "name", groups[k].name), k) then
      (groups, Err(Rejection("name_already_exists")))
    else
      var g := groups[k];
      (groups[k := g.(name := Sent(form, "name", g.name), handle := Sent(form, "handle", g.handle),
                       description := Sent(form, "description", g.description))], Ok(()))
  }

  function Disabled(groups: Groups, id: string): (Groups, Result<(), Error>) {
    var k := IndexOf(groups, id);
    if k == |groups| then (groups, Err(Rejection("no_such_subteam")))
    else (groups[k := groups[k].(isEnabled := false)], Ok(()))
  }

  class GroupClient {
    const ids: nat -> string
    const faults: Faults
    var net: Net<Groups>

    constructor (ids: nat -> string, faults: Faults, groups: Groups)
      ensures this.ids == ids && this.faults == faults && net == Net(groups, 0)
    {
      this.ids, this.faults, net := ids, faults, Net(groups, 0);
    }

    /** The conditional setting of form parameters. */
    method Form(params: Params) returns (form: map<string, string>)
      ensures form == Encode(params)
    {
      form := map[];
      form := form["name" := params.name];
      form := form["handle" := params.handle];
      if params.description != "" {
        form := form["description" := params.description];
      }
    }

    method CreateUserGroup(params: Params) returns (r: Result<UserGroup, Error>)
      modifies this
      ensures (net, r) == Transit(faults, old(net), Added(ids, old(net.world), Encode(params)))
    {
      var form := Form(params);
      var (after, answer) := Transit(faults, net, Added(ids, net.world, form));
      net, r := after, answer;
    }

    method ListUserGroups() returns (r: Result<Groups, Error>)
      modifies this
      ensures (net, r) == Transit(faults, old(net), Listed(old(net.world)))
    {
      var (after, answer) := Transit(faults, net, Listed(net.world));
      net, r := after, answer;
    }

    method UpdateUserGroup(id: string, params: Params) returns (r: Result<(), Error>)
      modifies this
      ensures (net, r) == Transit(faults, old(net), Changed(old(net.world), id, Encode(params)))
    {
      var form := Form(params);
      var (after, answer) := Transit(faults, net, Changed(net.world, id, form));
      net, r := after, answer;
    }

    method DisableUserGroup(id: string) returns (r: Result<(), Error>)
      modifies this
      ensures (net, r) == Transit(faults, old(net), Disabled(old(net.world), id))
    {
      var (after, answer) := Transit(faults, net, Disabled(net.world, id));
      net, r := after, answer;
    }
  }

  // ---------- The operations as functions ----------

  datatype Spec = Spec(name: string, handle: string, description: Option<string>)

  datatype Status = Status(id: string, isEnabled: bool, createdBy: string, dateCreate: int)

  datatype State = State(meta: Meta<Status>, net: Net<Groups>)

  const NAME_CONFLICT: Condition := Condition(false, "NameConflict", "user group name already exists")

  function ParamsOf(spec: Spec): Params {
    Params(spec.name, spec.handle, spec.description.GetOr(""))
  }

  function IsUpToDate(spec: Spec, g: UserGroup): bool {
    if spec.name != g.name then false
    else if spec.handle != g.handle then false
    else if spec.description.GetOr("") != g.description then false
    else true
  }

  function Observed(faults: Faults, spec: Spec, s: State): (State, Result<Observation, Error>) {
    if s.meta.externalName == "" then (s, Ok(MISSING))
    else
      var (net, groups) := Transit(faults, s.net, Listed(s.net.world));
      match groups
      case Err(e) => (s.(net := net), Err(Wrapped("cannot list user groups", e)))
      case Ok(list) =>
        var k := IndexOf(list, s.meta.externalName);
        if k == |list| || !list[k].isEnabled then (s.(net := net), Ok(MISSING))
        else
          var g := list[k];
          var status := Status(g.id, g.isEnabled, g.createdBy, g.dateCreate);
          (State(s.meta.(atProvider := status).With(Ready, AVAILABLE), net),
           Ok(Observation(true, IsUpToDate(spec, g))))
  }

  function Conflict(meta: Meta<Status>, e: Error): Meta<Status> {
    if HasCode(e, "name_already_exists") then meta.With(Synced, NAME_CONFLICT) else meta
  }

  function AfterCreate(ids: nat -> string, faults: Faults, spec: Spec, s: State): (State, Option<Error>) {
    var (net, r) := Transit(faults, s.net, Added(ids, s.net.world, Encode(ParamsOf(spec))));
    match r
    case Err(e) => (State(Conflict(s.meta, e), net), Some(Wrapped("cannot create user group", e)))
    case Ok(g) => (State(s.meta.(externalName := g.id), net), None)
  }

  function AfterUpdate(faults: Faults, spec: Spec, s: State): (State, Option<Error>) {
    var (net, r) := Transit(faults, s.net, Changed(s.net.world, s.meta.externalName, Encode(ParamsOf(spec))));
    match r
    case Err(e) => (State(Conflict(s.meta, e), net), Some(Wrapped("cannot update user group", e)))
    case Ok(_) => (s.(net := net), None)
  }

  function AfterDelete(faults: Faults, s: State): (State, Option<Error>) {
    if s.meta.externalName == "" then (s, None)
    else
      var (net, r) := Transit(faults, s.net, Disabled(s.net.world, s.meta.externalName));
      (s.(net := net), if r.Err? then Some(Wrapped("cannot disable user group", r.error)) else None)
  }

  // ---------- The controller ----------

  class External {
    const client: GroupClient

    constructor (client: GroupClient)
      ensures this.client == client
    {
      this.client := client;
    }

    function View(cr: Managed<Spec, Status>): State
      reads cr, client
    {
      State(cr.View(), client.net)
    }

    method Observe(cr: Managed<Spec, Status>) returns (r: Result<Observation, Error>)
      modifies cr, client
      ensures (View(cr), r) == Observed(client.faults, cr.spec, old(View(cr)))
    {
      var externalName := cr.externalName;
      if externalName == "" {
        return Ok(MISSING);
      }
      var groups := client.ListUserGroups();
      if groups.Err? {
        return Err(Wrapped("cannot list user groups", groups.error));
      }
      var found: Option<UserGroup> := None;
      var list := groups.value;
      for i := 0 to |list|
        invariant found == None && i <= IndexOf(list, externalName)
      {
        if list[i].id == externalName {
          found := Some(list[i]);
          break;
        }
      }
      if found.None? || !found.value.isEnabled {
        return Ok(MISSING);
      }
      var g := found.value;
      cr.atProvider := Status(g.id, g.isEnabled, g.createdBy, g.dateCreate);
      var upToDate := IsUpToDate(cr.spec, g);
      cr.SetCondition(Ready, AVAILABLE);
      return Ok(Observation(true, upToDate));
    }

    method Create(cr: Managed<Spec, Status>) returns (r: Option<Error>)
      modifies cr, client
      ensures (View(cr), r) == AfterCreate(client.ids, client.faults, cr.spec, old(View(cr)))
    {
      hide Added, Encode, HasCode;
      var created := client.CreateUserGroup(Params(cr.spec.name, cr.spec.handle, cr.spec.description.GetOr("")));
      if created.Err? {
        if HasCode(created.error, "name_already_exists") {
          cr.SetCondition(Synced, NAME_CONFLICT);
        }
        return Some(Wrapped("cannot create user group", created.error));
      }
      cr.externalName := created.value.id;
      return None;
    }

    method Update(cr: Managed<Spec, Status>) returns (r: Option<Error>)
      modifies cr, client
      ensures (View(cr), r) == AfterUpdate(client.faults, cr.spec, old(View(cr)))
    {
      hide Changed, Encode, HasCode;
      var params := Params(cr.spec.name, cr.spec.handle, cr.spec.description.GetOr(""));
      var w := client.UpdateUserGroup(cr.externalName, params);
      if w.Err? {
        if HasCode(w.error, "name_already_exists") {
          cr.SetCondition(Synced, NAME_CONFLICT);
        }
        return Some(Wrapped("cannot update user group", w.error));
      }
      return None;
    }

    method Delete(cr: Managed<Spec, Status>) returns (r: Option<Error>)
      modifies client
      ensures (View(cr), r) == AfterDelete(client.faults, old(View(cr)))
    {
      hide Disabled;
      var externalName := cr.externalName;
      if externalName == "" {
        return None;
      }
      var w := client.DisableUserGroup(externalName);
      if w.Err? {
        return Some(Wrapped("cannot disable user group", w.error));
      }
      return None;
    }
  }

  // ---------- Convergence ----------

  /** The group has the desired name, handle and description. */
  ghost predicate AsDesired(spec: Spec, g: UserGroup) {
    && g.name == spec.name && g.handle == spec.handle
    && g.description == if spec.description.Some? then spec.description.value else ""
  }

  /** Under any faults an Update leaves every other group alone and its own group either as it was or with
      the desired name and handle, and the desired description unless that is empty. */
  lemma UpdateIsAllOrNothing(faults: Faults, spec: Spec, s: State, k: nat)
    requires k < |s.net.world| && IndexOf(s.net.world, s.meta.externalName) == k
    ensures var (s', r) := AfterUpdate(faults, spec, s);
            var (g, text) := (s.net.world[k], spec.description.GetOr(""));
            var updated := g.(name := spec.name, handle := spec.handle,
              description := if text != "" then text else g.description);
            && s'.meta.externalName == s.meta.externalName
            && (s'.net.world == s.net.world || s'.net.world == s.net.world[k := updated])
            && (r.None? ==> s'.net.world == s.net.world[k := updated])
  {
    assert Sent(Encode(ParamsOf(spec)), "name", "") == spec.name;
    hide IndexOf;
  }

  lemma SameIdsSameIndex(groups: Groups, groups': Groups, id: string)
    requires |groups'| == |groups| && forall j :: 0 <= j < |groups| ==> groups'[j].id == groups[j].id
    ensures IndexOf(groups', id) == IndexOf(groups, id)
  {
    var i, j := IndexOf(groups, id), IndexOf(groups', id);
    assert i < |groups| ==> groups'[i].id == id;
    assert j < |groups| ==> groups[j].id == id;
  }

  /** Convergence, exactly: after a fault-free Update of an enabled group the next fault-free Observe is up
      to date if and only if the desired name is free or the group's own and matching already, and the
      desired description is not empty or the remote one already is. */
  lemma UpdateConvergesIff(faults: Faults, spec: Spec, s: State, k: nat)
    requires Calm(faults) && s.meta.externalName != ""
    requires k < |s.net.world| && IndexOf(s.net.world, s.meta.externalName) == k && s.net.world[k].isEnabled
    ensures Observed(faults, spec, AfterUpdate(faults, spec, s).0).1 == Ok(Observation(true, true)) <==>
              if NameTaken(s.net.world, spec.name, k) then AsDesired(spec, s.net.world[k])
              else spec.description.GetOr("") != "" || s.net.world[k].description == ""
  {
    var (s', r) := AfterUpdate(faults, spec, s);
    UpdateIsAllOrNothing(faults, spec, s, k);
    SameIdsSameIndex(s.net.world, s'.net.world, s.meta.externalName);
    assert Sent(Encode(ParamsOf(spec)), "name", s.net.world[k].name) == spec.name;
    assert r.None? <==> !NameTaken(s.net.world, spec.name, k);
    assert r.Some? ==> s'.net.world == s.net.world;
    hide AfterUpdate, IndexOf, NameTaken;
  }

  // ---------- Runs ----------

  ghost predicate Valid(ids: nat -> string, groups: Groups) {
    && (forall i, j :: ids(i) == ids(j) ==> i == j)
    && (forall i :: ids(i) != "")
    && (forall k :: 0 <= k < |groups| ==> groups[k].id == ids(k))
  }

  predicate Enabled(groups: Groups, id: string) {
    IndexOf(groups, id) < |groups| && groups[IndexOf(groups, id)].isEnabled
  }

  /** One reconcile that is not deleting. */
  ghost function Reconcile(ids: nat -> string, faults: Faults, spec: Spec, s: State): State {
    var (seen, o) := Observed(faults, spec, s);
    if o.Err? then seen
    else if !o.value.present then AfterCreate(ids, faults, spec, seen).0
    else if !o.value.upToDate then AfterUpdate(faults, spec, seen).0
    else seen
  }

  ghost function CalmRun(ids: nat -> string, faults: Faults, spec: Spec, s: State, n: nat): State {
    if n == 0 then s else Reconcile(ids, faults, spec, CalmRun(ids, faults, spec, s, n - 1))
  }

  ghost predicate PresentAfter(ids: nat -> string, faults: Faults, spec: Spec, s: State, n: nat) {
    var o := Observed(faults, spec, CalmRun(ids, faults, spec, s, n)).1;
    o.Ok? && o.value.present
  }

  lemma CalmObservePresentIff(faults: Faults, spec: Spec, s: State)
    requires Calm(faults)
    ensures var (s', o) := Observed(faults, spec, s);
            && o.Ok? && (o.value.present <==> s.meta.externalName != "" && Enabled(s.net.world, s.meta.externalName))
            && s'.net.world == s.net.world && s'.meta.externalName == s.meta.externalName
  {
    hide IndexOf, IsUpToDate;
  }

  /** What a fault-free Observe answers and records: of an enabled group that it is there, up to date exactly if its
      name, handle and description are the desired ones, with its status, and that the resource is available; of
      any other nothing. */
  lemma CalmObserveRecords(faults: Faults, spec: Spec, s: State)
    requires Calm(faults)
    ensures var (s', o) := Observed(faults, spec, s);
            var (groups, id) := (s.net.world, s.meta.externalName);
            if id != "" && Enabled(groups, id) then
              var g := groups[IndexOf(groups, id)];
              && g.id == id
              && o == Ok(Observation(true, g.name == spec.name && g.handle == spec.handle
                           && g.description == if spec.description.Some? then spec.description.value else ""))
              && s'.meta == s.meta.(atProvider := Status(g.id, true, g.createdBy, g.dateCreate),
                                    conditions := s.meta.conditions[Ready := Condition(true, "Available", "")])
            else o == Ok(Observation(false, false)) && s'.meta == s.meta
  {
    hide IndexOf;
  }

  /** What fault-free writes record: one that would take another group's name fails, with the NameConflict
      condition; an Update of an unknown group fails without one; a Create that succeeds sets the external
      name to the new group's ID, and nothing else of the resource ever changes. */
  lemma CalmWritesRecord(ids: nat -> string, faults: Faults, spec: Spec, s: State)
    requires Calm(faults)
    ensures var (created, r) := AfterCreate(ids, faults, spec, s);
            var (updated, r') := AfterUpdate(faults, spec, s);
            var (groups, k) := (s.net.world, IndexOf(s.net.world, s.meta.externalName));
            var conflict := s.meta.(conditions :=
              s.meta.conditions[Synced := Condition(false, "NameConflict", "user group name already exists")]);
            && (if NameTaken(groups, spec.name, |groups|) then
                  created.meta == conflict && r.Some? && HasCode(r.value, "name_already_exists")
                else created.meta == s.meta.(externalName := ids(|groups|)) && r.None?)
            && (if k == |groups| then updated.meta == s.meta && r'.Some? && HasCode(r'.value, "no_such_subteam")
                else if NameTaken(groups, spec.name, k) then
                  updated.meta == conflict && r'.Some? && HasCode(r'.value, "name_already_exists")
                else updated.meta == s.meta && r'.None?)
            && AfterDelete(faults, s).0.meta == s.meta
  {
    var form := Encode(ParamsOf(spec));
    assert form["name"] == spec.name;
    hide IndexOf, NameTaken, Encode;
  }

  /** A call that is not answered makes its operation fail, with the cause inside and nothing recorded, save the
      conflict that the cause itself may carry. */
  lemma UnansweredFails(ids: nat -> string, faults: Faults, spec: Spec, s: State)
    requires !faults(s.net.calls).Deliver? && s.meta.externalName != ""
    ensures var cause := faults(s.net.calls).cause;
            var (observed, o) := Observed(faults, spec, s);
            var (created, r) := AfterCreate(ids, faults, spec, s);
            var (updated, r') := AfterUpdate(faults, spec, s);
            var (deleted, r'') := AfterDelete(faults, s);
            && o.Err? && o.error.Wrapped? && o.error.inner == cause && observed.meta == s.meta
            && r.Some? && r.value.Wrapped? && r.value.inner == cause
            && r'.Some? && r'.value.Wrapped? && r'.value.inner == cause
            && r''.Some? && r''.value.Wrapped? && r''.value.inner == cause && deleted.meta == s.meta
            && (!HasCode(cause, "name_already_exists") ==> created.meta == s.meta && updated.meta == s.meta)
  {
    hide Encode, IndexOf;
  }

  /** No fault-free turn can find or make the group. */
  ghost predicate Stuck(spec: Spec, s: State) {
    && NameTaken(s.net.world, spec.name, |s.net.world|)
    && (s.meta.externalName == "" || !Enabled(s.net.world, s.meta.externalName))
  }

  lemma StuckTurn(ids: nat -> string, faults: Faults, spec: Spec, s: State)
    requires Calm(faults) && Stuck(spec, s)
    ensures var s' := Reconcile(ids, faults, spec, s);
            && s'.net.world == s.net.world && s'.meta.externalName == s.meta.externalName
            && Synced in s'.meta.conditions && s'.meta.conditions[Synced] == NAME_CONFLICT
  {
    CalmObservePresentIff(faults, spec, s);
    assert Sent(Encode(ParamsOf(spec)), "name", "") == spec.name;
    hide Observed, Enabled, NameTaken, AfterUpdate;
  }

  lemma {:induction false} StuckForever(ids: nat -> string, faults: Faults, spec: Spec, s: State, n: nat)
    requires Calm(faults) && Stuck(spec, s)
    ensures var s' := CalmRun(ids, faults, spec, s, n);
            && s'.net.world == s.net.world && Stuck(spec, s') && !PresentAfter(ids, faults, spec, s, n)
    decreases n
  {
    hide Observed, Enabled, NameTaken, Reconcile;
    if n > 0 {
      StuckForever(ids, faults, spec, s, n - 1);
      StuckTurn(ids, faults, spec, CalmRun(ids, faults, spec, s, n - 1));
    }
    CalmObservePresentIff(faults, spec, CalmRun(ids, faults, spec, s, n));
  }

  /** Exact reachability: a fault-free run ever sees the group present if and only if the external name is
      that of an enabled group, or no group at all, enabled or not, has the desired name. Otherwise the
      workspace never changes: unlike a channel, a group whose creation was lost is never adopted, and
      one that was disabled is never enabled again. */
  lemma PresenceReachableIff(ids: nat -> string, faults: Faults, spec: Spec, s: State)
    requires Calm(faults) && Valid(ids, s.net.world)
    ensures !Stuck(spec, s) || forall n: nat :: CalmRun(ids, faults, spec, s, n).net.world == s.net.world
    ensures (exists n: nat :: PresentAfter(ids, faults, spec, s, n)) <==>
              || (s.meta.externalName != "" && Enabled(s.net.world, s.meta.externalName))
              || !NameTaken(s.net.world, spec.name, |s.net.world|)
  {
    CalmObservePresentIff(faults, spec, s);
    assert CalmRun(ids, faults, spec, s, 0) == s;
    if s.meta.externalName != "" && Enabled(s.net.world, s.meta.externalName) {
      assert PresentAfter(ids, faults, spec, s, 0);
    } else if !NameTaken(s.net.world, spec.name, |s.net.world|) {
      CreateTurn(ids, faults, spec, s);
      assert CalmRun(ids, faults, spec, s, 1) == Reconcile(ids, faults, spec, s);
      CalmObservePresentIff(faults, spec, Reconcile(ids, faults, spec, s));
      assert PresentAfter(ids, faults, spec, s, 1);
    } else {
      forall n: nat ensures !PresentAfter(ids, faults, spec, s, n)
        ensures CalmRun(ids, faults, spec, s, n).net.world == s.net.world
      {
        StuckForever(ids, faults, spec, s, n);
      }
    }
  }

  lemma CreateTurn(ids: nat -> string, faults: Faults, spec: Spec, s: State)
    requires Calm(faults) && Valid(ids, s.net.world) && !NameTaken(s.net.world, spec.name, |s.net.world|)
    requires s.meta.externalName == "" || !Enabled(s.net.world, s.meta.externalName)
    ensures var s' := Reconcile(ids, faults, spec, s);
            s'.meta.externalName != "" && Enabled(s'.net.world, s'.meta.externalName)
  {
    var groups := s.net.world;
    CalmObservePresentIff(faults, spec, s);
    assert Sent(Encode(ParamsOf(spec)), "name", "") == spec.name;
    var (groups', r) := Added(ids, groups, Encode(ParamsOf(spec)));
    assert Valid(ids, groups') && groups'[|groups|].isEnabled;
    var k := IndexOf(groups', ids(|groups|));
    assert k <= |groups|;
    assert ids(k) == ids(|groups|);
    hide Observed, NameTaken, AfterUpdate, IndexOf;
  }

  /** A Create of a free name that takes effect while its response is lost adds the group, but strands the
      resource that made it: no fault-free run ever finds it, exactly unless the stale external name from
      before happens to be the ID that the group was given. */
  lemma LostCreateStrands(ids: nat -> string, faults: Faults, lossy: Faults, spec: Spec, s: State)
    requires Calm(faults) && Valid(ids, s.net.world) && lossy(s.net.calls).Lose?
    requires !NameTaken(s.net.world, spec.name, |s.net.world|)
    requires s.meta.externalName == "" || !Enabled(s.net.world, s.meta.externalName)
    ensures var (groups, s1) := (s.net.world, AfterCreate(ids, lossy, spec, s).0);
            && |s1.net.world| == |groups| + 1 && s1.net.world[..|groups|] == groups
            && s1.net.world[|groups|].name == spec.name && s1.net.world[|groups|].isEnabled
            && ((exists n: nat :: PresentAfter(ids, faults, spec, s1, n)) <==>
                  s.meta.externalName == s1.net.world[|groups|].id)
  {
    var groups := s.net.world;
    var s1 := AfterCreate(ids, lossy, spec, s).0;
    assert Sent(Encode(ParamsOf(spec)), "name", "") == spec.name;
    assert s1.net.world == Added(ids, groups, Encode(ParamsOf(spec))).0;
    assert s1.net.world[|groups|].name == spec.name;
    GrownIndex(ids, groups, s1.net.world[|groups|], s.meta.externalName);
    hide IndexOf, AfterCreate, PresentAfter;
    PresenceReachableIff(ids, faults, spec, s1);
  }

  lemma GrownIndex(ids: nat -> string, groups: Groups, g: UserGroup, id: string)
    requires Valid(ids, groups + [g])
    ensures IndexOf(groups + [g], id)
            == if IndexOf(groups, id) == |groups| && id != g.id then |groups| + 1 else IndexOf(groups, id)
  {
    var groups' := groups + [g];
    var k, k' := IndexOf(groups, id), IndexOf(groups', id);
    assert forall j :: 0 <= j < |groups| ==> groups'[j] == groups[j];
    assert groups'[|groups|] == g;
    assert k < |groups| ==> groups'[k].id == id;
    assert k' < |groups| ==> groups[k'].id == id;
    hide IndexOf;
  }

  // ---------- Exactly when a fault-free run converges ----------

  ghost predicate ConvergedAfter(ids: nat -> string, faults: Faults, spec: Spec, s: State, n: nat) {
    Observed(faults, spec, CalmRun(ids, faults, spec, s, n)).1 == Ok(Observation(true, true))
  }

  /** The condition a caller can check before the run. */
  ghost predicate CanConverge(spec: Spec, s: State) {
    var k := IndexOf(s.net.world, s.meta.externalName);
    if s.meta.externalName != "" && Enabled(s.net.world, s.meta.externalName) then
      if NameTaken(s.net.world, spec.name, k) then AsDesired(spec, s.net.world[k])
      else spec.description.GetOr("") != "" || s.net.world[k].description == ""
    else !NameTaken(s.net.world, spec.name, |s.net.world|)
  }

  lemma CalmObserveUpToDateIff(faults: Faults, spec: Spec, s: State)
    requires Calm(faults)
    ensures Observed(faults, spec, s).1 == Ok(Observation(true, true)) <==>
              && s.meta.externalName != "" && Enabled(s.net.world, s.meta.externalName)
              && AsDesired(spec, s.net.world[IndexOf(s.net.world, s.meta.externalName)])
  {
    hide IndexOf;
  }

  lemma HopelessTurn(ids: nat -> string, faults: Faults, spec: Spec, s: State)
    requires Calm(faults) && !CanConverge(spec, s)
    ensures !CanConverge(spec, Reconcile(ids, faults, spec, s))
    ensures Observed(faults, spec, s).1 != Ok(Observation(true, true))
  {
    CalmObservePresentIff(faults, spec, s);
    CalmObserveUpToDateIff(faults, spec, s);
    var seen := Observed(faults, spec, s).0;
    if s.meta.externalName != "" && Enabled(s.net.world, s.meta.externalName) {
      var k := IndexOf(s.net.world, s.meta.externalName);
      RefusedOrBlank(faults, spec, seen, k);
      hide Observed, AfterUpdate, AfterCreate, IndexOf, NameTaken, Enabled, AsDesired;
    } else {
      StuckTurn(ids, faults, spec, s);
      hide Observed, AfterUpdate, AfterCreate, IndexOf, NameTaken, Enabled, Reconcile;
    }
  }

  /** What a fault-free Update cannot mend, it leaves beyond mending. */
  lemma RefusedOrBlank(faults: Faults, spec: Spec, s: State, k: nat)
    requires Calm(faults) && s.meta.externalName != ""
    requires k < |s.net.world| && IndexOf(s.net.world, s.meta.externalName) == k && s.net.world[k].isEnabled
    requires !CanConverge(spec, s)
    ensures !CanConverge(spec, AfterUpdate(faults, spec, s).0)
  {
    var (s', r) := AfterUpdate(faults, spec, s);
    UpdateIsAllOrNothing(faults, spec, s, k);
    SameIdsSameIndex(s.net.world, s'.net.world, s.meta.externalName);
    assert Sent(Encode(ParamsOf(spec)), "name", s.net.world[k].name) == spec.name;
    assert r.None? <==> !NameTaken(s.net.world, spec.name, k);
    assert r.Some? ==> s'.net.world == s.net.world;
    if j :| 0 <= j < |s'.net.world| && j != k && s'.net.world[j].name == spec.name {
      assert s.net.world[j].name == spec.name;
    }
    hide AfterUpdate, IndexOf;
  }

  lemma {:induction false} HopelessForever(ids: nat -> string, faults: Faults, spec: Spec, s: State, n: nat)
    requires Calm(faults) && !CanConverge(spec, s)
    ensures !CanConverge(spec, CalmRun(ids, faults, spec, s, n)) && !ConvergedAfter(ids, faults, spec, s, n)
    decreases n
  {
    hide Observed, Reconcile, CanConverge;
    if n > 0 {
      HopelessForever(ids, faults, spec, s, n - 1);
      HopelessTurn(ids, faults, spec, CalmRun(ids, faults, spec, s, n - 1));
    }
    HopelessTurn(ids, faults, spec, CalmRun(ids, faults, spec, s, n));
  }

  /** A new group is up to date at once: what its form leaves out, Slack starts empty. */
  lemma CreatedIsUpToDate(ids: nat -> string, faults: Faults, spec: Spec, s: State)
    requires Calm(faults) && Valid(ids, s.net.world) && !NameTaken(s.net.world, spec.name, |s.net.world|)
    ensures Observed(faults, spec, AfterCreate(ids, faults, spec, s).0).1 == Ok(Observation(true, true))
  {
    var groups, form := s.net.world, Encode(ParamsOf(spec));
    var s' := AfterCreate(ids, faults, spec, s).0;
    assert Sent(form, "name", "") == spec.name && Sent(form, "handle", "") == spec.handle;
    assert Sent(form, "description", "") == spec.description.GetOr("");
    var (groups', r) := Added(ids, groups, form);
    assert s'.net.world == groups' && s'.meta.externalName == ids(|groups|);
    assert Valid(ids, groups') && AsDesired(spec, groups'[|groups|]);
    GrownIndex(ids, groups, groups'[|groups|], ids(|groups|));
    assert IndexOf(groups, ids(|groups|)) == |groups|;
    CalmObserveUpToDateIff(faults, spec, s');
    hide Observed, IndexOf, AfterCreate;
  }

  /** Exact reachability of convergence, from any external name: a fault-free run ever finds the group present
      and up to date if and only if its enabled group has no other's name to take and no description to clear
      (or nothing drifts), or it has no enabled group and the name is free. */
  lemma ConvergenceReachableIff(ids: nat -> string, faults: Faults, spec: Spec, s: State)
    requires Calm(faults) && Valid(ids, s.net.world)
    ensures (exists n: nat :: ConvergedAfter(ids, faults, spec, s, n)) <==> CanConverge(spec, s)
  {
    if CanConverge(spec, s) {
      var n := ConvergesInOne(ids, faults, spec, s);
    }
    hide ConvergedAfter, CanConverge, Valid;
    if n: nat :| ConvergedAfter(ids, faults, spec, s, n) {
      if !CanConverge(spec, s) { HopelessForever(ids, faults, spec, s, n); }
    }
  }

  lemma ConvergesInOne(ids: nat -> string, faults: Faults, spec: Spec, s: State) returns (n: nat)
    requires Calm(faults) && Valid(ids, s.net.world) && CanConverge(spec, s)
    ensures n <= 1 && ConvergedAfter(ids, faults, spec, s, n)
  {
    CalmObservePresentIff(faults, spec, s);
    CalmObserveUpToDateIff(faults, spec, s);
    var (seen, o) := Observed(faults, spec, s);
    assert CalmRun(ids, faults, spec, s, 0) == s;
    assert CalmRun(ids, faults, spec, s, 1) == Reconcile(ids, faults, spec, s);
    if !o.value.present {
      CreatedIsUpToDate(ids, faults, spec, seen);
      n := 1;
    } else if !o.value.upToDate {
      UpdateConvergesIff(faults, spec, seen, IndexOf(s.net.world, s.meta.externalName));
      n := 1;
    } else {
      n := 0;
    }
    hide Observed, AfterUpdate, AfterCreate, IndexOf, AsDesired, Valid, NameTaken;
  }

  /** An empty desired description does not clear the one that is there, however often the update is repeated. */
  lemma EmptyDescriptionNeverClears(ids: nat -> string, faults: Faults, meta: Meta<Status>, n: nat)
    requires Calm(faults) && meta.externalName == "S1"
    ensures var s := State(meta, Net([UserGroup("S1", "Ops", "ops", "on call", true, "", 0)], 0));
            !ConvergedAfter(ids, faults, Spec("Ops", "ops", Some("")), s, n)
  {
    var g := UserGroup("S1", "Ops", "ops", "on call", true, "", 0);
    var s := State(meta, Net([g], 0));
    assert IndexOf([g], "S1") == 0;
    HopelessForever(ids, faults, Spec("Ops", "ops", Some("")), s, n);
  }

  /** A fault-free Delete of a known group disables that group and no other, and the next Observe finds
      nothing; an unknown group, unlike an unknown channel, makes Delete fail. */
  lemma DeleteThenGone(faults: Faults, spec: Spec, s: State)
    requires Calm(faults) && s.meta.externalName != ""
    ensures var (s', r) := AfterDelete(faults, s);
            var k := IndexOf(s.net.world, s.meta.externalName);
            && (r.None? <==> k < |s.net.world|)
            && (r.None? ==> s'.net.world == s.net.world[k := s.net.world[k].(isEnabled := false)])
            && (r.None? ==> Observed(faults, spec, s').1 == Ok(MISSING))
  {
    var s' := AfterDelete(faults, s).0;
    SameIdsSameIndex(s.net.world, s'.net.world, s.meta.externalName);
    hide IndexOf, AsDesired;
  }

  // ---------- Runs under faults ----------

  /** One reconcile, after which the external name left in memory may or may not get stored. */
  ghost function FaultyTurn(ids: nat -> string, faults: Faults, spec: Spec, s: State, stored: bool): State {
    var after := Reconcile(ids, faults, spec, s);
    if stored then after else after.(meta := after.meta.(externalName := s.meta.externalName))
  }

  ghost function FaultyRun(ids: nat -> string, faults: Faults, spec: Spec, s: State, stored: seq<bool>): State {
    if stored == [] then s
    else
      var n := |stored| - 1;
      FaultyTurn(ids, faults, spec, FaultyRun(ids, faults, spec, s, stored[..n]), stored[n])
  }

  /** A turn strands the resource: it makes the group, but the group's ID gets lost, either with the response or
      by not being stored, and the name from before is not the same. */
  ghost predicate Strands(ids: nat -> string, faults: Faults, spec: Spec, s: State, stored: bool) {
    var (seen, o) := Observed(faults, spec, s);
    && o == Ok(MISSING) && !NameTaken(s.net.world, spec.name, |s.net.world|)
    && !faults(seen.net.calls).Drop? && !(stored && faults(seen.net.calls).Deliver?)
    && s.meta.externalName != ids(|s.net.world|)
  }

  ghost predicate SomeTurnStrands(ids: nat -> string, faults: Faults, spec: Spec, s: State, stored: seq<bool>) {
    exists k :: 0 <= k < |stored|
      && Strands(ids, faults, spec, FaultyRun(ids, faults, spec, s, stored[..k]), stored[k])
  }

  /** Under any faults an Observe that answers is right. */
  lemma AnsweredObserve(faults: Faults, spec: Spec, s: State)
    ensures var (seen, o) := Observed(faults, spec, s);
            var (groups, id) := (s.net.world, s.meta.externalName);
            && seen.net.world == groups && seen.meta.externalName == id
            && (o.Ok? ==> (o.value.present <==> id != "" && Enabled(groups, id)))
            && (o.Ok? && o.value.present ==> (o.value.upToDate <==> AsDesired(spec, groups[IndexOf(groups, id)])))
            && (o.Ok? && !o.value.present ==> o == Ok(MISSING))
  {
    hide IndexOf;
  }

  /** The group that Create makes is one that converges. */
  lemma NewGroupConverges(ids: nat -> string, spec: Spec, groups: Groups, g: UserGroup, s: State)
    requires Valid(ids, groups) && !NameTaken(groups, spec.name, |groups|) && s.net.world == groups + [g]
    requires g.id == ids(|groups|) && g.isEnabled && g.name == spec.name && g.description == spec.description.GetOr("")
    ensures Valid(ids, s.net.world)
    ensures s.meta.externalName == g.id ==> CanConverge(spec, s)
    ensures s.meta.externalName != g.id && (s.meta.externalName == "" || !Enabled(groups, s.meta.externalName)) ==>
              !CanConverge(spec, s)
  {
    var (groups', id) := (s.net.world, s.meta.externalName);
    assert groups'[|groups|] == g;
    assert forall j :: 0 <= j < |groups| ==> groups'[j] == groups[j];
    GrownIndex(ids, groups, g, id);
    assert IndexOf(groups, g.id) == |groups|;
    assert NameTaken(groups', spec.name, |groups'|) by { assert groups'[|groups|].name == spec.name; }
    assert !NameTaken(groups', spec.name, |groups|);
    hide IndexOf, AsDesired;
  }

  lemma FaultyCreate(ids: nat -> string, faults: Faults, spec: Spec, s: State) returns (g: UserGroup)
    ensures var (groups, s') := (s.net.world, AfterCreate(ids, faults, spec, s).0);
            if !NameTaken(groups, spec.name, |groups|) && !faults(s.net.calls).Drop? then
              && s'.net.world == groups + [g] && g.id == ids(|groups|) && g.isEnabled && g.name == spec.name
              && g.description == spec.description.GetOr("")
              && s'.meta.externalName == if faults(s.net.calls).Deliver? then g.id else s.meta.externalName
            else s'.net.world == groups && s'.meta.externalName == s.meta.externalName
  {
    var form := Encode(ParamsOf(spec));
    assert Sent(form, "name", "") == spec.name;
    assert Sent(form, "description", "") == spec.description.GetOr("");
    g := UserGroup(ids(|s.net.world|), spec.name, Sent(form, "handle", ""), Sent(form, "description", ""), true, "", 0);
    hide NameTaken, Encode;
  }

  /** Whatever is lost, an Update leaves the group as able to converge as it was. */
  lemma FaultyUpdateKeepsFate(ids: nat -> string, faults: Faults, spec: Spec, s: State, k: nat)
    requires Valid(ids, s.net.world) && s.meta.externalName != ""
    requires k < |s.net.world| && IndexOf(s.net.world, s.meta.externalName) == k && s.net.world[k].isEnabled
    requires !AsDesired(spec, s.net.world[k])
    ensures var s' := AfterUpdate(faults, spec, s).0;
            && Valid(ids, s'.net.world) && s'.meta.externalName == s.meta.externalName
            && (CanConverge(spec, s') <==> CanConverge(spec, s))
  {
    var s' := AfterUpdate(faults, spec, s).0;
    UpdateIsAllOrNothing(faults, spec, s, k);
    SameIdsSameIndex(s.net.world, s'.net.world, s.meta.externalName);
    assert Sent(Encode(ParamsOf(spec)), "name", s.net.world[k].name) == spec.name;
    assert NameTaken(s.net.world, spec.name, k) ==> s'.net.world == s.net.world;
    if j :| 0 <= j < |s'.net.world| && j != k && s'.net.world[j].name == spec.name {
      assert s.net.world[j].name == spec.name;
    }
    hide AfterUpdate, IndexOf;
  }

  /** Exactly what a turn under faults does to what can be: nothing, unless it strands the resource. */
  lemma FaultyTurnDecides(ids: nat -> string, faults: Faults, spec: Spec, s: State, stored: bool)
    requires Valid(ids, s.net.world)
    ensures var s' := FaultyTurn(ids, faults, spec, s, stored);
            && Valid(ids, s'.net.world)
            && (CanConverge(spec, s') <==> CanConverge(spec, s) && !Strands(ids, faults, spec, s, stored))
  {
    var s' := FaultyTurn(ids, faults, spec, s, stored);
    var (seen, o) := Observed(faults, spec, s);
    AnsweredObserve(faults, spec, s);
    if o.Ok? && o.value.present && !o.value.upToDate {
      FaultyUpdateKeepsFate(ids, faults, spec, seen, IndexOf(s.net.world, s.meta.externalName));
      hide CanConverge, Observed, AfterUpdate, AfterCreate, IndexOf, NameTaken, Valid, AsDesired;
      SameGroupSameFate(spec, s, seen);
      SameGroupSameFate(spec, s', AfterUpdate(faults, spec, seen).0);
    } else if o == Ok(MISSING) {
      var g := FaultyCreate(ids, faults, spec, seen);
      hide Observed, AfterUpdate, AfterCreate, IndexOf, NameTaken, Valid, AsDesired, Enabled;
      if s'.net.world != s.net.world { NewGroupConverges(ids, spec, s.net.world, g, s'); }
    } else {
      hide CanConverge, Observed, AfterUpdate, AfterCreate, IndexOf, NameTaken, Valid, AsDesired;
      SameGroupSameFate(spec, s, s');
    }
  }

  lemma SameGroupSameFate(spec: Spec, s: State, s': State)
    requires s'.net.world == s.net.world && s'.meta.externalName == s.meta.externalName
    ensures CanConverge(spec, s') <==> CanConverge(spec, s)
  {
  }

  lemma {:induction false} FaultyRunDecides(ids: nat -> string, faults: Faults, spec: Spec, s: State, stored: seq<bool>)
    requires Valid(ids, s.net.world)
    ensures var s' := FaultyRun(ids, faults, spec, s, stored);
            && Valid(ids, s'.net.world)
            && (CanConverge(spec, s') <==> CanConverge(spec, s) && !SomeTurnStrands(ids, faults, spec, s, stored))
    decreases |stored|
  {
    hide FaultyTurn, CanConverge, Strands, Valid;
    if stored != [] {
      var n := |stored| - 1;
      FaultyRunDecides(ids, faults, spec, s, stored[..n]);
      FaultyTurnDecides(ids, faults, spec, FaultyRun(ids, faults, spec, s, stored[..n]), stored[n]);
      assert forall k :: 0 <= k < n ==> stored[..n][..k] == stored[..k] && stored[..n][k] == stored[k];
    }
  }

  /** What faults can spoil, exactly: after any finite run under faults, fault-free turns bring the group up to date
      if and only if they could have before the run and no turn of the run has made the group and lost its ID. */
  lemma EventuallyConvergesIff(ids: nat -> string, faults: Faults, calm: Faults, spec: Spec, s: State,
        stored: seq<bool>)
    requires Valid(ids, s.net.world) && Calm(calm)
    ensures var s' := FaultyRun(ids, faults, spec, s, stored);
            (exists n: nat :: ConvergedAfter(ids, calm, spec, s', n)) <==>
              CanConverge(spec, s) && !SomeTurnStrands(ids, faults, spec, s, stored)
  {
    FaultyRunDecides(ids, faults, spec, s, stored);
    ConvergenceReachableIff(ids, calm, spec, FaultyRun(ids, faults, spec, s, stored));
    hide FaultyRun, CanConverge, SomeTurnStrands, ConvergedAfter, Valid;
  }

  // ---------- Deletion by the driver ----------

  /** Deletion always finishes: one fault-free turn of it, from any external name, and Observe finds nothing. */
  lemma DeletionFinishes(faults: Faults, spec: Spec, s: State)
    requires Calm(faults)
    ensures var (seen, o) := Observed(faults, spec, s);
            var s' := if o.Ok? && o.value.present then AfterDelete(faults, seen).0 else seen;
            Observed(faults, spec, s').1 == Ok(MISSING)
  {
    CalmObservePresentIff(faults, spec, s);
    var seen := Observed(faults, spec, s).0;
    AnsweredObserve(faults, spec, s);
    AnsweredObserve(faults, spec, seen);
    CalmObservePresentIff(faults, spec, seen);
    if s.meta.externalName != "" { DeleteThenGone(faults, spec, seen); }
    hide Observed, AfterDelete, IndexOf;
  }
}
