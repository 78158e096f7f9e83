/**
 Whole runs of the Conversation controller under the reconcile driver: safety (no duplicate channel,
 however many responses and annotation writes are lost), exactly when a run reaches an existing
 resource, and deletion.
 */
module ConversationRuns {
  import opened Outcomes
  import opened Errors
  import opened Types
  import opened Pagination
  import opened Runtime
  import opened ConversationApi
  import opened Conversation

  // ---------- The driver ----------

  /** One reconcile: whether the object is being deleted, and whether the external name the controller
      left in memory gets stored. */
  datatype Turn = Turn(deleting: bool, stored: bool)

  /** Observe; then delete if deleting, create if missing, update if out of date. */
  function Reconcile(srv: Server, faults: Faults, spec: Spec, s: State, turn: Turn): State {
    var (seen, o) := Observed(faults, spec, s);
    var after :=
      if o.Err? then seen
      else if turn.deleting then (if o.value.present then AfterDelete(srv, faults, seen).0 else seen)
      else if !o.value.present then AfterCreate(srv, faults, spec, seen).0
      else if !o.value.upToDate then AfterUpdate(srv, faults, spec, seen).0
      else seen;
    if turn.stored then after else after.(meta := after.meta.(externalName := s.meta.externalName))
  }

  ghost function Run(srv: Server, faults: Faults, spec: Spec, s: State, turns: seq<Turn>): State {
    if turns == [] then s
    else Reconcile(srv, faults, spec, Run(srv, faults, spec, s, turns[..|turns| - 1]), turns[|turns| - 1])
  }

  // ---------- No duplicate channels ----------

  /** What the resource may do to a workspace: keep every channel's place and ID, keep names unique and IDs
      those that Slack gives, and add at most one channel, which it does only while no channel holds the
      desired name, and after which one does. */
  ghost predicate Evolves(srv: Server, spec: Spec, ws: Workspace, ws': Workspace) {
    && |ws| <= |ws'| <= |ws| + 1
    && (forall j :: 0 <= j < |ws| ==> ws'[j].id == ws[j].id)
    && (UniqueNames(ws) ==> UniqueNames(ws'))
    && (Valid(srv, ws) ==> Valid(srv, ws'))
    && (Taken(ws, spec.name) ==> Taken(ws', spec.name) && |ws'| == |ws|)
    && (|ws'| > |ws| ==> Taken(ws', spec.name))
  }

  lemma EvolvesChains(srv: Server, spec: Spec, a: Workspace, b: Workspace, c: Workspace)
    requires Evolves(srv, spec, a, b) && Evolves(srv, spec, b, c)
    ensures Evolves(srv, spec, a, c)
  {
    hide UniqueNames, Taken, Valid;
  }

  lemma EvolvesNot(srv: Server, spec: Spec, ws: Workspace)
    ensures Evolves(srv, spec, ws, ws)
  {
  }

  lemma WriteEvolves(srv: Server, spec: Spec, ws: Workspace, w: Write)
    requires w.Rename? ==> w.name == spec.name
    ensures Evolves(srv, spec, ws, Apply(srv, ws, w).0)
  {
    WriteIsLocal(srv, ws, w);
    var ws' := Apply(srv, ws, w).0;
    if j :| 0 <= j < |ws| && ws[j].name == spec.name {
      assert ws'[j].name == spec.name;
    }
  }

  lemma CreationEvolves(srv: Server, spec: Spec, ws: Workspace, isPrivate: bool)
    ensures Evolves(srv, spec, ws, Created(srv, ws, spec.name, isPrivate).0)
  {
    var ws' := Created(srv, ws, spec.name, isPrivate).0;
    if ws' != ws {
      assert ws'[|ws|].name == spec.name;
    }
  }

  lemma {:induction false} WritesEvolve(srv: Server, faults: Faults, spec: Spec, net: Net<Workspace>,
        writes: seq<Write>)
    requires forall k :: 0 <= k < |writes| && writes[k].Rename? ==> writes[k].name == spec.name
    ensures Evolves(srv, spec, net.world, RunWrites(srv, faults, net, writes).0.world)
    decreases |writes|
  {
    EvolvesNot(srv, spec, net.world);
    if writes != [] {
      var (net', r) := Transit(faults, net, Apply(srv, net.world, writes[0]));
      WriteEvolves(srv, spec, net.world, writes[0]);
      if r.Ok? {
        WritesEvolve(srv, faults, spec, net', writes[1..]);
        EvolvesChains(srv, spec, net.world, net'.world, RunWrites(srv, faults, net', writes[1..]).0.world);
      }
    }
  }

  /** Observing changes nothing in Slack, and keeps the external name or adopts a listed channel's ID. */
  lemma ObserveOnlyReads(faults: Faults, spec: Spec, s: State)
    ensures var s' := Observed(faults, spec, s).0;
            && s'.net.world == s.net.world
            && (s'.meta.externalName == s.meta.externalName
                || exists k :: 0 <= k < |s.net.world| && s.net.world[k].id == s'.meta.externalName
                         && s.net.world[k].name == s.meta.externalName)
  {
    FirstNamedHolds(s.net.world, s.meta.externalName);
    hide IsUpToDate, FirstNamed, IndexOf;
  }

  lemma CreateEvolves(srv: Server, faults: Faults, spec: Spec, s: State)
    ensures Evolves(srv, spec, s.net.world, AfterCreate(srv, faults, spec, s).0.net.world)
  {
    var ws := s.net.world;
    var (net, r) := Transit(faults, s.net, Created(srv, ws, spec.name, spec.isPrivate.GetOr(false)));
    EvolvesNot(srv, spec, ws);
    CreationEvolves(srv, spec, ws, spec.isPrivate.GetOr(false));
    if r.Ok? {
      var writes := Furnish(spec, r.value.id);
      WritesEvolve(srv, faults, spec, net, writes);
      EvolvesChains(srv, spec, ws, net.world, RunWrites(srv, faults, net, writes).0.world);
    }
    hide Evolves, Created, FirstNamed, RunWrites;
  }

  lemma UpdateEvolves(srv: Server, faults: Faults, spec: Spec, s: State)
    ensures Evolves(srv, spec, s.net.world, AfterUpdate(srv, faults, spec, s).0.net.world)
  {
    var ws, id := s.net.world, s.meta.externalName;
    var (net, joined) := Transit(faults, s.net, Apply(srv, ws, Join(id)));
    WriteEvolves(srv, spec, ws, Join(id));
    EvolvesNot(srv, spec, ws);
    if joined.Ok? {
      var (net', info) := Transit(faults, net, Info(net.world, id));
      if info.Ok? {
        WritesEvolve(srv, faults, spec, net', Plan(spec, id, info.value));
        EvolvesChains(srv, spec, ws, net'.world, RunWrites(srv, faults, net', Plan(spec, id, info.value)).0.world);
      }
    }
    hide Evolves, Apply, RunWrites, Plan;
  }

  lemma ReconcileEvolves(srv: Server, faults: Faults, spec: Spec, s: State, turn: Turn)
    ensures Evolves(srv, spec, s.net.world, Reconcile(srv, faults, spec, s, turn).net.world)
  {
    var (seen, o) := Observed(faults, spec, s);
    ObserveOnlyReads(faults, spec, s);
    EvolvesNot(srv, spec, s.net.world);
    CreateEvolves(srv, faults, spec, seen);
    UpdateEvolves(srv, faults, spec, seen);
    WriteEvolves(srv, spec, s.net.world, Archive(seen.meta.externalName));
    hide Evolves, Observed, AfterCreate, AfterUpdate, Apply;
  }

  /** No duplicate creation: over every run, with any calls failed, any responses lost and any external
      names not stored, at most one channel is created, none if the desired name was held at the start;
      channel IDs stay put, and unique names stay unique, so never two channels hold the desired name. */
  lemma {:induction false} AtMostOneChannelCreated(srv: Server, faults: Faults, spec: Spec, s: State, turns: seq<Turn>)
    ensures Evolves(srv, spec, s.net.world, Run(srv, faults, spec, s, turns).net.world)
    decreases |turns|
  {
    EvolvesNot(srv, spec, s.net.world);
    if turns != [] {
      var before := Run(srv, faults, spec, s, turns[..|turns| - 1]);
      var last := turns[|turns| - 1];
      AtMostOneChannelCreated(srv, faults, spec, s, turns[..|turns| - 1]);
      ReconcileEvolves(srv, faults, spec, before, last);
      EvolvesChains(srv, spec, s.net.world, before.net.world, Reconcile(srv, faults, spec, before, last).net.world);
      hide Evolves, Reconcile;
    }
  }

  /** The external name is the ID of a channel that holds the desired name. */
  ghost predicate NamesHolder(spec: Spec, s: State) {
    exists k :: 0 <= k < |s.net.world| && s.net.world[k].id == s.meta.externalName && s.net.world[k].name == spec.name
  }

  /** Nothing but topics and purposes differs. */
  ghost predicate SameChannels(ws: Workspace, ws': Workspace) {
    |ws'| == |ws| && forall j :: 0 <= j < |ws| ==>
      ws'[j].id == ws[j].id && ws'[j].name == ws[j].name && ws'[j].isArchived == ws[j].isArchived
  }

  lemma FurnishingWriteKeeps(srv: Server, ws: Workspace, w: Write)
    requires !w.Rename? && !w.Archive?
    ensures SameChannels(ws, Apply(srv, ws, w).0)
  {
  }

  lemma {:induction false} FurnishingKeepsChannels(srv: Server, faults: Faults, net: Net<Workspace>, writes: seq<Write>)
    requires forall k :: 0 <= k < |writes| ==> !writes[k].Rename? && !writes[k].Archive?
    ensures SameChannels(net.world, RunWrites(srv, faults, net, writes).0.world)
    decreases |writes|
  {
    hide Apply;
    if writes != [] {
      var (net', r) := Transit(faults, net, Apply(srv, net.world, writes[0]));
      FurnishingWriteKeeps(srv, net.world, writes[0]);
      if r.Ok? {
        FurnishingKeepsChannels(srv, faults, net', writes[1..]);
      }
    }
  }

  /** Whatever is lost, a Create that changes the external name or reports success leaves it the ID of a
      channel holding the desired name. */
  lemma CreateNamesTheHolder(srv: Server, faults: Faults, spec: Spec, s: State)
    ensures var (s', r) := AfterCreate(srv, faults, spec, s);
            r.None? || s'.meta.externalName != s.meta.externalName ==> NamesHolder(spec, s')
  {
    var ws := s.net.world;
    var (net, r) := Transit(faults, s.net, Created(srv, ws, spec.name, spec.isPrivate.GetOr(false)));
    FirstNamedHolds(net.world, spec.name);
    if r.Ok? {
      var writes := Furnish(spec, r.value.id);
      FurnishingKeepsChannels(srv, faults, net, writes);
      assert net.world[|ws|].id == r.value.id && net.world[|ws|].name == spec.name;
    }
    hide Created, FirstNamed, RunWrites;
  }

  /** With unique names, which every run keeps, the channel so named is the only one with that name. */
  lemma HolderIsUnique(srv: Server, faults: Faults, spec: Spec, s: State, turns: seq<Turn>, j: nat, k: nat)
    requires UniqueNames(s.net.world)
    ensures var ws := Run(srv, faults, spec, s, turns).net.world;
            j < |ws| && k < |ws| && ws[j].name == spec.name && ws[k].name == spec.name ==> j == k
  {
    AtMostOneChannelCreated(srv, faults, spec, s, turns);
    hide Run;
  }

  /** The reads that an Observe makes of a resource with an external name: by ID the one that describes the channel;
      by name the search, and then that one if the search finds a channel. */
  function ReadsToMake(ws: Workspace, externalName: string): nat {
    if externalName == "" then 0
    else if IsChannelID(externalName) || FirstNamed(ws, externalName).None? then 1
    else 2
  }

  /** Exactly when an Observe fails: one of the reads it makes is not answered; its error has the cause of that one
      inside, and no status or condition is recorded. */
  lemma ObserveFailsIff(srv: Server, faults: Faults, spec: Spec, s: State)
    requires Valid(srv, s.net.world) && FaultsSpare(faults, {"channel_not_found"})
    ensures var (s', o) := Observed(faults, spec, s);
            var first := s.net.calls;
            var toMake := ReadsToMake(s.net.world, s.meta.externalName);
            var lost := if toMake > 0 && !faults(first).Deliver? then 0 else 1;
            && (o.Err? <==> lost < toMake && !faults(first + lost).Deliver?)
            && (o.Err? ==>
                  && o.error.Wrapped? && o.error.inner == faults(first + lost).cause
                  && s'.meta.conditions == s.meta.conditions && s'.meta.atProvider == s.meta.atProvider)
            && (o.Ok? ==> s'.net.calls == first + toMake)
  {
    if s.meta.externalName != "" {
      AdoptionAnswers(srv, faults, s);
      var (s', adopted) := Adopt(faults, s);
      if adopted == Ok(true) { InspectionAnswers(faults, spec, s'); }
    }
    hide Adopt, Inspect, FirstNamed, IsChannelID, Valid, FaultsSpare;
  }

  lemma AdoptionAnswers(srv: Server, faults: Faults, s: State)
    requires Valid(srv, s.net.world)
    ensures var (s', adopted) := Adopt(faults, s);
            var (found, call) := (FirstNamed(s.net.world, s.meta.externalName), s.net.calls);
            && s'.net.world == s.net.world
            && s'.meta.conditions == s.meta.conditions && s'.meta.atProvider == s.meta.atProvider
            && if IsChannelID(s.meta.externalName) then s' == s && adopted == Ok(true)
               else if faults(call).Deliver? then s'.net.calls == call + 1 && adopted == Ok(found.Some?)
               else adopted.Err? && adopted.error.Wrapped? && adopted.error.inner == faults(call).cause
  {
    hide FirstNamed, IsChannelID;
  }

  lemma InspectionAnswers(faults: Faults, spec: Spec, s: State)
    requires FaultsSpare(faults, {"channel_not_found"})
    ensures var (s', o) := Inspect(faults, spec, s);
            && s'.net.calls == s.net.calls + 1 && (o.Err? <==> !faults(s.net.calls).Deliver?)
            && (o.Err? ==>
                  && o.error.Wrapped? && o.error.inner == faults(s.net.calls).cause
                  && s'.meta.conditions == s.meta.conditions && s'.meta.atProvider == s.meta.atProvider)
  {
    assert "channel_not_found" in {"channel_not_found"};
    hide IsUpToDate, IndexOf;
  }

  /** Exactly when a Delete fails: Slack answers that the channel is archived already, or does not answer; its error
      has Slack's answer or the cause inside. */
  lemma DeleteFailsIff(srv: Server, faults: Faults, s: State)
    requires s.meta.externalName != ""
    ensures var (s', r) := AfterDelete(srv, faults, s);
            var fault := faults(s.net.calls);
            var (ws, k) := (s.net.world, IndexOf(s.net.world, s.meta.externalName));
            && s'.meta == s.meta
            && (r.Some? <==> if fault.Deliver? then k < |ws| && ws[k].isArchived
                             else !HasCode(fault.cause, "channel_not_found"))
            && (r.Some? ==>
                  r.value.Wrapped? && if fault.Deliver? then HasCode(r.value, "already_archived")
                                      else r.value.inner == fault.cause)
  {
    ArchiveEffect(srv, s.net.world, s.meta.externalName);
    hide IndexOf;
  }

  // ---------- Exactly when a run reaches an existing resource ----------

  /** The channel an external name points at: an ID by identity, anything else by name. */
  ghost function PointsAt(ws: Workspace, externalName: string): Option<Channel> {
    if externalName == "" then None
    else if !IsChannelID(externalName) then FirstNamed(ws, externalName)
    else if IndexOf(ws, externalName) < |ws| then Some(ws[IndexOf(ws, externalName)])
    else None
  }

  predicate Live(c: Option<Channel>) {
    c.Some? && !c.value.isArchived
  }

  /** A fault-free Observe reports the resource present exactly when the external name points at a
      channel that is not archived, and never fails. */
  lemma CalmObservePresentIff(srv: Server, faults: Faults, spec: Spec, s: State)
    requires Calm(faults) && Valid(srv, s.net.world)
    ensures var (s', o) := Observed(faults, spec, s);
            && o.Ok? && (o.value.present <==> Live(PointsAt(s.net.world, s.meta.externalName)))
            && s'.net.world == s.net.world
            && (s.meta.externalName != "" ==>
                  PointsAt(s.net.world, s'.meta.externalName) == PointsAt(s.net.world, s.meta.externalName))
  {
    var ws, name := s.net.world, s.meta.externalName;
    if name != "" && !IsChannelID(name) {
      FirstNamedHolds(ws, name);
      if FirstNamed(ws, name).Some? {
        var k :| 0 <= k < |ws| && ws[k] == FirstNamed(ws, name).value;
        IndexOfValid(srv, ws, k);
        assert IsChannelID(ws[k].id);
      }
    }
    hide IsUpToDate, FirstNamed;
  }

  /** A fault-free Observe changes the conditions only to mark a live channel available, or to report an
      unknown ID as not found. */
  lemma CalmObserveConditions(srv: Server, faults: Faults, spec: Spec, s: State)
    requires Calm(faults) && Valid(srv, s.net.world)
    ensures var target := PointsAt(s.net.world, s.meta.externalName);
            var (before, after) := (s.meta, Observed(faults, spec, s).0.meta);
            if Live(target) then
              && after.conditions == before.conditions[Ready := Condition(true, "Available", "")]
              && after.atProvider == Status(target.value.id, false, target.value.numMembers, target.value.created)
            else
              && after.atProvider == before.atProvider
              && after.conditions ==
                   if target.None? && IsChannelID(before.externalName) then
                     before.conditions[Synced := Condition(false, "NotFound", "channel not found in Slack")]
                   else before.conditions
  {
    var ws, name := s.net.world, s.meta.externalName;
    if !IsChannelID(name) && FirstNamed(ws, name).Some? { HolderIsPointedAt(srv, ws, name); }
    assert forall k :: 0 <= k < |ws| ==> IsChannelID(ws[k].id);
    FirstNamedHolds(ws, name);
    hide IsUpToDate, FirstNamed;
  }

  /** An external name that is the name of a live channel, and no channel's ID: a fault-free Observe adopts
      that channel exactly when the first character does not pass for an ID's; otherwise it reports the
      resource missing and not found. */
  lemma NameIsAdoptedIff(srv: Server, faults: Faults, spec: Spec, s: State)
    requires Calm(faults) && Valid(srv, s.net.world)
    requires var (ws, name) := (s.net.world, s.meta.externalName);
             name != "" && Live(FirstNamed(ws, name)) && IndexOf(ws, name) == |ws|
    ensures var (s', o) := Observed(faults, spec, s);
            var (holder, name) := (FirstNamed(s.net.world, s.meta.externalName).value, s.meta.externalName);
            && o.Ok? && (o.value.present <==> name[0] !in "CDG")
            && s'.meta.externalName == (if name[0] !in "CDG" then holder.id else name)
            && (name[0] in "CDG" ==>
                  Synced in s'.meta.conditions && s'.meta.conditions[Synced] == NOT_FOUND && o == Ok(MISSING))
  {
    var (ws, name) := (s.net.world, s.meta.externalName);
    HolderIsPointedAt(srv, ws, name);
    CalmObservePresentIff(srv, faults, spec, s);
    CalmObserveConditions(srv, faults, spec, s);
    ObserveShape(faults, spec, s);
    hide IsUpToDate, FirstNamed, IndexOf, Valid;
  }

  /** Such a name: the documented test takes `C-team` for a name, the code for an ID that does not exist. */
  lemma NameTakenForAnID(srv: Server, faults: Faults, spec: Spec, meta: Meta<Status>)
    requires Calm(faults) && Valid(srv, []) && srv.ids(0) != "C-team" && meta.externalName == "C-team"
    ensures var s := State(meta, Net([Channel(srv.ids(0), "C-team", false, false, "", "", 1, 0)], 0));
            !IsDocumentedChannelID("C-team") && Observed(faults, spec, s).1 == Ok(MISSING)
  {
    var c := Channel(srv.ids(0), "C-team", false, false, "", "", 1, 0);
    assert !IsAlphanumeric("C-team"[1]);
    assert FirstNamed([c], "C-team") == Some(c);
    assert [c][1..] == [];
    NameIsAdoptedIff(srv, faults, spec, State(meta, Net([c], 0)));
    hide FirstNamed, Observed;
  }

  /** The condition a caller can check before the run. */
  ghost predicate CanExist(spec: Spec, s: State) {
    || Live(PointsAt(s.net.world, s.meta.externalName))
    || FirstNamed(s.net.world, spec.name).None?
    || Live(FirstNamed(s.net.world, spec.name))
  }

  ghost function CalmRun(srv: Server, faults: Faults, spec: Spec, s: State, n: nat): State {
    if n == 0 then s else Reconcile(srv, faults, spec, CalmRun(srv, faults, spec, s, n - 1), Turn(false, true))
  }

  ghost predicate PresentAfter(srv: Server, faults: Faults, spec: Spec, s: State, n: nat) {
    Observed(faults, spec, CalmRun(srv, faults, spec, s, n)).1 == Ok(Observation(true, true)) ||
    Observed(faults, spec, CalmRun(srv, faults, spec, s, n)).1 == Ok(Observation(true, false))
  }

  /** Create, when the desired name is held: the first holder is adopted, success is reported, and nothing
      but the external name changes. */
  lemma CreateAdopts(srv: Server, faults: Faults, spec: Spec, s: State)
    requires Calm(faults) && FirstNamed(s.net.world, spec.name).Some?
    ensures var (s', r) := AfterCreate(srv, faults, spec, s);
            && s'.net.world == s.net.world && r.None?
            && s'.meta == s.meta.(externalName := FirstNamed(s.net.world, spec.name).value.id)
  {
    FirstNamedHolds(s.net.world, spec.name);
    hide FirstNamed;
  }

  /** Exactly when Create reports a name conflict: Slack answered that the name is taken and the search for
      its holder was not answered. No other Create, successful or not, touches a condition, save one whose
      first call fails with an error that itself carries the code `name_taken`. */
  lemma CreateReportsConflictIff(srv: Server, faults: Faults, spec: Spec, s: State)
    requires faults(s.net.calls).Deliver? || !HasCode(faults(s.net.calls).cause, "name_taken")
    ensures var (s', r) := AfterCreate(srv, faults, spec, s);
            var answered := Taken(s.net.world, spec.name) && faults(s.net.calls).Deliver?;
            && (answered ==> (r.Some? <==> !faults(s.net.calls + 1).Deliver?))
            && (answered && r.Some? ==> r.value.Wrapped? && HasCode(r.value, "name_taken"))
            && (!faults(s.net.calls).Deliver? ==>
                  r.Some? && r.value.Wrapped? && r.value.inner == faults(s.net.calls).cause)
            && s'.meta.conditions ==
                 (if answered && !faults(s.net.calls + 1).Deliver? then
                    s.meta.conditions[Synced := Condition(false, "NameConflict", "channel name is already taken")]
                  else s.meta.conditions)
            && s'.meta.atProvider == s.meta.atProvider
  {
    FirstNamedHolds(s.net.world, spec.name);
    var (net, r) := Transit(faults, s.net, Created(srv, s.net.world, spec.name, spec.isPrivate.GetOr(false)));
    if r.Ok? { NoRenameFails(srv, faults, net, Furnish(spec, r.value.id)); }
    hide FirstNamed, RunWrites, Taken;
  }

  lemma HolderIsPointedAt(srv: Server, ws: Workspace, name: string)
    requires Valid(srv, ws) && FirstNamed(ws, name).Some?
    ensures PointsAt(ws, FirstNamed(ws, name).value.id) == FirstNamed(ws, name)
  {
    FirstNamedHolds(ws, name);
    var k :| 0 <= k < |ws| && ws[k] == FirstNamed(ws, name).value;
    IndexOfValid(srv, ws, k);
    assert IsChannelID(srv.ids(k));
    hide FirstNamed;
  }

  /** One turn from a state that cannot reach existence: the name is held by an archived channel, Create
      adopts that channel and reports success, and Slack is not changed at all. */
  lemma StuckTurn(srv: Server, faults: Faults, spec: Spec, s: State)
    requires Calm(faults) && Valid(srv, s.net.world) && !CanExist(spec, s)
    ensures var s' := Reconcile(srv, faults, spec, s, Turn(false, true));
            && s'.net.world == s.net.world && !CanExist(spec, s')
            && s'.meta.externalName == FirstNamed(s.net.world, spec.name).value.id
    ensures AfterCreate(srv, faults, spec, Observed(faults, spec, s).0).1.None?
  {
    hide Observed, FirstNamed, PointsAt, AfterCreate, AfterUpdate, AfterDelete, Valid;
    CalmObservePresentIff(srv, faults, spec, s);
    CreateAdopts(srv, faults, spec, Observed(faults, spec, s).0);
    HolderIsPointedAt(srv, s.net.world, spec.name);
  }

  /** One turn from a state that can: afterwards the external name points at a live channel. */
  lemma CreateOrAdoptTurn(srv: Server, faults: Faults, spec: Spec, s: State)
    requires Calm(faults) && Valid(srv, s.net.world)
    requires !Live(PointsAt(s.net.world, s.meta.externalName)) && CanExist(spec, s)
    ensures var s' := Reconcile(srv, faults, spec, s, Turn(false, true));
            Valid(srv, s'.net.world) && Live(PointsAt(s'.net.world, s'.meta.externalName))
  {
    var ws := s.net.world;
    CalmObservePresentIff(srv, faults, spec, s);
    var seen := Observed(faults, spec, s).0;
    FirstNamedHolds(ws, spec.name);
    hide Observed;
    if Taken(ws, spec.name) {
      CreateAdopts(srv, faults, spec, seen);
      HolderIsPointedAt(srv, ws, spec.name);
    } else {
      CreateAdds(srv, faults, spec, seen);
    }
    hide FirstNamed, PointsAt, AfterCreate;
  }

  lemma CreateAdds(srv: Server, faults: Faults, spec: Spec, s: State)
    requires Calm(faults) && Valid(srv, s.net.world) && !Taken(s.net.world, spec.name)
    ensures var s' := AfterCreate(srv, faults, spec, s).0;
            Valid(srv, s'.net.world) && Live(PointsAt(s'.net.world, s'.meta.externalName))
  {
    var ws := s.net.world;
    var (net, r) := Transit(faults, s.net, Created(srv, ws, spec.name, spec.isPrivate.GetOr(false)));
    var c := r.value;
    assert net.world[|ws|] == c;
    CreationEvolves(srv, spec, ws, spec.isPrivate.GetOr(false));
    var writes := Furnish(spec, c.id);
    FurnishingKeepsChannels(srv, faults, net, writes);
    hide RunWrites, Taken, Furnish, Created;
    var ws' := RunWrites(srv, faults, net, writes).0.world;
    LiveByID(srv, net.world, ws', |ws|);
  }

  lemma LiveByID(srv: Server, ws: Workspace, ws': Workspace, k: nat)
    requires Valid(srv, ws) && SameChannels(ws, ws') && k < |ws| && !ws[k].isArchived
    ensures Valid(srv, ws') && Live(PointsAt(ws', ws[k].id))
  {
    IndexOfValid(srv, ws', k);
    ListedIsChannelID(srv, ws', k);
    hide IndexOf;
  }

  lemma StuckIsAbsent(srv: Server, faults: Faults, spec: Spec, s: State)
    requires Calm(faults) && Valid(srv, s.net.world) && !CanExist(spec, s)
    ensures Observed(faults, spec, s).1.Ok? && !Observed(faults, spec, s).1.value.present
  {
    CalmObservePresentIff(srv, faults, spec, s);
    hide Observed, PointsAt, FirstNamed, Valid;
  }

  lemma {:induction false} StuckForever(srv: Server, faults: Faults, spec: Spec, s: State, n: nat)
    requires Calm(faults) && Valid(srv, s.net.world) && !CanExist(spec, s)
    ensures var s' := CalmRun(srv, faults, spec, s, n);
            s'.net.world == s.net.world && !CanExist(spec, s') && !PresentAfter(srv, faults, spec, s, n)
    decreases n
  {
    hide Observed, Reconcile, CanExist, Valid;
    if n > 0 {
      StuckForever(srv, faults, spec, s, n - 1);
      StuckTurn(srv, faults, spec, CalmRun(srv, faults, spec, s, n - 1));
    }
    StuckIsAbsent(srv, faults, spec, CalmRun(srv, faults, spec, s, n));
  }

  /** Exact reachability: a fault-free run ever sees the resource present if and only if the external name
      already points at a live channel, or the desired name is free, or its first holder is not
      archived. Otherwise every state of the run is stuck and the workspace never changes. */
  lemma PresenceReachableIff(srv: Server, faults: Faults, spec: Spec, s: State)
    requires Calm(faults) && Valid(srv, s.net.world)
    ensures (exists n: nat :: PresentAfter(srv, faults, spec, s, n)) <==> CanExist(spec, s)
    ensures !CanExist(spec, s) ==> forall n: nat :: CalmRun(srv, faults, spec, s, n).net.world == s.net.world
  {
    if CanExist(spec, s) {
      CalmObservePresentIff(srv, faults, spec, s);
      if Live(PointsAt(s.net.world, s.meta.externalName)) {
        assert CalmRun(srv, faults, spec, s, 0) == s;
        assert PresentAfter(srv, faults, spec, s, 0);
      } else {
        CreateOrAdoptTurn(srv, faults, spec, s);
        var s' := Reconcile(srv, faults, spec, s, Turn(false, true));
        assert CalmRun(srv, faults, spec, s, 1) == s' by { assert CalmRun(srv, faults, spec, s, 0) == s; }
        CalmObservePresentIff(srv, faults, spec, s');
        assert PresentAfter(srv, faults, spec, s, 1);
      }
    } else {
      forall n: nat ensures !PresentAfter(srv, faults, spec, s, n)
        ensures CalmRun(srv, faults, spec, s, n).net.world == s.net.world
      {
        StuckForever(srv, faults, spec, s, n);
      }
    }
  }

  /** Exactly that happens to a workspace whose only channel is archived and has the desired name: Create
      reports success and the resource never exists. */
  lemma ArchivedHolderBlocks(srv: Server, faults: Faults, spec: Spec, meta: Meta<Status>)
    requires Calm(faults) && Valid(srv, []) && meta.externalName == ""
    ensures var s := State(meta, Net([Channel(srv.ids(0), spec.name, false, true, "", "", 1, 0)], 0));
            AfterCreate(srv, faults, spec, s).1.None? && forall n: nat :: !PresentAfter(srv, faults, spec, s, n)
  {
    var c := Channel(srv.ids(0), spec.name, false, true, "", "", 1, 0);
    var s := State(meta, Net([c], 0));
    assert FirstNamed([c], spec.name) == Some(c);
    CreateAdopts(srv, faults, spec, s);
    PresenceReachableIff(srv, faults, spec, s);
    hide PresentAfter, AfterCreate;
  }

  /** What an external name points at once one more channel has been added, under a name that was free. */
  lemma PointsAtGrown(srv: Server, ws: Workspace, c: Channel, externalName: string)
    requires Valid(srv, ws + [c]) && !Taken(ws, c.name)
    ensures Valid(srv, ws) && FirstNamed(ws + [c], c.name) == Some(c) && PointsAt(ws + [c], c.id) == Some(c)
    ensures PointsAt(ws + [c], externalName) in {PointsAt(ws, externalName), Some(c)}
    ensures PointsAt(ws, externalName).Some? ==> PointsAt(ws + [c], externalName) == PointsAt(ws, externalName)
  {
    var ws' := ws + [c];
    assert forall k :: 0 <= k < |ws| ==> ws'[k] == ws[k];
    assert ws'[|ws|] == c;
    FirstNamedHolds(ws, c.name);
    FirstNamedAppend(ws, [c], c.name);
    FirstNamedAppend(ws, [c], externalName);
    HolderIsPointedAt(srv, ws', c.name);
    assert [c][1..] == [];
    var k, k' := IndexOf(ws, externalName), IndexOf(ws', externalName);
    assert k < |ws| ==> ws'[k].id == externalName;
    assert k' < |ws| ==> ws[k'].id == externalName;
    hide IndexOf, Valid, Taken;
  }

  /** A Create of a free name that takes effect while its response is lost does no harm: it has added one
      channel, and fault-free turns add no other. From any external name for which the driver creates, one
      such turn adopts the channel, and the resource is present. */
  lemma LostCreateIsAdopted(srv: Server, faults: Faults, lossy: Faults, spec: Spec, s: State)
    requires Calm(faults) && Valid(srv, s.net.world) && !Taken(s.net.world, spec.name) && lossy(s.net.calls).Lose?
    requires !Live(PointsAt(s.net.world, s.meta.externalName))
    ensures var (ws, s1) := (s.net.world, AfterCreate(srv, lossy, spec, s).0);
            var s2 := Reconcile(srv, faults, spec, s1, Turn(false, true));
            && |s1.net.world| == |ws| + 1 == |s2.net.world| && s1.net.world[..|ws|] == ws
            && s1.net.world[|ws|].name == spec.name
            && s2.meta.externalName == s1.net.world[|ws|].id && PresentAfter(srv, faults, spec, s1, 1)
  {
    var ws, s1 := s.net.world, AfterCreate(srv, lossy, spec, s).0;
    var c := Created(srv, ws, spec.name, spec.isPrivate.GetOr(false)).1.value;
    LostCreateAdds(srv, lossy, spec, s);
    hide AfterCreate, Taken, FirstNamed, Created;
    PointsAtGrown(srv, ws, c, s.meta.externalName);
    AdoptionTurn(srv, faults, spec, s1, c);
    hide Reconcile, Valid, Observed;
    var s2 := Reconcile(srv, faults, spec, s1, Turn(false, true));
    assert CalmRun(srv, faults, spec, s1, 1) == s2 by { assert CalmRun(srv, faults, spec, s1, 0) == s1; }
    CalmObservePresentIff(srv, faults, spec, s2);
    var _ := Observed(faults, spec, s2).1.value.upToDate;
  }

  lemma LostCreateAdds(srv: Server, lossy: Faults, spec: Spec, s: State)
    requires Valid(srv, s.net.world) && !Taken(s.net.world, spec.name) && lossy(s.net.calls).Lose?
    ensures var (ws, s1) := (s.net.world, AfterCreate(srv, lossy, spec, s).0);
            var c := Created(srv, ws, spec.name, spec.isPrivate.GetOr(false)).1.value;
            && s1.net.world == ws + [c] && Valid(srv, ws + [c]) && c.name == spec.name && !c.isArchived
            && s1.meta.externalName in {s.meta.externalName, c.id}
  {
    var ws := s.net.world;
    var c := Created(srv, ws, spec.name, spec.isPrivate.GetOr(false)).1.value;
    FirstNamedHolds(ws, spec.name);
    FirstNamedAppend(ws, [c], spec.name);
    assert [c][1..] == [];
    hide Taken;
  }

  /** Every channel keeps its place, its ID and its life. */
  ghost predicate SameLife(ws: Workspace, ws': Workspace) {
    |ws'| == |ws| && forall j :: 0 <= j < |ws| ==> ws'[j].id == ws[j].id && ws'[j].isArchived == ws[j].isArchived
  }

  lemma {:induction false} WritesKeepLife(srv: Server, faults: Faults, net: Net<Workspace>, writes: seq<Write>)
    requires forall k :: 0 <= k < |writes| ==> !writes[k].Archive?
    ensures SameLife(net.world, RunWrites(srv, faults, net, writes).0.world)
    decreases |writes|
  {
    if writes != [] {
      var (net', r) := Transit(faults, net, Apply(srv, net.world, writes[0]));
      assert SameLife(net.world, net'.world);
      hide Apply;
      if r.Ok? { WritesKeepLife(srv, faults, net', writes[1..]); }
    }
  }

  lemma UpdateKeepsLife(srv: Server, faults: Faults, spec: Spec, s: State)
    ensures SameLife(s.net.world, AfterUpdate(srv, faults, spec, s).0.net.world)
    ensures AfterUpdate(srv, faults, spec, s).0.meta.externalName == s.meta.externalName
  {
    var ws, id := s.net.world, s.meta.externalName;
    var (net, joined) := Transit(faults, s.net, Apply(srv, ws, Join(id)));
    assert SameLife(ws, net.world);
    if joined.Ok? {
      var (net', info) := Transit(faults, net, Info(net.world, id));
      if info.Ok? { WritesKeepLife(srv, faults, net', Plan(spec, id, info.value)); }
    }
    hide Apply, RunWrites;
  }

  lemma LifeKeepsTarget(srv: Server, ws: Workspace, ws': Workspace, id: string)
    requires Valid(srv, ws) && SameLife(ws, ws') && IsChannelID(id)
    ensures Valid(srv, ws') && (Live(PointsAt(ws', id)) <==> Live(PointsAt(ws, id)))
  {
    SameIdsSameIndex(ws, ws', id);
    hide IndexOf;
  }

  /** One fault-free turn from a state whose one live candidate holds the desired name. */
  lemma AdoptionTurn(srv: Server, faults: Faults, spec: Spec, s: State, c: Channel)
    requires Calm(faults) && Valid(srv, s.net.world) && !c.isArchived && c.name == spec.name
    requires FirstNamed(s.net.world, spec.name) == Some(c) && PointsAt(s.net.world, c.id) == Some(c)
    requires var target := PointsAt(s.net.world, s.meta.externalName); Live(target) ==> target == Some(c)
    ensures var s' := Reconcile(srv, faults, spec, s, Turn(false, true));
            && |s'.net.world| == |s.net.world| && s'.meta.externalName == c.id
            && Valid(srv, s'.net.world) && Live(PointsAt(s'.net.world, c.id))
  {
    var (seen, o) := Observed(faults, spec, s);
    CalmObservePresentIff(srv, faults, spec, s);
    ObserveAdopts(srv, faults, spec, s);
    if o.value.present {
      UpdateKeepsLife(srv, faults, spec, seen);
      LifeKeepsTarget(srv, s.net.world, AfterUpdate(srv, faults, spec, seen).0.net.world, c.id);
    } else {
      CreateAdopts(srv, faults, spec, seen);
    }
    hide Observed, AfterUpdate, AfterCreate, AfterDelete, PointsAt, Valid, FirstNamed, IndexOf, IsChannelID;
  }

  // ---------- Deletion ----------

  /** A Delete touches at most the channel its external name is the ID of. If it reports success, or took
      effect although its response was lost, that channel is archived or does not exist. */
  lemma DeleteArchives(srv: Server, faults: Faults, s: State)
    requires FaultsSpare(faults, {"channel_not_found"})
    ensures var (s', r) := AfterDelete(srv, faults, s);
            var k := IndexOf(s.net.world, s.meta.externalName);
            && |s'.net.world| == |s.net.world| && s'.meta == s.meta
            && (forall j :: 0 <= j < |s.net.world| && j != k ==> s'.net.world[j] == s.net.world[j])
            && (s.meta.externalName != "" && k < |s.net.world| && (r.None? || s'.net.world != s.net.world) ==>
                  s'.net.world[k] == s.net.world[k].(isArchived := true))
  {
    var w := Archive(s.meta.externalName);
    WriteIsLocal(srv, s.net.world, w);
    assert "channel_not_found" in {"channel_not_found"};
  }

  /** A fault-free Delete succeeds exactly on a live channel's ID, or where there is no channel to archive.
      The next Observe finds nothing, exactly unless the external name is still a live channel's name
      rather than its ID: that channel is left as it was. */
  lemma DeleteThenGoneIff(srv: Server, faults: Faults, spec: Spec, s: State)
    requires Calm(faults) && Valid(srv, s.net.world)
    ensures var (s', r) := AfterDelete(srv, faults, s);
            var (ws, name) := (s.net.world, s.meta.externalName);
            && (r.None? <==> IsChannelID(name) && PointsAt(ws, name).Some? ==> Live(PointsAt(ws, name)))
            && (Observed(faults, spec, s').1 == Ok(MISSING) <==> IsChannelID(name) || !Live(PointsAt(ws, name)))
            && (!IsChannelID(name) ==> s'.net.world == ws)
  {
    var s' := AfterDelete(srv, faults, s).0;
    CalmDelete(srv, faults, s);
    hide AfterDelete;
    CalmObservePresentIff(srv, faults, spec, s');
    ObserveShape(faults, spec, s');
    hide Observed, FirstNamed, Valid;
  }

  lemma CalmDelete(srv: Server, faults: Faults, s: State)
    requires Calm(faults) && Valid(srv, s.net.world)
    ensures var (s', r) := AfterDelete(srv, faults, s);
            var (ws, ws', name) := (s.net.world, s'.net.world, s.meta.externalName);
            var k := IndexOf(ws, name);
            && s'.meta == s.meta && Valid(srv, ws') && IndexOf(ws', name) == k
            && (r.None? <==> IsChannelID(name) && k < |ws| ==> !ws[k].isArchived)
            && ws' == if IsChannelID(name) && k < |ws| then ws[k := ws[k].(isArchived := true)] else ws
  {
    ArchiveOutcome(srv, s.net.world, s.meta.externalName);
    hide Apply, IndexOf, Valid;
  }

  lemma ArchiveEffect(srv: Server, ws: Workspace, id: string)
    ensures var (ws', r) := Apply(srv, ws, Archive(id));
            var k := IndexOf(ws, id);
            && ws' == (if k < |ws| then ws[k := ws[k].(isArchived := true)] else ws)
            && (r.Ok? <==> k < |ws| && !ws[k].isArchived)
            && (r.Err? ==> (HasCode(r.error, "channel_not_found") <==> k == |ws|))
  {
    var k := IndexOf(ws, id);
    if k < |ws| && ws[k].isArchived {
      assert ws[k := ws[k].(isArchived := true)] == ws;
    }
    hide IndexOf;
  }

  lemma ArchiveOutcome(srv: Server, ws: Workspace, id: string)
    requires Valid(srv, ws)
    ensures var (ws', r) := Apply(srv, ws, Archive(id));
            var k := IndexOf(ws, id);
            && Valid(srv, ws') && IndexOf(ws', id) == k && (k < |ws| ==> IsChannelID(id))
            && ws' == (if k < |ws| then ws[k := ws[k].(isArchived := true)] else ws)
            && (r.Ok? <==> k < |ws| && !ws[k].isArchived)
            && (r.Err? ==> (HasCode(r.error, "channel_not_found") <==> k == |ws|))
  {
    hide Apply, IndexOf, Valid, UniqueNames, IsChannelID, HasCode;
    ArchiveEffect(srv, ws, id);
    WriteIsLocal(srv, ws, Archive(id));
    SameIdsSameIndex(ws, Apply(srv, ws, Archive(id)).0, id);
    if IndexOf(ws, id) < |ws| { ListedIsChannelID(srv, ws, IndexOf(ws, id)); }
  }

  lemma ListedIsChannelID(srv: Server, ws: Workspace, k: nat)
    requires Valid(srv, ws) && k < |ws|
    ensures IsChannelID(ws[k].id)
  {
    assert ws[k].id == srv.ids(k);
  }

  /** Archiving does not change which channel is the first with a name. */
  lemma {:induction false} ArchivingKeepsFirst(ws: Workspace, name: string, k: nat)
    requires k < |ws| && forall j :: 0 <= j < k ==> ws[j].id != ws[k].id
    ensures var c := FirstNamed(ws[k := ws[k].(isArchived := true)], name);
            && (c.Some? <==> FirstNamed(ws, name).Some?)
            && (FirstNamed(ws, name) == Some(ws[k]) ==> !Live(c))
    decreases |ws|
  {
    if k == 0 {
      assert ws[k := ws[k].(isArchived := true)][1..] == ws[1..];
      FirstNamedIsListed(ws, name);
    } else if ws[0].name != name {
      ArchivingKeepsFirst(ws[1..], name, k - 1);
      assert ws[k := ws[k].(isArchived := true)][1..] == ws[1..][k - 1 := ws[1..][k - 1].(isArchived := true)];
    }
  }

  /** Deletion by the driver: one fault-free turn of a resource being deleted, whatever its external name and
      whether or not what is left in memory gets stored, after which Observe finds nothing. */
  lemma DeletionTurnRemoves(srv: Server, faults: Faults, spec: Spec, s: State, stored: bool)
    requires Calm(faults) && Valid(srv, s.net.world)
    ensures Observed(faults, spec, Reconcile(srv, faults, spec, s, Turn(true, stored))).1 == Ok(MISSING)
  {
    var (seen, o) := Observed(faults, spec, s);
    var s' := Reconcile(srv, faults, spec, s, Turn(true, stored));
    CalmObservePresentIff(srv, faults, spec, s);
    ObserveAdopts(srv, faults, spec, s);
    if o.value.present {
      CalmDelete(srv, faults, seen);
      var name := s.meta.externalName;
      var k := IndexOf(s.net.world, seen.meta.externalName);
      if !IsChannelID(name) { ArchivingKeepsFirst(s.net.world, name, k); }
      SameIdsSameIndex(s.net.world, s'.net.world, name);
    }
    hide AfterDelete, FirstNamed, IndexOf, Valid, AfterCreate, AfterUpdate, IsUpToDate;
    CalmObservePresentIff(srv, faults, spec, s');
    ObserveShape(faults, spec, s');
    hide Observed;
  }

  /** Deletion completes: after any finite run, deleting or not, with any calls failed, any responses lost and any
      external names not stored, one fault-free turn of deletion is enough. */
  lemma DeletionCompletes(srv: Server, faults: Faults, calm: Faults, spec: Spec, s: State, turns: seq<Turn>,
        stored: bool)
    requires Valid(srv, s.net.world) && Calm(calm)
    ensures var s' := Reconcile(srv, calm, spec, Run(srv, faults, spec, s, turns), Turn(true, stored));
            Observed(calm, spec, s').1 == Ok(MISSING)
  {
    AtMostOneChannelCreated(srv, faults, spec, s, turns);
    DeletionTurnRemoves(srv, calm, spec, Run(srv, faults, spec, s, turns), stored);
    hide Run, Reconcile, Observed, Valid, UniqueNames, Taken;
  }

  /** When a fault-free Observe finds the channel, the external name is left as its ID. */
  lemma ObserveAdopts(srv: Server, faults: Faults, spec: Spec, s: State)
    requires Calm(faults) && Valid(srv, s.net.world)
    ensures var target := PointsAt(s.net.world, s.meta.externalName);
            var id := Observed(faults, spec, s).0.meta.externalName;
            && (target.Some? ==>
                  && id == target.value.id && IsChannelID(id)
                  && IndexOf(s.net.world, id) < |s.net.world| && s.net.world[IndexOf(s.net.world, id)] == target.value)
            && (target.None? ==> id == s.meta.externalName)
  {
    var ws, name := s.net.world, s.meta.externalName;
    if !IsChannelID(name) && FirstNamed(ws, name).Some? { HolderIsPointedAt(srv, ws, name); }
    assert forall k :: 0 <= k < |ws| ==> IsChannelID(ws[k].id);
    FirstNamedHolds(ws, name);
    hide IsUpToDate, FirstNamed;
  }

  lemma ObserveShape(faults: Faults, spec: Spec, s: State)
    ensures var o := Observed(faults, spec, s).1; o.Ok? && !o.value.present ==> o == Ok(MISSING)
  {
    hide IsUpToDate;
  }
}
