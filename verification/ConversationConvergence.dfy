/**
 Where whole runs of the Conversation controller end: exactly when a fault-free run ever finds the resource
 present and up to date, and that no finite stretch of failed calls, lost responses and external names that
 are not stored, however long, changes the answer.
 */
module ConversationConvergence {
  import opened Outcomes
  import opened Errors
  import opened Types
  import AutoLinks
  import opened Pagination
  import opened Runtime
  import opened ConversationApi
  import opened Conversation
  import opened ConversationDrift
  import opened ConversationRuns

  /** The channel a resource will manage: the live one its external name points at, or else the one with the
      desired name, which is created if there is none; no channel at all if the holder is archived. */
  ghost function Settles(srv: Server, spec: Spec, s: State): Option<Channel> {
    var ws := s.net.world;
    var target, holder := PointsAt(ws, s.meta.externalName), FirstNamed(ws, spec.name);
    if Live(target) then target
    else if holder.None? then Some(Newborn(srv, spec, ws))
    else if Live(holder) then holder
    else None
  }

  /** Every drifted field is attainable, and a drifted name is free. */
  ghost predicate Mendable(srv: Server, spec: Spec, ws: Workspace, c: Channel) {
    && (forall f | f in Drift(spec, c) :: Attainable(srv, spec, f))
    && (Name in Drift(spec, c) ==> !Taken(ws, spec.name))
  }

  /** The condition a caller can check before the run. */
  ghost predicate CanConverge(srv: Server, spec: Spec, s: State) {
    Settles(srv, spec, s).Some? && Mendable(srv, spec, s.net.world, Settles(srv, spec, s).value)
  }

  /** Neither whether there is a channel to manage nor whether it can be mended differs. */
  ghost predicate SameFate(srv: Server, spec: Spec, s: State, s': State) {
    && (Settles(srv, spec, s).Some? <==> Settles(srv, spec, s').Some?)
    && (CanConverge(srv, spec, s) <==> CanConverge(srv, spec, s'))
  }

  // ---------- One turn under faults ----------

  /** Under any faults that no one mistakes for Slack's `channel_not_found`, an Observe that answers is right,
      and any Observe leaves the external name pointing at the same channel. */
  lemma SpareObserve(srv: Server, faults: Faults, spec: Spec, s: State)
    requires Valid(srv, s.net.world) && FaultsSpare(faults, {"channel_not_found"})
    ensures var (seen, o) := Observed(faults, spec, s);
            var target := PointsAt(s.net.world, s.meta.externalName);
            && seen.net.world == s.net.world && PointsAt(s.net.world, seen.meta.externalName) == target
            && (o.Ok? ==> (o.value.present <==> Live(target)))
            && (o.Ok? && o.value.present ==>
                  && seen.meta.externalName == target.value.id
                  && (o.value.upToDate <==> Drift(spec, target.value) == {}))
  {
    var ws, name := s.net.world, s.meta.externalName;
    if name != "" {
      var (s', adopted) := Adopt(faults, s);
      SpareAdopt(srv, faults, s);
      if adopted == Ok(true) {
        SpareInspect(faults, spec, s');
      }
    }
    hide PointsAt, Adopt, Inspect, Valid, Drift;
  }

  lemma SpareAdopt(srv: Server, faults: Faults, s: State)
    requires Valid(srv, s.net.world) && s.meta.externalName != ""
    ensures var (ws, s', adopted) := (s.net.world, Adopt(faults, s).0, Adopt(faults, s).1);
            && s'.net.world == ws && PointsAt(ws, s'.meta.externalName) == PointsAt(ws, s.meta.externalName)
            && (adopted == Ok(true) ==> IsChannelID(s'.meta.externalName))
            && (adopted == Ok(false) ==> PointsAt(ws, s.meta.externalName).None?)
  {
    var ws, name := s.net.world, s.meta.externalName;
    FirstNamedHolds(ws, name);
    if !IsChannelID(name) && FirstNamed(ws, name).Some? { HolderIsPointedAt(srv, ws, name); }
    assert forall k :: 0 <= k < |ws| ==> IsChannelID(ws[k].id);
    hide FirstNamed, IndexOf;
  }

  lemma SpareInspect(faults: Faults, spec: Spec, s: State)
    requires IsChannelID(s.meta.externalName) && FaultsSpare(faults, {"channel_not_found"})
    ensures var (seen, o) := Inspect(faults, spec, s);
            var target := PointsAt(s.net.world, s.meta.externalName);
            && seen.net.world == s.net.world && seen.meta.externalName == s.meta.externalName
            && (o.Ok? ==> (o.value.present <==> Live(target)))
            && (o.Ok? && o.value.present ==>
                  && s.meta.externalName == target.value.id
                  && (o.value.upToDate <==> Drift(spec, target.value) == {}))
  {
    assert "channel_not_found" in {"channel_not_found"};
    var k := IndexOf(s.net.world, s.meta.externalName);
    if k < |s.net.world| { UpToDateIffNoDrift(spec, s.net.world[k]); }
    hide IsUpToDate, Drift, IndexOf;
  }

  lemma SameTargetSameFate(srv: Server, spec: Spec, s: State, s': State)
    requires s'.net.world == s.net.world
    requires PointsAt(s.net.world, s'.meta.externalName) == PointsAt(s.net.world, s.meta.externalName)
    ensures SameFate(srv, spec, s, s')
  {
    hide PointsAt, FirstNamed, Mendable;
  }

  /** Create of a held name: the workspace stays, and so does the external name unless it becomes the holder's
      ID. */
  lemma HeldCreateKeepsFate(srv: Server, faults: Faults, spec: Spec, s: State)
    requires Valid(srv, s.net.world) && Taken(s.net.world, spec.name)
    requires !Live(PointsAt(s.net.world, s.meta.externalName))
    ensures var s' := AfterCreate(srv, faults, spec, s).0;
            s'.net.world == s.net.world && SameFate(srv, spec, s, s')
  {
    var ws, s' := s.net.world, AfterCreate(srv, faults, spec, s).0;
    FirstNamedHolds(ws, spec.name);
    HolderIsPointedAt(srv, ws, spec.name);
    assert s'.net.world == ws;
    assert s'.meta.externalName in {s.meta.externalName, FirstNamed(ws, spec.name).value.id};
    hide PointsAt, FirstNamed, Mendable, AfterCreate;
  }

  /** A new channel on which some of the writes of its Create have landed. */
  ghost predicate PartlyFurnished(srv: Server, spec: Spec, ws: Workspace, c: Channel) {
    && c.name == spec.name && !c.isArchived && Valid(srv, ws + [c])
    && forall f | f in {Topic, Purpose} ::
         ValueOf(c, f) == "" || (Desired(spec, f) != "" && ValueOf(c, f) == Stored(srv, spec, f))
  }

  /** Create of a free name, under any faults: nothing happened, or one channel was added. */
  lemma FreeCreateAdds(srv: Server, faults: Faults, spec: Spec, s: State) returns (added: Option<Channel>)
    requires Valid(srv, s.net.world) && !Taken(s.net.world, spec.name)
    ensures var (ws, s') := (s.net.world, AfterCreate(srv, faults, spec, s).0);
            if added.None? then s'.net.world == ws && s'.meta.externalName == s.meta.externalName
            else
              && s'.net.world == ws + [added.value] && PartlyFurnished(srv, spec, ws, added.value)
              && s'.meta.externalName in {s.meta.externalName, added.value.id}
  {
    var ws := s.net.world;
    var c := Newborn(srv, spec, ws);
    assert Created(srv, ws, spec.name, spec.isPrivate.GetOr(false)) == (ws + [c], Ok(c));
    match faults(s.net.calls)
    case Drop(_) =>
      added := None;
      FirstNamedHolds(ws, spec.name);
      hide Created, FirstNamed, Taken;
    case Lose(_) =>
      added := Some(c);
      LostCreateAdds(srv, faults, spec, s);
      hide AfterCreate, Created, FirstNamed, Taken;
    case Deliver =>
      var net := Net(ws + [c], s.net.calls + 1);
      assert Valid(srv, net.world);
      var c' := FurnishLands(srv, faults, spec, net, |ws|);
      added := Some(c');
      assert net.world[|ws| := c'] == ws + [c'];
      hide Created, FirstNamed, Taken, RunWrites, Furnish;
  }

  lemma FurnishLands(srv: Server, faults: Faults, spec: Spec, net: Net<Workspace>, k: nat) returns (c': Channel)
    requires Valid(srv, net.world) && k < |net.world|
    requires var c := net.world[k]; !c.isArchived && c.name == spec.name && c.topic == "" == c.purpose
    ensures var c := net.world[k];
            && RunWrites(srv, faults, net, Furnish(spec, c.id)).0.world == net.world[k := c']
            && c'.id == c.id && c'.name == spec.name && !c'.isArchived
            && forall f | f in {Topic, Purpose} ::
                 ValueOf(c', f) == "" || (Desired(spec, f) != "" && ValueOf(c', f) == Stored(srv, spec, f))
  {
    var c := net.world[k];
    var writes := Furnish(spec, c.id);
    IndexOfValid(srv, net.world, k);
    FurnishCoversText(spec, c.id);
    hide Furnish;
    var landed := WritesLandAsPrefix(srv, faults, spec, net, c.id, writes);
    c' := Effects(srv, c, writes[..landed]);
    forall f: Field
      ensures ValueOf(c', f) == ValueOf(c, f) || (Targets(writes, f) && ValueOf(c', f) == Stored(srv, spec, f))
    {
      EffectsByField(srv, spec, c, writes[..landed], f);
      if j :| 0 <= j < landed && Target(writes[..landed][j]) == Some(f) { assert Target(writes[j]) == Some(f); }
    }
    EffectsByField(srv, spec, c, writes[..landed], Name);
    assert ValueOf(c', Name) == spec.name;
    hide Effects, RunWrites;
  }

  /** However much of it has landed, the new channel can be mended exactly if the bare one can. */
  lemma FurnishingKeepsMendable(srv: Server, spec: Spec, ws: Workspace, c: Channel)
    requires PartlyFurnished(srv, spec, ws, c)
    ensures Mendable(srv, spec, ws + [c], c) <==> Mendable(srv, spec, ws, Newborn(srv, spec, ws))
  {
    var bare := Newborn(srv, spec, ws);
    assert AutoLinks.Strip("") == "";
    assert Topic in {Topic, Purpose} && Purpose in {Topic, Purpose};
    assert Name !in Drift(spec, c) && Name !in Drift(spec, bare);
    forall f: Field ensures !Attainable(srv, spec, f) ==> (f in Drift(spec, c) <==> f in Drift(spec, bare)) {
      assert f == Name || f in {Topic, Purpose};
    }
    hide Attainable, Drift;
    assert Mendable(srv, spec, ws + [c], c) <==> forall f :: f in Drift(spec, c) ==> Attainable(srv, spec, f);
    assert Mendable(srv, spec, ws, bare) <==> forall f :: f in Drift(spec, bare) ==> Attainable(srv, spec, f);
  }

  /** Once it is there, the new channel is the one the resource settles on. */
  lemma AddedIsSettledOn(srv: Server, spec: Spec, s: State, s': State, c: Channel)
    requires var ws := s.net.world;
             !Taken(ws, spec.name) && PartlyFurnished(srv, spec, ws, c) && !Live(PointsAt(ws, s.meta.externalName))
    requires s'.net.world == s.net.world + [c] && s'.meta.externalName in {s.meta.externalName, c.id}
    ensures SameFate(srv, spec, s, s')
  {
    var ws := s.net.world;
    PointsAtGrown(srv, ws, c, s.meta.externalName);
    FurnishingKeepsMendable(srv, spec, ws, c);
    FirstNamedHolds(ws, spec.name);
    hide PointsAt, FirstNamed, Mendable, Taken, PartlyFurnished, Newborn, Valid;
    assert Settles(srv, spec, s) == Some(Newborn(srv, spec, ws));
    assert Settles(srv, spec, s') == Some(c);
  }

  lemma UniqueIsFirst(ws: Workspace, k: nat)
    requires UniqueNames(ws) && k < |ws|
    ensures FirstNamed(ws, ws[k].name) == Some(ws[k])
  {
    FirstNamedIsFirst(ws, ws[k].name, k);
  }

  /** An Update under any faults leaves its channel the one the resource settles on, whether the external name
      in memory was stored or the one before it stands. */
  lemma UpdatedIsSettledOn(srv: Server, spec: Spec, s: State, s': State, k: nat)
    requires Valid(srv, s.net.world) && UniqueNames(s.net.world) && k < |s.net.world| == |s'.net.world|
    requires PointsAt(s.net.world, s.meta.externalName) == Some(s.net.world[k]) && !s.net.world[k].isArchived
    requires forall j :: 0 <= j < |s.net.world| && j != k ==> s'.net.world[j] == s.net.world[j]
    requires var (c, c') := (s.net.world[k], s'.net.world[k]);
             && c'.id == c.id && !c'.isArchived && c'.name in {c.name, spec.name}
             && s'.meta.externalName in {s.meta.externalName, c.id}
    requires UniqueNames(s'.net.world)
    ensures Valid(srv, s'.net.world) && Settles(srv, spec, s') == Some(s'.net.world[k])
  {
    var ws, ws', name, name' := s.net.world, s'.net.world, s.meta.externalName, s'.meta.externalName;
    var c, c' := ws[k], ws'[k];
    assert ws[k].id == srv.ids(k) && IsChannelID(c.id);
    SameIdsSameIndex(ws, ws', name');
    IndexOfValid(srv, ws, k);
    UniqueIsFirst(ws', k);
    FirstNamedHolds(ws, name);
    FirstNamedHolds(ws', name);
    if !IsChannelID(name') && FirstNamed(ws', name').Some? {
      var j :| 0 <= j < |ws'| && ws'[j].name == name' && ws'[j] == FirstNamed(ws', name').value;
      assert name' == name == c.name;
      assert j == k;
    }
    hide FirstNamed, IndexOf, UniqueNames;
  }

  lemma UpdateKeepsFate(srv: Server, faults: Faults, spec: Spec, s: State, seen: State, k: nat, s': State)
    requires Valid(srv, s.net.world) && UniqueNames(s.net.world) && Manages(seen, k) && seen.net.world == s.net.world
    requires PointsAt(s.net.world, s.meta.externalName) == Some(s.net.world[k]) && !s.net.world[k].isArchived
    requires seen.meta.externalName == s.net.world[k].id
    requires s'.net.world == AfterUpdate(srv, faults, spec, seen).0.net.world
    requires s'.meta.externalName in {s.meta.externalName, seen.meta.externalName}
    ensures Valid(srv, s'.net.world) && SameFate(srv, spec, s, s')
  {
    var ws, ws' := s.net.world, s'.net.world;
    UpdateNeverAddsDrift(srv, faults, spec, seen, k);
    UpdateKeepsUnattainable(srv, faults, spec, seen, k);
    UpdateEvolves(srv, faults, spec, seen);
    UpdateNames(srv, faults, spec, seen, k);
    hide AfterUpdate, PointsAt, Attainable, Valid;
    UpdatedIsSettledOn(srv, spec, s, s', k);
    assert Settles(srv, spec, s) == Some(ws[k]);
    MendableAfter(srv, spec, ws, ws', k);
    hide Settles, Mendable, Drift, UniqueNames;
  }

  lemma UpdateNames(srv: Server, faults: Faults, spec: Spec, s: State, k: nat)
    requires Manages(s, k)
    ensures var ws' := AfterUpdate(srv, faults, spec, s).0.net.world;
            |ws'| == |s.net.world| && ws'[k].name in {s.net.world[k].name, spec.name}
  {
    var c, id := s.net.world[k], s.meta.externalName;
    var landed := UpdateLands(srv, faults, spec, s, k);
    PlanCoversDrift(spec, c, Name);
    EffectsByField(srv, spec, c, Plan(spec, id, c)[..landed], Name);
    assert ValueOf(Effects(srv, c, Plan(spec, id, c)[..landed]), Name) in {c.name, spec.name};
    hide AfterUpdate, Effects, Plan;
  }

  lemma MendableAfter(srv: Server, spec: Spec, ws: Workspace, ws': Workspace, k: nat)
    requires k < |ws| == |ws'| && UniqueNames(ws') && ws'[k].name in {ws[k].name, spec.name}
    requires forall j :: 0 <= j < |ws| && j != k ==> ws'[j] == ws[j]
    requires Drift(spec, ws'[k]) <= Drift(spec, ws[k])
    requires forall f | f in Drift(spec, ws[k]) && !Attainable(srv, spec, f) :: f in Drift(spec, ws'[k])
    ensures Mendable(srv, spec, ws, ws[k]) <==> Mendable(srv, spec, ws', ws'[k])
  {
    assert Name in Drift(spec, ws[k]) <==> ws[k].name != spec.name;
    assert Name in Drift(spec, ws'[k]) <==> ws'[k].name != spec.name;
    hide Attainable, Drift;
    if j :| 0 <= j < |ws| && ws[j].name == spec.name {
      assert j != k ==> ws'[j].name == spec.name;
    }
    if j :| 0 <= j < |ws| && ws'[j].name == spec.name {
      assert j != k ==> ws[j].name == spec.name;
    }
    assert (forall f | f in Drift(spec, ws[k]) :: Attainable(srv, spec, f)) <==>
           (forall f | f in Drift(spec, ws'[k]) :: Attainable(srv, spec, f));
  }

  /** One turn that is not deleting, under any faults, changes neither. */
  lemma TurnKeepsFate(srv: Server, faults: Faults, spec: Spec, s: State, turn: Turn)
    requires Valid(srv, s.net.world) && UniqueNames(s.net.world)
    requires FaultsSpare(faults, {"channel_not_found"}) && !turn.deleting
    ensures var s' := Reconcile(srv, faults, spec, s, turn);
            Valid(srv, s'.net.world) && SameFate(srv, spec, s, s')
  {
    var ws := s.net.world;
    var (seen, o) := Observed(faults, spec, s);
    var s' := Reconcile(srv, faults, spec, s, turn);
    SpareObserve(srv, faults, spec, s);
    hide Observed, AfterCreate, AfterUpdate, AfterDelete, Valid, UniqueNames, SameFate, FaultsSpare;
    if o.Err? || (o.value.present && o.value.upToDate) {
      SameTargetSameFate(srv, spec, s, s');
    } else if o.value.present {
      var k := TargetIsManaged(srv, s, seen);
      UpdateKeepsLife(srv, faults, spec, seen);
      UpdateKeepsFate(srv, faults, spec, s, seen, k, s');
    } else if Taken(ws, spec.name) {
      HeldCreateTurn(srv, faults, spec, s, seen, s');
    } else {
      FreeCreateTurn(srv, faults, spec, s, seen, s');
    }
  }

  lemma TargetIsManaged(srv: Server, s: State, seen: State) returns (k: nat)
    requires Valid(srv, s.net.world) && seen.net.world == s.net.world
    requires Live(PointsAt(s.net.world, s.meta.externalName))
    requires seen.meta.externalName == PointsAt(s.net.world, s.meta.externalName).value.id
    ensures Manages(seen, k) && PointsAt(s.net.world, s.meta.externalName) == Some(s.net.world[k])
    ensures seen.meta.externalName == s.net.world[k].id && !s.net.world[k].isArchived
  {
    var ws, name := s.net.world, s.meta.externalName;
    if !IsChannelID(name) { HolderIsPointedAt(srv, ws, name); }
    k := IndexOf(ws, seen.meta.externalName);
    assert forall k :: 0 <= k < |ws| ==> IsChannelID(ws[k].id);
    FirstNamedHolds(ws, name);
    hide FirstNamed, IndexOf;
  }

  /** Create as it occurs in a turn: after an Observe that found nothing, with its external name stored or not. */
  lemma HeldCreateTurn(srv: Server, faults: Faults, spec: Spec, s: State, seen: State, s': State)
    requires Valid(srv, s.net.world) && Taken(s.net.world, spec.name) && seen.net.world == s.net.world
    requires PointsAt(s.net.world, seen.meta.externalName) == PointsAt(s.net.world, s.meta.externalName)
    requires !Live(PointsAt(s.net.world, s.meta.externalName))
    requires var after := AfterCreate(srv, faults, spec, seen).0;
             && s'.net.world == after.net.world
             && s'.meta.externalName in {after.meta.externalName, s.meta.externalName}
    ensures Valid(srv, s'.net.world) && SameFate(srv, spec, s, s')
  {
    var after := AfterCreate(srv, faults, spec, seen).0;
    HeldCreateKeepsFate(srv, faults, spec, seen);
    SameTargetSameFate(srv, spec, s, seen);
    if s'.meta.externalName == after.meta.externalName {
      SameTargetSameFate(srv, spec, after, s');
    } else {
      SameTargetSameFate(srv, spec, s, s');
    }
    hide AfterCreate, Valid, Settles, Mendable;
  }

  lemma FreeCreateTurn(srv: Server, faults: Faults, spec: Spec, s: State, seen: State, s': State)
    requires Valid(srv, s.net.world) && !Taken(s.net.world, spec.name) && seen.net.world == s.net.world
    requires PointsAt(s.net.world, seen.meta.externalName) == PointsAt(s.net.world, s.meta.externalName)
    requires !Live(PointsAt(s.net.world, s.meta.externalName))
    requires var after := AfterCreate(srv, faults, spec, seen).0;
             && s'.net.world == after.net.world
             && s'.meta.externalName in {after.meta.externalName, s.meta.externalName}
    ensures Valid(srv, s'.net.world) && SameFate(srv, spec, s, s')
  {
    var added := FreeCreateAdds(srv, faults, spec, seen);
    hide AfterCreate, Valid, PointsAt, Taken;
    SameTargetSameFate(srv, spec, s, seen);
    if added.None? {
      SameTargetSameFate(srv, spec, s, s');
    } else if s'.meta.externalName == s.meta.externalName {
      AddedIsSettledOn(srv, spec, s, s', added.value);
    } else {
      AddedIsSettledOn(srv, spec, seen, s', added.value);
    }
    hide Settles, Mendable;
  }

  lemma TurnKeepsUniqueNames(srv: Server, faults: Faults, spec: Spec, s: State, turn: Turn)
    requires UniqueNames(s.net.world)
    ensures UniqueNames(Reconcile(srv, faults, spec, s, turn).net.world)
  {
    ReconcileEvolves(srv, faults, spec, s, turn);
    hide Reconcile, UniqueNames;
  }

  // ---------- Whole runs ----------

  /** No run under faults, of any length, decides whether the resource can exist or converge. */
  lemma {:induction false} RunKeepsFate(srv: Server, faults: Faults, spec: Spec, s: State, turns: seq<Turn>)
    requires Valid(srv, s.net.world) && UniqueNames(s.net.world)
    requires FaultsSpare(faults, {"channel_not_found"}) && forall i :: 0 <= i < |turns| ==> !turns[i].deleting
    ensures var s' := Run(srv, faults, spec, s, turns);
            Valid(srv, s'.net.world) && UniqueNames(s'.net.world) && SameFate(srv, spec, s, s')
    decreases |turns|
  {
    hide Reconcile, Valid, UniqueNames, FaultsSpare, Settles, CanConverge;
    if turns != [] {
      var before := Run(srv, faults, spec, s, turns[..|turns| - 1]);
      RunKeepsFate(srv, faults, spec, s, turns[..|turns| - 1]);
      TurnKeepsFate(srv, faults, spec, before, turns[|turns| - 1]);
      TurnKeepsUniqueNames(srv, faults, spec, before, turns[|turns| - 1]);
    }
  }

  ghost predicate ConvergedAfter(srv: Server, faults: Faults, spec: Spec, s: State, n: nat) {
    Observed(faults, spec, CalmRun(srv, faults, spec, s, n)).1 == Ok(Observation(true, true))
  }

  lemma CalmSpares(faults: Faults)
    requires Calm(faults)
    ensures FaultsSpare(faults, {"channel_not_found"})
  {
  }

  function StoredTurns(n: nat): seq<Turn> {
    seq(n, _ => Turn(false, true))
  }

  lemma {:induction false} CalmRunIsARun(srv: Server, faults: Faults, spec: Spec, s: State, n: nat)
    ensures CalmRun(srv, faults, spec, s, n) == Run(srv, faults, spec, s, StoredTurns(n))
    decreases n
  {
    hide Reconcile;
    if n > 0 {
      CalmRunIsARun(srv, faults, spec, s, n - 1);
      assert StoredTurns(n)[..n - 1] == StoredTurns(n - 1);
    }
  }

  lemma CalmRunKeepsFate(srv: Server, faults: Faults, spec: Spec, s: State, n: nat)
    requires Calm(faults) && Valid(srv, s.net.world) && UniqueNames(s.net.world)
    ensures var s' := CalmRun(srv, faults, spec, s, n);
            Valid(srv, s'.net.world) && SameFate(srv, spec, s, s')
  {
    CalmSpares(faults);
    CalmRunIsARun(srv, faults, spec, s, n);
    RunKeepsFate(srv, faults, spec, s, StoredTurns(n));
    hide Run, CalmRun, Valid, UniqueNames, SameFate, FaultsSpare;
  }

  /** What is observed present and up to date could converge. */
  lemma ConvergedCanConverge(srv: Server, faults: Faults, spec: Spec, s: State)
    requires Calm(faults) && Valid(srv, s.net.world)
    ensures Observed(faults, spec, s).1 == Ok(Observation(true, true)) <==>
              var target := PointsAt(s.net.world, s.meta.externalName); Live(target) && Drift(spec, target.value) == {}
    ensures Observed(faults, spec, s).1 == Ok(Observation(true, true)) ==> CanConverge(srv, spec, s)
  {
    CalmSpares(faults);
    SpareObserve(srv, faults, spec, s);
    CalmObservePresentIff(srv, faults, spec, s);
    hide Observed, PointsAt, Drift, Valid;
  }

  /** A live channel that can be mended is mended in at most one turn. */
  lemma LiveConverges(srv: Server, faults: Faults, spec: Spec, s: State)
    requires Calm(faults) && Valid(srv, s.net.world)
    requires Live(PointsAt(s.net.world, s.meta.externalName)) && CanConverge(srv, spec, s)
    ensures var s' := Reconcile(srv, faults, spec, s, Turn(false, true));
            || Observed(faults, spec, s).1 == Ok(Observation(true, true))
            || Observed(faults, spec, s').1 == Ok(Observation(true, true))
  {
    CalmSpares(faults);
    SpareObserve(srv, faults, spec, s);
    CalmObservePresentIff(srv, faults, spec, s);
    var (seen, o) := Observed(faults, spec, s);
    var k := TargetIsManaged(srv, s, seen);
    UpdateConvergesIff(srv, faults, spec, seen, k);
    assert TakenByOther(s.net.world, spec.name, k) ==> Taken(s.net.world, spec.name);
    hide Observed, PointsAt, Drift, Valid, AfterUpdate, AfterCreate, AfterDelete, Attainable, Taken, TakenByOther;
  }

  /** A free name is taken by a channel that is up to date at once if it can be at all. */
  lemma FreeConverges(srv: Server, faults: Faults, spec: Spec, s: State)
    requires Calm(faults) && Valid(srv, s.net.world) && !Live(PointsAt(s.net.world, s.meta.externalName))
    requires CanConverge(srv, spec, s) && !Taken(s.net.world, spec.name)
    ensures Observed(faults, spec, Reconcile(srv, faults, spec, s, Turn(false, true))).1 == Ok(Observation(true, true))
  {
    CalmObservePresentIff(srv, faults, spec, s);
    var seen := Observed(faults, spec, s).0;
    CreateConvergesIff(srv, faults, spec, seen);
    FirstNamedHolds(s.net.world, spec.name);
    var bare := Newborn(srv, spec, s.net.world);
    assert Settles(srv, spec, s) == Some(bare);
    assert AutoLinks.Strip("") == "";
    assert forall f | f in {Topic, Purpose} :: Desired(spec, f) != "" <==> f in Drift(spec, bare);
    assert Topic in {Topic, Purpose} && Purpose in {Topic, Purpose};
    hide Observed, PointsAt, Drift, Valid, AfterUpdate, AfterCreate, AfterDelete, Attainable, Taken, FirstNamed;
  }

  /** A live holder of the desired name is adopted, and then mended. */
  lemma HolderConverges(srv: Server, faults: Faults, spec: Spec, s: State)
    requires Calm(faults) && Valid(srv, s.net.world) && UniqueNames(s.net.world)
    requires !Live(PointsAt(s.net.world, s.meta.externalName))
    requires CanConverge(srv, spec, s) && Taken(s.net.world, spec.name)
    ensures var s' := Reconcile(srv, faults, spec, s, Turn(false, true));
            Valid(srv, s'.net.world) && Live(PointsAt(s'.net.world, s'.meta.externalName)) && CanConverge(srv, spec, s')
  {
    CalmSpares(faults);
    TurnKeepsFate(srv, faults, spec, s, Turn(false, true));
    FirstNamedHolds(s.net.world, spec.name);
    assert CanExist(spec, s);
    CreateOrAdoptTurn(srv, faults, spec, s);
    hide Reconcile, PointsAt, FirstNamed, Mendable, Valid, UniqueNames;
  }

  lemma ConvergesWithinTwo(srv: Server, faults: Faults, spec: Spec, s: State) returns (n: nat)
    requires Calm(faults) && Valid(srv, s.net.world) && UniqueNames(s.net.world) && CanConverge(srv, spec, s)
    ensures n <= 2 && ConvergedAfter(srv, faults, spec, s, n)
  {
    hide Reconcile, Valid, UniqueNames, CanConverge, Observed, PointsAt, Taken;
    var s1 := Reconcile(srv, faults, spec, s, Turn(false, true));
    var s2 := Reconcile(srv, faults, spec, s1, Turn(false, true));
    assert CalmRun(srv, faults, spec, s, 0) == s;
    assert CalmRun(srv, faults, spec, s, 1) == s1;
    assert CalmRun(srv, faults, spec, s, 2) == s2;
    if Live(PointsAt(s.net.world, s.meta.externalName)) {
      LiveConverges(srv, faults, spec, s);
      n := if ConvergedAfter(srv, faults, spec, s, 0) then 0 else 1;
    } else if !Taken(s.net.world, spec.name) {
      FreeConverges(srv, faults, spec, s);
      n := 1;
    } else {
      HolderConverges(srv, faults, spec, s);
      LiveConverges(srv, faults, spec, s1);
      n := if ConvergedAfter(srv, faults, spec, s, 1) then 1 else 2;
    }
  }

  /** Eventual convergence, exactly. Take any finite run that is not deleting, with any calls failed, any
      responses lost and any external names not stored, and let faults then cease. From there the resource is
      ever found present if and only if it could exist before the run, and ever found present and up to date
      if and only if it could converge before the run; two turns are enough. */
  lemma EventuallyConvergesIff(srv: Server, faults: Faults, calm: Faults, spec: Spec, s: State, turns: seq<Turn>)
    requires Valid(srv, s.net.world) && UniqueNames(s.net.world) && Calm(calm)
    requires FaultsSpare(faults, {"channel_not_found"}) && forall i :: 0 <= i < |turns| ==> !turns[i].deleting
    ensures var s' := Run(srv, faults, spec, s, turns);
            && ((exists n: nat :: ConvergedAfter(srv, calm, spec, s', n)) <==> CanConverge(srv, spec, s))
            && (CanConverge(srv, spec, s) ==> exists n: nat :: n <= 2 && ConvergedAfter(srv, calm, spec, s', n))
            && ((exists n: nat :: PresentAfter(srv, calm, spec, s', n)) <==> CanExist(spec, s))
  {
    var s' := Run(srv, faults, spec, s, turns);
    RunKeepsFate(srv, faults, spec, s, turns);
    PresenceReachableIff(srv, calm, spec, s');
    SettlesIffCanExist(srv, spec, s);
    SettlesIffCanExist(srv, spec, s');
    hide Run, CalmRun, PresentAfter, CanExist, CanConverge, Settles, Valid, UniqueNames, Observed, FaultsSpare;
    if CanConverge(srv, spec, s) {
      var n := ConvergesWithinTwo(srv, calm, spec, s');
    }
    if n: nat :| ConvergedAfter(srv, calm, spec, s', n) {
      CalmRunKeepsFate(srv, calm, spec, s', n);
      ConvergedCanConverge(srv, calm, spec, CalmRun(srv, calm, spec, s', n));
    }
  }

  lemma SettlesIffCanExist(srv: Server, spec: Spec, s: State)
    ensures Settles(srv, spec, s).Some? <==> CanExist(spec, s)
  {
    hide PointsAt, FirstNamed;
  }
}
