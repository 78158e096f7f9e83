/**
 Convergence of a Conversation: what one Update, and any number of them under any pattern of failed or
 lost calls, does to the difference between the desired and the observed channel.
 */
module ConversationDrift {
  import opened Outcomes
  import opened Errors
  import opened Types
  import opened AutoLinks
  import opened Pagination
  import opened Runtime
  import opened ConversationApi
  import opened Conversation

  datatype Field = Name | Topic | Purpose

  function ValueOf(c: Channel, f: Field): string {
    match f
    case Name => c.name
    case Topic => c.topic
    case Purpose => c.purpose
  }

  function Desired(spec: Spec, f: Field): string {
    match f
    case Name => spec.name
    case Topic => spec.topic.GetOr("")
    case Purpose => spec.purpose.GetOr("")
  }

  /** What drift detection compares the desired value with. */
  function Seen(value: string, f: Field): string {
    if f == Name then value else Strip(value)
  }

  /** What Slack holds once the desired value has been written. */
  function Stored(srv: Server, spec: Spec, f: Field): string {
    if f == Name then Desired(spec, f) else srv.store(Desired(spec, f))
  }

  predicate Drifts(spec: Spec, c: Channel, f: Field) {
    Seen(ValueOf(c, f), f) != Desired(spec, f)
  }

  ghost function Drift(spec: Spec, c: Channel): set<Field> {
    set f | f in {Name, Topic, Purpose} && Drifts(spec, c, f)
  }

  /** Once written, the field is seen as the desired one. */
  predicate Attainable(srv: Server, spec: Spec, f: Field) {
    Seen(Stored(srv, spec, f), f) == Desired(spec, f)
  }

  /** The up-to-date test passes exactly when no field drifts. */
  lemma UpToDateIffNoDrift(spec: Spec, c: Channel)
    ensures IsUpToDate(spec, c) <==> Drift(spec, c) == {}
  {
    if Drift(spec, c) == {} {
      assert Name !in Drift(spec, c) && Topic !in Drift(spec, c) && Purpose !in Drift(spec, c);
    }
  }

  /** The order in which the source makes its writes. */
  function Rank(w: Write): nat {
    match w
    case Join(_) => 0
    case Rename(_, _) => 1
    case SetTopic(_, _) => 2
    case SetPurpose(_, _) => 3
    case Archive(_) => 4
  }

  /** Name, then topic, then purpose; so whatever is lost, a later one is only written once the earlier are. */
  lemma WritesAreOrdered(spec: Spec, id: string, c: Channel)
    ensures var plan := Plan(spec, id, c); forall i, j :: 0 <= i < j < |plan| ==> Rank(plan[i]) < Rank(plan[j])
    ensures var writes := Furnish(spec, id); forall i, j :: 0 <= i < j < |writes| ==> Rank(writes[i]) < Rank(writes[j])
  {
    hide Strip;
  }

  // ---------- A list of writes on one channel ----------

  function Target(w: Write): Option<Field> {
    match w
    case Rename(_, _) => Some(Name)
    case SetTopic(_, _) => Some(Topic)
    case SetPurpose(_, _) => Some(Purpose)
    case Join(_) => None
    case Archive(_) => None
  }

  ghost predicate Targets(writes: seq<Write>, f: Field) {
    exists k :: 0 <= k < |writes| && Target(writes[k]) == Some(f)
  }

  /** Writes that bring desired values to the channel with the given ID. */
  ghost predicate Delivers(spec: Spec, id: string, writes: seq<Write>) {
    forall k :: 0 <= k < |writes| ==>
      writes[k] in {Rename(id, spec.name), SetTopic(id, Desired(spec, Topic)), SetPurpose(id, Desired(spec, Purpose))}
  }

  function Effects(srv: Server, c: Channel, writes: seq<Write>): (r: Channel)
    decreases |writes|
  {
    if writes == [] then c else Effects(srv, Effect(srv, c, writes[0]), writes[1..])
  }

  lemma {:induction false} EffectsByField(srv: Server, spec: Spec, c: Channel, writes: seq<Write>, f: Field)
    requires Delivers(spec, c.id, writes)
    ensures ValueOf(Effects(srv, c, writes), f) == if Targets(writes, f) then Stored(srv, spec, f) else ValueOf(c, f)
    ensures var c' := Effects(srv, c, writes);
            c'.id == c.id && c'.isArchived == c.isArchived && c'.isPrivate == c.isPrivate
    decreases |writes|
  {
    if writes != [] {
      var w, rest := writes[0], writes[1..];
      EffectsByField(srv, spec, Effect(srv, c, w), rest, f);
      if k :| 0 <= k < |rest| && Target(rest[k]) == Some(f) {
        assert Target(writes[k + 1]) == Some(f);
      }
      if k :| 0 <= k < |writes| && Target(writes[k]) == Some(f) {
        assert k > 0 ==> Target(rest[k - 1]) == Some(f);
      }
    }
  }

  /** The writes of an update aim at exactly the drifted fields, with the desired values. */
  lemma PlanCoversDrift(spec: Spec, c: Channel, f: Field)
    ensures Delivers(spec, c.id, Plan(spec, c.id, c))
    ensures Targets(Plan(spec, c.id, c), f) <==> f in Drift(spec, c)
  {
    var rename := if spec.name != c.name then [Rename(c.id, spec.name)] else [];
    var topic := if Desired(spec, Topic) != Strip(c.topic) then [SetTopic(c.id, Desired(spec, Topic))] else [];
    var purpose :=
      if Desired(spec, Purpose) != Strip(c.purpose) then [SetPurpose(c.id, Desired(spec, Purpose))] else [];
    assert Plan(spec, c.id, c) == rename + topic + purpose;
    assert Delivers(spec, c.id, rename) && Delivers(spec, c.id, topic) && Delivers(spec, c.id, purpose);
    OneTarget(rename, f);
    OneTarget(topic, f);
    OneTarget(purpose, f);
    hide Plan, Strip, Delivers, Targets;
    PartsTogether(spec, c.id, rename, topic, f);
    PartsTogether(spec, c.id, rename + topic, purpose, f);
  }

  lemma OneTarget(writes: seq<Write>, f: Field)
    requires |writes| <= 1
    ensures Targets(writes, f) <==> |writes| == 1 && Target(writes[0]) == Some(f)
  {
  }

  lemma PartsTogether(spec: Spec, id: string, a: seq<Write>, b: seq<Write>, f: Field)
    requires Delivers(spec, id, a) && Delivers(spec, id, b)
    ensures Delivers(spec, id, a + b)
    ensures Targets(a + b, f) <==> Targets(a, f) || Targets(b, f)
  {
    var both := a + b;
    assert forall k :: 0 <= k < |a| ==> both[k] == a[k];
    assert forall k :: 0 <= k < |b| ==> both[|a| + k] == b[k];
    if k :| 0 <= k < |both| && Target(both[k]) == Some(f) {
      assert k < |a| || both[k] == b[k - |a|];
    }
  }

  /** Whatever is lost, running writes on a live channel amounts to a prefix of them: at least those
      that were acknowledged, all of them if none failed, and nothing else changes. */
  lemma {:induction false} WritesLandAsPrefix(srv: Server, faults: Faults, spec: Spec,
        net: Net<Workspace>, id: string, writes: seq<Write>)
    returns (landed: nat)
    requires Delivers(spec, id, writes)
    requires IndexOf(net.world, id) < |net.world| && !net.world[IndexOf(net.world, id)].isArchived
    ensures landed <= |writes|
    ensures var k := IndexOf(net.world, id);
            RunWrites(srv, faults, net, writes).0.world
            == net.world[k := Effects(srv, net.world[k], writes[..landed])]
    ensures RunWrites(srv, faults, net, writes).1.None? ==> landed == |writes|
    decreases |writes|
  {
    var ws, k := net.world, IndexOf(net.world, id);
    var c := ws[k];
    assert ws[k := c] == ws && writes[..0] == [];
    if writes == [] {
      landed := 0;
    } else {
      var w := writes[0];
      var (net', r) := Transit(faults, net, Apply(srv, ws, w));
      DeliveryLands(srv, spec, ws, id, w);
      hide Apply, Effect;
      assert writes[..1] == [w] && [w][1..] == [];
      if r.Err? {
        landed := if net'.world == ws then 0 else 1;
      } else {
        SameIdsSameIndex(ws, net'.world, id);
        var rest := WritesLandAsPrefix(srv, faults, spec, net', id, writes[1..]);
        landed := 1 + rest;
        assert writes[..landed][1..] == writes[1..][..rest];
      }
    }
  }

  /** One write of a desired value to a live channel has its effect there or none. */
  lemma DeliveryLands(srv: Server, spec: Spec, ws: Workspace, id: string, w: Write)
    requires Delivers(spec, id, [w])
    requires IndexOf(ws, id) < |ws| && !ws[IndexOf(ws, id)].isArchived
    ensures var k := IndexOf(ws, id);
            var (ws', r) := Apply(srv, ws, w);
            && (ws' == ws || ws' == ws[k := Effect(srv, ws[k], w)]) && (r.Ok? ==> ws' == ws[k := Effect(srv, ws[k], w)])
            && Effect(srv, ws[k], w).id == ws[k].id && !Effect(srv, ws[k], w).isArchived
  {
    assert [w][0] == w;
  }

  // ---------- One Update ----------

  /** The channel the external name is the ID of. */
  ghost predicate Manages(s: State, k: nat) {
    k < |s.net.world| && IndexOf(s.net.world, s.meta.externalName) == k
  }

  lemma {:induction false} UpdateLands(srv: Server, faults: Faults, spec: Spec, s: State, k: nat) returns (landed: nat)
    requires Manages(s, k)
    ensures var c, plan := s.net.world[k], Plan(spec, s.meta.externalName, s.net.world[k]);
            && landed <= |plan|
            && AfterUpdate(srv, faults, spec, s).0.net.world == s.net.world[k := Effects(srv, c, plan[..landed])]
            && (AfterUpdate(srv, faults, spec, s).1.None? ==> landed == |plan|)
            && AfterUpdate(srv, faults, spec, s).0.meta.externalName == s.meta.externalName
  {
    var ws, id := s.net.world, s.meta.externalName;
    var c := ws[k];
    var plan := Plan(spec, id, c);
    assert ws[k := c] == ws && plan[..0] == [];
    var (net, joined) := Transit(faults, s.net, Apply(srv, ws, Join(id)));
    var (net', info) := Transit(faults, net, Info(net.world, id));
    assert net.world == ws == net'.world;
    if joined.Ok? && info.Ok? {
      PlanCoversDrift(spec, c, Name);
      landed := WritesLandAsPrefix(srv, faults, spec, net', id, plan);
    } else {
      landed := 0;
    }
  }

  /** Monotonicity: for every remote state and every pattern of failed or lost calls, an Update makes no
      field drift that did not drift before, changes no other channel, and if it reports success then
      exactly the drifted fields that can be attained no longer drift. */
  lemma UpdateNeverAddsDrift(srv: Server, faults: Faults, spec: Spec, s: State, k: nat)
    requires Manages(s, k)
    ensures var (s', r) := AfterUpdate(srv, faults, spec, s);
            && Manages(s', k)
            && |s'.net.world| == |s.net.world|
            && (forall j :: 0 <= j < |s.net.world| && j != k ==> s'.net.world[j] == s.net.world[j])
            && s'.net.world[k].isArchived == s.net.world[k].isArchived
            && Drift(spec, s'.net.world[k]) <= Drift(spec, s.net.world[k])
            && (r.None? ==>
                  Drift(spec, s'.net.world[k]) == set f | f in Drift(spec, s.net.world[k]) && !Attainable(srv, spec, f))
  {
    var (s', r) := AfterUpdate(srv, faults, spec, s);
    var landed := UpdateLands(srv, faults, spec, s, k);
    var ws, id := s.net.world, s.meta.externalName;
    var c := ws[k];
    var plan := Plan(spec, id, c);
    var c' := Effects(srv, c, plan[..landed]);
    hide AfterUpdate, Plan, Effects;
    PlanCoversDrift(spec, c, Name);
    EffectsByField(srv, spec, c, plan[..landed], Name);
    SameIdsSameIndex(ws, s'.net.world, id);
    forall f: Field ensures f in Drift(spec, c') ==> f in Drift(spec, c)
      ensures r.None? ==> (f in Drift(spec, c') <==> f in Drift(spec, c) && !Attainable(srv, spec, f))
    {
      FieldAfterPrefix(srv, spec, c, plan, landed, f);
      assert r.None? ==> plan[..landed] == plan;
    }
  }

  lemma FieldAfterPrefix(srv: Server, spec: Spec, c: Channel, plan: seq<Write>, landed: nat, f: Field)
    requires plan == Plan(spec, c.id, c) && landed <= |plan|
    ensures var c' := Effects(srv, c, plan[..landed]);
            || ValueOf(c', f) == ValueOf(c, f)
            || (f in Drift(spec, c) && ValueOf(c', f) == Stored(srv, spec, f))
    ensures landed == |plan| && f in Drift(spec, c) ==>
      ValueOf(Effects(srv, c, plan[..landed]), f) == Stored(srv, spec, f)
    ensures f !in Drift(spec, c) ==> ValueOf(Effects(srv, c, plan[..landed]), f) == ValueOf(c, f)
  {
    PlanCoversDrift(spec, c, f);
    EffectsByField(srv, spec, c, plan[..landed], f);
    assert landed == |plan| ==> plan[..landed] == plan;
    hide Plan, Effects, Drift;
    if Targets(plan[..landed], f) {
      var j :| 0 <= j < landed && Target(plan[..landed][j]) == Some(f);
      assert Target(plan[j]) == Some(f);
    }
  }

  /** Progress after partial failure: if every desired value is attainable, an Update that changes the
      channel at all leaves strictly fewer fields drifting, even when it reports an error. */
  lemma ChangeIsProgress(srv: Server, faults: Faults, spec: Spec, s: State, k: nat)
    requires Manages(s, k) && forall f: Field :: Attainable(srv, spec, f)
    requires AfterUpdate(srv, faults, spec, s).0.net.world != s.net.world
    ensures var ws' := AfterUpdate(srv, faults, spec, s).0.net.world;
            k < |ws'| && Drift(spec, ws'[k]) < Drift(spec, s.net.world[k])
  {
    var ws' := AfterUpdate(srv, faults, spec, s).0.net.world;
    var landed := UpdateLands(srv, faults, spec, s, k);
    UpdateNeverAddsDrift(srv, faults, spec, s, k);
    var c := s.net.world[k];
    var plan := Plan(spec, s.meta.externalName, c);
    assert s.net.world[k := c] == s.net.world && plan[..0] == [];
    hide AfterUpdate, Plan, Drift, Attainable;
    assert landed > 0;
    var f := FirstWriteMends(srv, spec, c, plan, landed);
  }

  /** The first write that lands takes the drift of its field away, if that can be. */
  lemma FirstWriteMends(srv: Server, spec: Spec, c: Channel, plan: seq<Write>, landed: nat) returns (f: Field)
    requires plan == Plan(spec, c.id, c) && 0 < landed <= |plan|
    ensures f in Drift(spec, c)
    ensures Attainable(srv, spec, f) ==> f !in Drift(spec, Effects(srv, c, plan[..landed]))
  {
    PlanCoversDrift(spec, c, Name);
    hide Plan, Effects;
    f := Target(plan[0]).value;
    assert Target(plan[..landed][0]) == Some(f);
    assert Targets(plan, f);
    PlanCoversDrift(spec, c, f);
    EffectsByField(srv, spec, c, plan[..landed], f);
  }

  lemma {:induction false} RunWritesCalls(srv: Server, faults: Faults, net: Net<Workspace>, writes: seq<Write>)
    ensures var (net', failed) := RunWrites(srv, faults, net, writes);
            net.calls <= net'.calls <= net.calls + |writes| && (failed.None? ==> net'.calls == net.calls + |writes|)
    decreases |writes|
  {
    hide Apply;
    if writes != [] {
      var (net', r) := Transit(faults, net, Apply(srv, net.world, writes[0]));
      if r.Ok? { RunWritesCalls(srv, faults, net', writes[1..]); }
    }
  }

  /** The fields picked by three flags, and how many they are. */
  function Picked(name: bool, topic: bool, purpose: bool): set<Field> {
    (if name then {Name} else {}) + (if topic then {Topic} else {}) + (if purpose then {Purpose} else {})
  }

  lemma PickedSize(name: bool, topic: bool, purpose: bool)
    ensures |Picked(name, topic, purpose)|
            == (if name then 1 else 0) + (if topic then 1 else 0) + (if purpose then 1 else 0)
  {
    var a: set<Field> := if name then {Name} else {};
    var b: set<Field> := if topic then {Topic} else {};
    var c: set<Field> := if purpose then {Purpose} else {};
    assert |a + b| == |a| + |b|;
    assert |a + b + c| == |a + b| + |c|;
  }

  lemma DriftIsPicked(spec: Spec, c: Channel)
    ensures Drift(spec, c) == Picked(Drifts(spec, c, Name), Drifts(spec, c, Topic), Drifts(spec, c, Purpose))
  {
    hide Seen;
  }

  lemma PlanLength(spec: Spec, c: Channel)
    ensures |Plan(spec, c.id, c)| == (if Drifts(spec, c, Name) then 1 else 0)
              + (if Drifts(spec, c, Topic) then 1 else 0) + (if Drifts(spec, c, Purpose) then 1 else 0)
  {
    hide Strip;
  }

  lemma PlanSize(spec: Spec, c: Channel)
    ensures |Plan(spec, c.id, c)| == |Drift(spec, c)|
  {
    hide *;
    DriftIsPicked(spec, c);
    PlanLength(spec, c);
    PickedSize(Drifts(spec, c, Name), Drifts(spec, c, Topic), Drifts(spec, c, Purpose));
  }

  /** Nothing is written before the join and the read have both been acknowledged; after that there is at
      most one call for each drifted field, and exactly one each if the Update reports success. */
  lemma UpdateCallsOnlyForDrift(srv: Server, faults: Faults, spec: Spec, s: State, k: nat)
    requires Manages(s, k)
    ensures var (s', r) := AfterUpdate(srv, faults, spec, s);
            var made := s'.net.calls - s.net.calls;
            && (!faults(s.net.calls).Deliver? ==> made == 1 && r.Some? && s'.net.world == s.net.world)
            && (faults(s.net.calls).Deliver? && !faults(s.net.calls + 1).Deliver? ==>
                  r.Some? && s'.net.world == s.net.world)
            && made <= 2 + |Drift(spec, s.net.world[k])|
            && (r.None? ==> made == 2 + |Drift(spec, s.net.world[k])|)
  {
    var ws, id := s.net.world, s.meta.externalName;
    JoinAndReadChangeNothing(srv, ws, id);
    hide Apply, Info, RunWrites, Plan, Drift;
    var (net, joined) := Transit(faults, s.net, Apply(srv, ws, Join(id)));
    var (net', info) := Transit(faults, net, Info(net.world, id));
    if joined.Ok? && info.Ok? {
      RunWritesCalls(srv, faults, net', Plan(spec, id, ws[k]));
      PlanSize(spec, ws[k]);
    }
  }

  lemma JoinAndReadChangeNothing(srv: Server, ws: Workspace, id: string)
    ensures Apply(srv, ws, Join(id)).0 == ws == Info(ws, id).0
    ensures Info(ws, id).1.Ok? ==> IndexOf(ws, id) < |ws| && Info(ws, id).1.value == ws[IndexOf(ws, id)]
  {
    var k := IndexOf(ws, id);
    assert k < |ws| ==> ws[k := ws[k]] == ws;
  }

  // ---------- Any number of Updates ----------

  ghost function UpdateRun(srv: Server, faults: Faults, spec: Spec, s: State, n: nat): (State, bool) {
    if n == 0 then (s, false)
    else
      var (before, done) := UpdateRun(srv, faults, spec, s, n - 1);
      var (after, r) := AfterUpdate(srv, faults, spec, before);
      (after, done || r.None?)
  }

  /** Over any number of Updates under any faults drift never grows; as soon as one of them has reported
      success, exactly the unattainable part of the original drift is left, and stays. */
  lemma {:induction false} UpdatesConverge(srv: Server, faults: Faults, spec: Spec, s: State, k: nat, n: nat)
    requires Manages(s, k)
    ensures var (s', done) := UpdateRun(srv, faults, spec, s, n);
            && Manages(s', k)
            && Drift(spec, s'.net.world[k]) <= Drift(spec, s.net.world[k])
            && (forall f | f in Drift(spec, s.net.world[k]) && !Attainable(srv, spec, f) ::
                  f in Drift(spec, s'.net.world[k]))
            && (done ==> forall f | f in Drift(spec, s'.net.world[k]) :: !Attainable(srv, spec, f))
    decreases n
  {
    hide AfterUpdate, Drift, Attainable;
    if n > 0 {
      var before := UpdateRun(srv, faults, spec, s, n - 1).0;
      UpdatesConverge(srv, faults, spec, s, k, n - 1);
      UpdateNeverAddsDrift(srv, faults, spec, before, k);
      UpdateKeepsUnattainable(srv, faults, spec, before, k);
    }
  }

  lemma UpdateKeepsUnattainable(srv: Server, faults: Faults, spec: Spec, s: State, k: nat)
    requires Manages(s, k)
    ensures var ws' := AfterUpdate(srv, faults, spec, s).0.net.world;
            && k < |ws'|
            && forall f | f in Drift(spec, s.net.world[k]) && !Attainable(srv, spec, f) :: f in Drift(spec, ws'[k])
  {
    var landed := UpdateLands(srv, faults, spec, s, k);
    var c := s.net.world[k];
    forall f | f in Drift(spec, c) && !Attainable(srv, spec, f)
      ensures f in Drift(spec, AfterUpdate(srv, faults, spec, s).0.net.world[k])
    {
      FieldAfterPrefix(srv, spec, c, Plan(spec, c.id, c), landed, f);
    }
  }

  // ---------- The exact condition for convergence ----------

  /** On a live channel a fault-free Update is refused only for the name: it succeeds exactly when the
      desired name is the channel's own or no other channel's. */
  lemma {:induction false} CalmWritesSucceedIff(srv: Server, faults: Faults, spec: Spec,
        net: Net<Workspace>, id: string, writes: seq<Write>)
    requires Calm(faults) && Delivers(spec, id, writes)
    requires IndexOf(net.world, id) < |net.world| && !net.world[IndexOf(net.world, id)].isArchived
    ensures RunWrites(srv, faults, net, writes).1.None? <==>
              (Targets(writes, Name) ==> !TakenByOther(net.world, spec.name, IndexOf(net.world, id)))
    decreases |writes|
  {
    if writes != [] {
      var w, rest := writes[0], writes[1..];
      var ws, k := net.world, IndexOf(net.world, id);
      var (net', r) := Transit(faults, net, Apply(srv, ws, w));
      WriteIsLocal(srv, ws, w);
      SameIdsSameIndex(ws, net'.world, id);
      if j :| 0 <= j < |rest| && Target(rest[j]) == Some(Name) {
        assert Target(writes[j + 1]) == Some(Name);
      }
      if j :| 0 <= j < |writes| && Target(writes[j]) == Some(Name) {
        assert j > 0 ==> Target(rest[j - 1]) == Some(Name);
      }
      if r.Ok? {
        CalmWritesSucceedIff(srv, faults, spec, net', id, rest);
        OthersKeepNames(ws, net'.world, spec.name, k);
      }
    }
  }

  lemma {:induction false} CalmWritesFailForName(srv: Server, faults: Faults, spec: Spec,
        net: Net<Workspace>, id: string, writes: seq<Write>)
    requires Calm(faults) && Delivers(spec, id, writes)
    requires IndexOf(net.world, id) < |net.world| && !net.world[IndexOf(net.world, id)].isArchived
    ensures var failed := RunWrites(srv, faults, net, writes).1;
            failed.Some? ==> failed.value.0.Rename? && HasCode(failed.value.1, "name_taken")
    decreases |writes|
  {
    if writes != [] {
      var (net', r) := Transit(faults, net, Apply(srv, net.world, writes[0]));
      WriteIsLocal(srv, net.world, writes[0]);
      SameIdsSameIndex(net.world, net'.world, id);
      if r.Ok? { CalmWritesFailForName(srv, faults, spec, net', id, writes[1..]); }
    }
  }

  lemma OthersKeepNames(ws: Workspace, ws': Workspace, name: string, k: nat)
    requires |ws'| == |ws| && forall j :: 0 <= j < |ws| && j != k ==> ws'[j] == ws[j]
    ensures TakenByOther(ws', name, k) <==> TakenByOther(ws, name, k)
  {
    if j :| 0 <= j < |ws| && j != k && ws[j].name == name { assert ws'[j].name == name; }
    if j :| 0 <= j < |ws| && j != k && ws'[j].name == name { assert ws[j].name == name; }
  }

  lemma CalmUpdateSucceedsIff(srv: Server, faults: Faults, spec: Spec, s: State, k: nat)
    requires Calm(faults) && Manages(s, k) && !s.net.world[k].isArchived
    ensures AfterUpdate(srv, faults, spec, s).1.None? <==>
              s.net.world[k].name == spec.name || !TakenByOther(s.net.world, spec.name, k)
    ensures var (s', r) := AfterUpdate(srv, faults, spec, s);
            s'.meta == if r.None? then s.meta else s.meta.With(Synced, NAME_CONFLICT)
  {
    var ws, id := s.net.world, s.meta.externalName;
    var (net, joined) := Transit(faults, s.net, Apply(srv, ws, Join(id)));
    assert ws[k := ws[k]] == ws;
    assert net.world == ws && joined.Ok?;
    var (net', info) := Transit(faults, net, Info(ws, id));
    assert net'.world == ws && info == Ok(ws[k]);
    PlanCoversDrift(spec, ws[k], Name);
    CalmWritesSucceedIff(srv, faults, spec, net', id, Plan(spec, id, ws[k]));
    CalmWritesFailForName(srv, faults, spec, net', id, Plan(spec, id, ws[k]));
    hide Plan, RunWrites, Apply;
  }

  /** Convergence, exactly: after a fault-free Update of a live channel the next fault-free Observe reports
      it up to date if and only if every drifted field is attainable and a drifted name is free. */
  lemma UpdateConvergesIff(srv: Server, faults: Faults, spec: Spec, s: State, k: nat)
    requires Calm(faults) && Valid(srv, s.net.world) && Manages(s, k) && !s.net.world[k].isArchived
    ensures Observed(faults, spec, AfterUpdate(srv, faults, spec, s).0).1 == Ok(Observation(true, true)) <==>
              && (forall f | f in Drift(spec, s.net.world[k]) :: Attainable(srv, spec, f))
              && (Name in Drift(spec, s.net.world[k]) ==> !TakenByOther(s.net.world, spec.name, k))
  {
    var (s', r) := AfterUpdate(srv, faults, spec, s);
    var c := s.net.world[k];
    UpdateNeverAddsDrift(srv, faults, spec, s, k);
    CalmUpdateSucceedsIff(srv, faults, spec, s, k);
    UpdateKeepsIds(srv, faults, spec, s, k);
    assert Name in Drift(spec, c) <==> c.name != spec.name;
    if r.Some? {
      RefusedRenameKeepsName(srv, faults, spec, s, k);
      assert s'.net.world == s.net.world && Name in Drift(spec, s'.net.world[k]);
    }
    hide AfterUpdate, Attainable, Drift, TakenByOther;
    ObserveLiveChannel(srv, faults, spec, s', k);
    hide Observed;
    var before, after := Drift(spec, c), Drift(spec, s'.net.world[k]);
    if r.None? { EmptyRestIff(srv, spec, before, after); }
  }

  lemma EmptyRestIff(srv: Server, spec: Spec, before: set<Field>, after: set<Field>)
    requires after == set f | f in before && !Attainable(srv, spec, f)
    ensures after == {} <==> forall f | f in before :: Attainable(srv, spec, f)
  {
    hide Attainable;
    assert forall f | f in before :: f !in after ==> Attainable(srv, spec, f);
  }

  lemma UpdateKeepsIds(srv: Server, faults: Faults, spec: Spec, s: State, k: nat)
    requires Valid(srv, s.net.world) && Manages(s, k)
    ensures Valid(srv, AfterUpdate(srv, faults, spec, s).0.net.world)
  {
    var landed := UpdateLands(srv, faults, spec, s, k);
    PlanCoversDrift(spec, s.net.world[k], Name);
    EffectsByField(srv, spec, s.net.world[k], Plan(spec, s.meta.externalName, s.net.world[k])[..landed], Name);
  }

  /** A fault-free Observe of a live channel reports it, up to date exactly when nothing drifts; it records
      the channel's status and marks the resource available. */
  lemma ObserveLiveChannel(srv: Server, faults: Faults, spec: Spec, s: State, k: nat)
    requires Calm(faults) && Valid(srv, s.net.world) && Manages(s, k) && !s.net.world[k].isArchived
    ensures Observed(faults, spec, s).1 == Ok(Observation(true, Drift(spec, s.net.world[k]) == {}))
    ensures var (c, meta) := (s.net.world[k], Observed(faults, spec, s).0.meta);
            && meta.atProvider == Status(c.id, false, c.numMembers, c.created)
            && meta.conditions == s.meta.conditions[Ready := AVAILABLE]
  {
    UpToDateIffNoDrift(spec, s.net.world[k]);
    assert s.meta.externalName == srv.ids(k) && IsChannelID(s.meta.externalName);
    hide IsUpToDate;
  }

  lemma RefusedRenameKeepsName(srv: Server, faults: Faults, spec: Spec, s: State, k: nat)
    requires Calm(faults) && Manages(s, k) && !s.net.world[k].isArchived
    requires s.net.world[k].name != spec.name && TakenByOther(s.net.world, spec.name, k)
    ensures AfterUpdate(srv, faults, spec, s).0.net.world == s.net.world
  {
    var ws, id := s.net.world, s.meta.externalName;
    assert ws[k := ws[k]] == ws;
    var plan := Plan(spec, id, ws[k]);
    assert plan[0] == Rename(id, spec.name);
  }

  /** A new channel, exactly: a fault-free Create of a free name adds one channel with that name, private
      only if the spec says so; the next fault-free Observe reports it present, and up to date if and only if
      the desired topic and the desired purpose are each empty or attainable. */
  lemma CreateConvergesIff(srv: Server, faults: Faults, spec: Spec, s: State)
    requires Calm(faults) && Valid(srv, s.net.world) && !Taken(s.net.world, spec.name)
    ensures var (s', r) := AfterCreate(srv, faults, spec, s);
            && r.None?
            && |s'.net.world| == |s.net.world| + 1 && s'.net.world[..|s.net.world|] == s.net.world
            && s'.net.world[|s.net.world|].name == spec.name
            && s'.net.world[|s.net.world|].isPrivate == (spec.isPrivate == Some(true))
            && Observed(faults, spec, s').1 == Ok(Observation(true,
                 (Desired(spec, Topic) == "" || Attainable(srv, spec, Topic)) &&
                 (Desired(spec, Purpose) == "" || Attainable(srv, spec, Purpose))))
  {
    var ws := s.net.world;
    var c := Newborn(srv, spec, ws);
    var c' := Effects(srv, c, Furnish(spec, c.id));
    var s' := AfterCreate(srv, faults, spec, s).0;
    CalmCreateFurnishes(srv, faults, spec, s);
    FurnishCoversText(spec, c.id);
    EffectsByField(srv, spec, c, Furnish(spec, c.id), Name);
    EffectsByField(srv, spec, c, Furnish(spec, c.id), Topic);
    EffectsByField(srv, spec, c, Furnish(spec, c.id), Purpose);
    hide AfterCreate, Effects, Furnish;
    IndexOfValid(srv, s'.net.world, |ws|);
    ObserveLiveChannel(srv, faults, spec, s', |ws|);
    hide Observed;
    NewChannelDrift(srv, spec, c');
  }

  /** The channel as Slack creates it, without topic and purpose. */
  function Newborn(srv: Server, spec: Spec, ws: Workspace): Channel {
    Channel(srv.ids(|ws|), spec.name, spec.isPrivate.GetOr(false), false, "", "", 1, 0)
  }

  lemma CalmCreateFurnishes(srv: Server, faults: Faults, spec: Spec, s: State)
    requires Calm(faults) && Valid(srv, s.net.world) && !Taken(s.net.world, spec.name)
    ensures var (s', r) := AfterCreate(srv, faults, spec, s);
            var c := Newborn(srv, spec, s.net.world);
            && r.None? && s'.meta.externalName == c.id
            && s'.net.world == s.net.world + [Effects(srv, c, Furnish(spec, c.id))]
            && Valid(srv, s'.net.world)
  {
    var ws := s.net.world;
    var c := Newborn(srv, spec, ws);
    var net := Net(ws + [c], s.net.calls + 1);
    assert Transit(faults, s.net, Created(srv, ws, spec.name, spec.isPrivate.GetOr(false))) == (net, Ok(c));
    assert Valid(srv, net.world);
    CalmFurnish(srv, faults, spec, net, |ws|);
    hide RunWrites, Effects, Furnish, Taken, Created;
    assert net.world[|ws| := Effects(srv, c, Furnish(spec, c.id))] == ws + [Effects(srv, c, Furnish(spec, c.id))];
  }

  lemma CalmFurnish(srv: Server, faults: Faults, spec: Spec, net: Net<Workspace>, k: nat)
    requires Calm(faults) && Valid(srv, net.world) && k < |net.world| && !net.world[k].isArchived
    ensures var c := net.world[k];
            var (net', failed) := RunWrites(srv, faults, net, Furnish(spec, c.id));
            && failed.None? && net'.world == net.world[k := Effects(srv, c, Furnish(spec, c.id))]
            && Valid(srv, net'.world)
  {
    var c := net.world[k];
    var writes := Furnish(spec, c.id);
    IndexOfValid(srv, net.world, k);
    FurnishCoversText(spec, c.id);
    hide Furnish;
    CalmWritesSucceedIff(srv, faults, spec, net, c.id, writes);
    var landed := WritesLandAsPrefix(srv, faults, spec, net, c.id, writes);
    assert writes[..landed] == writes;
    EffectsByField(srv, spec, c, writes, Name);
  }

  /** How many of the `n` calls from number `from` on come before the first that is not answered. */
  ghost function AnsweredCalls(faults: Faults, from: nat, n: nat): (k: nat)
    ensures k <= n && (forall i :: from <= i < from + k ==> faults(i).Deliver?)
    ensures k < n ==> !faults(from + k).Deliver?
    decreases n
  {
    if n == 0 || !faults(from).Deliver? then 0 else 1 + AnsweredCalls(faults, from + 1, n - 1)
  }

  lemma AnsweredFirst(faults: Faults, from: nat, n: nat)
    requires n > 0
    ensures AnsweredCalls(faults, from, n)
            == if faults(from).Deliver? then 1 + AnsweredCalls(faults, from + 1, n - 1) else 0
  {
  }

  ghost predicate SetsTexts(spec: Spec, id: string, writes: seq<Write>) {
    Delivers(spec, id, writes) && forall k :: 0 <= k < |writes| ==> !writes[k].Rename?
  }

  lemma SetsTextsSplit(spec: Spec, id: string, writes: seq<Write>)
    requires SetsTexts(spec, id, writes) && writes != []
    ensures Delivers(spec, id, [writes[0]]) && !writes[0].Rename? && SetsTexts(spec, id, writes[1..])
  {
  }

  /** On a live channel, writes that bring desired topics and purposes are never refused: they fail at the first
      that is not answered, with its cause. */
  lemma {:induction false} TextWritesFailAt(srv: Server, faults: Faults, spec: Spec, net: Net<Workspace>,
        id: string, writes: seq<Write>)
    requires SetsTexts(spec, id, writes)
    requires IndexOf(net.world, id) < |net.world| && !net.world[IndexOf(net.world, id)].isArchived
    ensures var k := AnsweredCalls(faults, net.calls, |writes|);
            RunWrites(srv, faults, net, writes).1
            == if k == |writes| then None else Some((writes[k], faults(net.calls + k).cause))
    decreases |writes|
  {
    hide Apply, Effect, IndexOf, SetsTexts, Delivers, RunWrites, AnsweredCalls;
    if writes == [] {
      NothingToRun(srv, faults, net);
    } else {
      var w, rest := writes[0], writes[1..];
      assert writes == [w] + rest;
      RunFirst(srv, faults, net, w, rest);
      AnsweredFirst(faults, net.calls, |writes|);
      SetsTextsSplit(spec, id, writes);
      TextWriteAccepted(srv, spec, net.world, id, w);
      var net' := Transit(faults, net, Apply(srv, net.world, w)).0;
      if faults(net.calls).Deliver? {
        TextWritesFailAt(srv, faults, spec, net', id, rest);
        var k := AnsweredCalls(faults, net'.calls, |rest|);
        assert k < |rest| ==> writes[k + 1] == rest[k];
      }
    }
  }

  lemma TextWriteAccepted(srv: Server, spec: Spec, ws: Workspace, id: string, w: Write)
    requires Delivers(spec, id, [w]) && !w.Rename?
    requires IndexOf(ws, id) < |ws| && !ws[IndexOf(ws, id)].isArchived
    ensures var (ws', r) := Apply(srv, ws, w);
            r == Ok(()) && IndexOf(ws', id) < |ws'| && !ws'[IndexOf(ws', id)].isArchived
  {
    DeliveryLands(srv, spec, ws, id, w);
    WriteIsLocal(srv, ws, w);
    SameIdsSameIndex(ws, Apply(srv, ws, w).0, id);
    assert [w][0] == w;
    hide Effect, IndexOf, UniqueNames, Valid;
  }

  /** How many texts a new channel needs. */
  function TextsToSet(spec: Spec): nat {
    (if Desired(spec, Topic) != "" then 1 else 0) + if Desired(spec, Purpose) != "" then 1 else 0
  }

  /** Creating a channel under a free name, exactly: if the creation is answered, Create fails if and only if one of
      the calls that set the desired texts is not, with the cause of the first such call inside, and the external
      name is the new channel's ID either way; if the creation is not answered, Create fails with that cause and
      records nothing. */
  lemma CreateFailsIff(srv: Server, faults: Faults, spec: Spec, s: State)
    requires Valid(srv, s.net.world) && !Taken(s.net.world, spec.name)
    requires faults(s.net.calls).Deliver? || !HasCode(faults(s.net.calls).cause, "name_taken")
    ensures var (s', r) := AfterCreate(srv, faults, spec, s);
            var made := s.net.calls;
            var k := AnsweredCalls(faults, made + 1, TextsToSet(spec));
            if !faults(made).Deliver? then
              s'.meta == s.meta && r.Some? && r.value.Wrapped? && r.value.inner == faults(made).cause
            else
              && s'.meta == s.meta.(externalName := srv.ids(|s.net.world|))
              && (r.None? <==> k == TextsToSet(spec))
              && (r.Some? ==> r.value.Wrapped? && r.value.inner == faults(made + 1 + k).cause)
  {
    var c := Newborn(srv, spec, s.net.world);
    hide AfterCreate, Taken, RunWrites, Furnish, IndexOf, Valid, SetsTexts;
    FreeCreateRuns(srv, faults, spec, s);
    if faults(s.net.calls).Deliver? {
      var net := NewbornLives(srv, faults, spec, s);
      FurnishSetsTexts(spec, c.id);
      TextWritesFailAt(srv, faults, spec, net, c.id, Furnish(spec, c.id));
      SetsTextsAt(spec, c.id, Furnish(spec, c.id));
    }
  }

  lemma SetsTextsAt(spec: Spec, id: string, writes: seq<Write>)
    requires SetsTexts(spec, id, writes)
    ensures forall k :: 0 <= k < |writes| ==> !writes[k].Rename?
  {
  }

  lemma FreeCreateRuns(srv: Server, faults: Faults, spec: Spec, s: State)
    requires Valid(srv, s.net.world) && !Taken(s.net.world, spec.name)
    requires faults(s.net.calls).Deliver? || !HasCode(faults(s.net.calls).cause, "name_taken")
    ensures var (c, done) := (Newborn(srv, spec, s.net.world), AfterCreate(srv, faults, spec, s));
            if faults(s.net.calls).Deliver? then
              done == AfterWrites(s.meta.(externalName := c.id),
                                  RunWrites(srv, faults, Net(s.net.world + [c], s.net.calls + 1), Furnish(spec, c.id)))
            else
              && done.0.meta == s.meta && done.1.Some? && done.1.value.Wrapped?
              && done.1.value.inner == faults(s.net.calls).cause
  {
    hide Taken, RunWrites, Furnish, Found;
  }

  lemma NewbornLives(srv: Server, faults: Faults, spec: Spec, s: State) returns (net: Net<Workspace>)
    requires Valid(srv, s.net.world)
    ensures var (ws, c) := (s.net.world, Newborn(srv, spec, s.net.world));
            && net == Net(ws + [c], s.net.calls + 1) && Valid(srv, net.world) && net.world[|ws|] == c
            && IndexOf(net.world, c.id) == |ws| && !c.isArchived
  {
    var ws := s.net.world;
    net := Net(ws + [Newborn(srv, spec, ws)], s.net.calls + 1);
    assert Valid(srv, net.world);
    IndexOfValid(srv, net.world, |ws|);
  }

  lemma FurnishSetsTexts(spec: Spec, id: string)
    ensures |Furnish(spec, id)| == TextsToSet(spec) && SetsTexts(spec, id, Furnish(spec, id))
  {
    FurnishCoversText(spec, id);
  }

  /** Success of a Create under a free name means that all is done: one channel is added, with the desired name and
      privacy, whose ID is the external name, and that holds what Slack stores for each text desired. */
  lemma CreateSuccessFurnishes(srv: Server, faults: Faults, spec: Spec, s: State)
    requires Valid(srv, s.net.world) && !Taken(s.net.world, spec.name)
    requires faults(s.net.calls).Deliver? || !HasCode(faults(s.net.calls).cause, "name_taken")
    requires AfterCreate(srv, faults, spec, s).1.None?
    ensures var (ws, s') := (s.net.world, AfterCreate(srv, faults, spec, s).0);
            && |s'.net.world| == |ws| + 1 && s'.net.world[..|ws|] == ws
            && var c := s'.net.world[|ws|];
               && c.id == s'.meta.externalName && c.name == spec.name && !c.isArchived
               && c.isPrivate == (spec.isPrivate == Some(true))
               && forall f | f in {Topic, Purpose} ::
                    ValueOf(c, f) == if Desired(spec, f) == "" then "" else srv.store(Desired(spec, f))
  {
    var ws := s.net.world;
    var c := Newborn(srv, spec, ws);
    hide AfterCreate, Taken, RunWrites, Furnish, Effects;
    CreateFailsIff(srv, faults, spec, s);
    FreeCreateRuns(srv, faults, spec, s);
    var net := NewbornLives(srv, faults, spec, s);
    FurnishCoversText(spec, c.id);
    var writes := Furnish(spec, c.id);
    var landed := WritesLandAsPrefix(srv, faults, spec, net, c.id, writes);
    assert writes[..landed] == writes;
    EffectsByField(srv, spec, c, writes, Name);
    EffectsByField(srv, spec, c, writes, Topic);
    EffectsByField(srv, spec, c, writes, Purpose);
    assert net.world[|ws| := Effects(srv, c, writes)] == ws + [Effects(srv, c, writes)];
  }

  lemma UpdateRuns(srv: Server, faults: Faults, spec: Spec, s: State, k: nat)
    requires Manages(s, k)
    ensures var (ws, first, done) := (s.net.world, s.net.calls, AfterUpdate(srv, faults, spec, s));
            if !faults(first).Deliver? then
              done == (s.(net := Net(ws, first + 1)), Some(Wrapped("cannot join conversation", faults(first).cause)))
            else if ws[k].isArchived then
              done.0 == s.(net := Net(ws, first + 1)) && done.1.Some? && done.1.value.Wrapped?
              && HasCode(done.1.value, "is_archived")
            else if !faults(first + 1).Deliver? then
              done ==
                (s.(net := Net(ws, first + 2)), Some(Wrapped("cannot update conversation", faults(first + 1).cause)))
            else
              done == AfterWrites(s.meta, RunWrites(srv, faults, Net(ws, first + 2),
                                                    Plan(spec, s.meta.externalName, ws[k])))
  {
    var ws, id := s.net.world, s.meta.externalName;
    JoinAndReadChangeNothing(srv, ws, id);
    JoinOutcome(srv, ws, id, k);
    assert Info(ws, id) == (ws, Ok(ws[k]));
    hide Apply, RunWrites, Info, Plan, IndexOf;
  }

  /** Exactly when an Update reports a name conflict, under any faults: the channel is live, the name drifts and is
      another channel's, and the join, the read and the rename are all answered. */
  lemma UpdateReportsConflictIff(srv: Server, faults: Faults, spec: Spec, s: State, k: nat)
    requires Manages(s, k)
    requires faults(s.net.calls + 2).Deliver? || !HasCode(faults(s.net.calls + 2).cause, "name_taken")
    ensures var (s', r) := AfterUpdate(srv, faults, spec, s);
            var (c, first) := (s.net.world[k], s.net.calls);
            s'.meta ==
              if !c.isArchived && c.name != spec.name && TakenByOther(s.net.world, spec.name, k)
                && faults(first).Deliver? && faults(first + 1).Deliver? && faults(first + 2).Deliver?
              then s.meta.(conditions := s.meta.conditions[Synced :=
                             Condition(false, "NameConflict", "channel name is already taken")])
              else s.meta
  {
    hide AfterUpdate, Apply, RunWrites, Plan, TakenByOther, IndexOf;
    UpdateRuns(srv, faults, spec, s, k);
    var ws, id, c, first := s.net.world, s.meta.externalName, s.net.world[k], s.net.calls;
    if faults(first).Deliver? && !c.isArchived && faults(first + 1).Deliver? {
      var net := Net(ws, first + 2);
      PlanBegins(spec, id, c);
      if c.name != spec.name {
        var rest := Plan(spec, id, c)[1..];
        RunFirst(srv, faults, net, Rename(id, spec.name), rest);
        RenameOutcome(srv, ws, id, spec.name, k);
        var (net', renamed) := Transit(faults, net, Apply(srv, ws, Rename(id, spec.name)));
        if renamed.Ok? { NoRenameFails(srv, faults, net', rest); }
      } else {
        NoRenameFails(srv, faults, net, Plan(spec, id, c));
      }
    }
  }

  lemma PlanBegins(spec: Spec, id: string, c: Channel)
    ensures var plan := Plan(spec, id, c);
            if c.name != spec.name then
              && plan != [] && plan == [Rename(id, spec.name)] + plan[1..]
              && forall i :: 0 <= i < |plan[1..]| ==> !plan[1..][i].Rename?
            else forall i :: 0 <= i < |plan| ==> !plan[i].Rename?
  {
    hide Strip;
  }

  lemma {:induction false} WritesFailWith(srv: Server, faults: Faults, spec: Spec, net: Net<Workspace>, id: string,
        writes: seq<Write>)
    requires Delivers(spec, id, writes)
    requires IndexOf(net.world, id) < |net.world| && !net.world[IndexOf(net.world, id)].isArchived
    ensures var (net', failed) := RunWrites(srv, faults, net, writes);
            failed.Some? ==>
              && net'.calls > net.calls
              && if faults(net'.calls - 1).Deliver? then HasCode(failed.value.1, "name_taken")
                 else failed.value.1 == faults(net'.calls - 1).cause
    decreases |writes|
  {
    if writes != [] {
      var w := writes[0];
      DeliversSplit(spec, id, writes);
      hide Apply, IndexOf, Delivers, HasCode, RunWrites;
      assert writes == [w] + writes[1..];
      RunFirst(srv, faults, net, w, writes[1..]);
      DeliveryStaysLive(srv, spec, net.world, id, w);
      var (net', r) := Transit(faults, net, Apply(srv, net.world, w));
      if r.Ok? {
        WritesFailWith(srv, faults, spec, net', id, writes[1..]);
      }
    } else {
      NothingToRun(srv, faults, net);
    }
  }

  lemma DeliversSplit(spec: Spec, id: string, writes: seq<Write>)
    requires Delivers(spec, id, writes) && writes != []
    ensures Delivers(spec, id, [writes[0]]) && Delivers(spec, id, writes[1..])
  {
  }

  lemma DeliveryStaysLive(srv: Server, spec: Spec, ws: Workspace, id: string, w: Write)
    requires Delivers(spec, id, [w])
    requires IndexOf(ws, id) < |ws| && !ws[IndexOf(ws, id)].isArchived
    ensures var (ws', r) := Apply(srv, ws, w);
            && IndexOf(ws', id) < |ws'| && !ws'[IndexOf(ws', id)].isArchived
            && (r.Err? ==> HasCode(r.error, "name_taken"))
  {
    assert [w][0] == w;
    DeliveryLands(srv, spec, ws, id, w);
    WriteIsLocal(srv, ws, w);
    SameIdsSameIndex(ws, Apply(srv, ws, w).0, id);
    hide Effect, IndexOf, UniqueNames, Valid, TakenByOther;
  }

  /** What an Update that fails reports, under any faults: the cause of the last call it made, if that was not
      answered; otherwise Slack's refusal, of an archived channel or of a taken name. */
  lemma UpdateFailsWith(srv: Server, faults: Faults, spec: Spec, s: State, k: nat)
    requires Manages(s, k)
    ensures var (s', r) := AfterUpdate(srv, faults, spec, s);
            var last := s'.net.calls - 1;
            && last >= s.net.calls
            && (r.Some? ==>
                  && r.value.Wrapped?
                  && if !faults(last).Deliver? then r.value.inner == faults(last).cause
                     else HasCode(r.value, if s.net.world[k].isArchived then "is_archived" else "name_taken"))
  {
    hide AfterUpdate, RunWrites, Plan, IndexOf, Delivers;
    UpdateRuns(srv, faults, spec, s, k);
    PlanCoversDrift(spec, s.net.world[k], Name);
    var (net, plan) := (Net(s.net.world, s.net.calls + 2), Plan(spec, s.meta.externalName, s.net.world[k]));
    if !s.net.world[k].isArchived {
      WritesFailWith(srv, faults, spec, net, s.meta.externalName, plan);
      RunWritesCalls(srv, faults, net, plan);
    }
  }

  lemma JoinOutcome(srv: Server, ws: Workspace, id: string, k: nat)
    requires IndexOf(ws, id) == k < |ws|
    ensures var r := Apply(srv, ws, Join(id)).1;
            (r.Ok? <==> !ws[k].isArchived) && (r.Err? ==> HasCode(r.error, "is_archived"))
  {
    hide IndexOf;
  }

  lemma RenameOutcome(srv: Server, ws: Workspace, id: string, name: string, k: nat)
    requires IndexOf(ws, id) == k < |ws| && !ws[k].isArchived
    ensures var r := Apply(srv, ws, Rename(id, name)).1;
            if TakenByOther(ws, name, k) then r.Err? && HasCode(r.error, "name_taken") else r.Ok?
  {
    hide IndexOf, TakenByOther;
  }

  lemma FurnishCoversText(spec: Spec, id: string)
    ensures Delivers(spec, id, Furnish(spec, id)) && !Targets(Furnish(spec, id), Name)
    ensures Targets(Furnish(spec, id), Topic) <==> Desired(spec, Topic) != ""
    ensures Targets(Furnish(spec, id), Purpose) <==> Desired(spec, Purpose) != ""
  {
    var writes := Furnish(spec, id);
    var topics := if Desired(spec, Topic) != "" then 1 else 0;
    assert topics == 1 ==> writes[0] == SetTopic(id, Desired(spec, Topic));
    assert Desired(spec, Purpose) != "" ==> writes[topics] == SetPurpose(id, Desired(spec, Purpose));
  }

  lemma NewChannelDrift(srv: Server, spec: Spec, c: Channel)
    requires c.name == spec.name
    requires forall f | f in {Topic, Purpose} ::
               ValueOf(c, f) == if Desired(spec, f) != "" then Stored(srv, spec, f) else ""
    ensures Drift(spec, c) == {} <==>
              (Desired(spec, Topic) == "" || Attainable(srv, spec, Topic)) &&
              (Desired(spec, Purpose) == "" || Attainable(srv, spec, Purpose))
  {
    assert Strip("") == "";
    assert Topic in {Topic, Purpose} && Purpose in {Topic, Purpose};
    UpToDateIffNoDrift(spec, c);
    hide Drift;
  }

  /** With a server that stores text verbatim a field is attainable exactly when its desired text is a
      fixed point of stripping, that is, contains no link markup. */
  lemma VerbatimAttainableIff(srv: Server, spec: Spec, f: Field)
    requires forall t :: srv.store(t) == t
    ensures Attainable(srv, spec, f) <==> f == Name || Strip(Desired(spec, f)) == Desired(spec, f)
    ensures Attainable(srv, spec, f) <==> f == Name || !HasMatch(Desired(spec, f))
  {
    FixedIffNoMatch(Desired(spec, f));
  }

  /** With a server that wraps links, every text made of `<`-free text and plain links is attainable. */
  lemma AutoLinkedTextIsAttainable(srv: Server, spec: Spec, f: Field, pieces: seq<Piece>)
    requires forall p :: 0 <= p < |pieces| ==> WellFormed(pieces[p])
    requires Desired(spec, f) == Plain(pieces) && srv.store(Desired(spec, f)) == Encode(pieces)
    ensures Attainable(srv, spec, f)
  {
    StripUndoesEncode(pieces);
  }
}
