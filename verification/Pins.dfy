/**
 The ConversationPin controller. Slack's side is an assumption: a channel has messages and a list of
 pinned ones; pinning a message twice is refused with `already_pinned`, and an archived channel refuses
 changes.
 */
module Pins {
  import opened Outcomes
  import opened Errors
  import opened Types
  import opened Runtime
  import opened ExternalNames

  // ---------- Slack's side ----------

  datatype Room = Room(archived: bool, messages: set<string>, pins: seq<Pin>)

  type Rooms = map<string, Room>

  predicate Pinned(pins: seq<Pin>, ts: string) {
    exists k :: 0 <= k < |pins| && pins[k].ts == ts
  }

  function Without(pins: seq<Pin>, ts: string): (r: seq<Pin>) {
    if pins == [] then []
    else (if pins[0].ts == ts then [] else [pins[0]]) + Without(pins[1..], ts)
  }

  function Listed(rooms: Rooms, channel: string): (Rooms, Result<seq<Pin>, Error>) {
    (rooms, if channel in rooms then Ok(rooms[channel].pins) else Err(Rejection("channel_not_found")))
  }

  function Added(rooms: Rooms, channel: string, ts: string, now: int): (Rooms, Result<(), Error>) {
    if channel !in rooms then (rooms, Err(Rejection("channel_not_found")))
    else
      var room := rooms[channel];
      if room.archived then (rooms, Err(Rejection("is_archived")))
      else if ts !in room.messages then (rooms, Err(Rejection("message_not_found")))
      else if Pinned(room.pins, ts) then (rooms, Err(Rejection("already_pinned")))
      else (rooms[channel := room.(pins := room.pins + [Pin(channel, ts, now)])], Ok(()))
  }

  function Removed(rooms: Rooms, channel: string, ts: string): (Rooms, Result<(), Error>) {
    if channel !in rooms then (rooms, Err(Rejection("channel_not_found")))
    else
      var room := rooms[channel];
      if room.archived then (rooms, Err(Rejection("is_archived")))
      else if !Pinned(room.pins, ts) then (rooms, Err(Rejection("no_pin")))
      else (rooms[channel := room.(pins := Without(room.pins, ts))], Ok(()))
  }

  class PinClient {
    const faults: Faults
    var net: Net<Rooms>

    constructor (faults: Faults, rooms: Rooms)
      ensures this.faults == faults && net == Net(rooms, 0)
    {
      this.faults, net := faults, Net(rooms, 0);
    }

    method ListPins(channel: string) returns (r: Result<seq<Pin>, Error>)
      modifies this
      ensures (net, r) == Transit(faults, old(net), Listed(old(net.world), channel))
    {
      var (after, answer) := Transit(faults, net, Listed(net.world, channel));
      net, r := after, answer;
    }

    method AddPin(channel: string, ts: string) returns (r: Result<(), Error>)
      modifies this
      ensures (net, r) == Transit(faults, old(net), Added(old(net.world), channel, ts, old(net.calls)))
    {
      var (after, answer) := Transit(faults, net, Added(net.world, channel, ts, net.calls));
      net, r := after, answer;
    }

    method RemovePin(channel: string, ts: string) returns (r: Result<(), Error>)
      modifies this
      ensures (net, r) == Transit(faults, old(net), Removed(old(net.world), channel, ts))
    {
      var (after, answer) := Transit(faults, net, Removed(net.world, channel, ts));
      net, r := after, answer;
    }
  }

  // ---------- The operations as functions ----------

  datatype Spec = Spec(messageTimestamp: string)

  datatype Status = Status(channelID: string, pinnedAt: int)

  datatype State = State(meta: Meta<Status>, net: Net<Rooms>)

  predicate IsMessageNotFound(e: Error) {
    HasCode(e, "message_not_found")
  }

  /** A failed condition with the message of the Slack error in the chain, if there is one. */
  function Flag(meta: Meta<Status>, e: Error, reason: string): Meta<Status> {
    if AsSlackError(e).None? then meta
    else meta.With(Synced, Condition(false, reason, AsSlackError(e).value.message))
  }

  function FirstPin(pins: seq<Pin>, ts: string): Option<Pin> {
    if pins == [] then None else if pins[0].ts == ts then Some(pins[0]) else FirstPin(pins[1..], ts)
  }

  function Observed(faults: Faults, s: State): (State, Result<Observation, Error>) {
    var (channel, ts) := ParsePin(s.meta.externalName);
    if s.meta.externalName == "" || channel == "" || ts == "" then (s, Ok(MISSING))
    else
      var (net, pins) := Transit(faults, s.net, Listed(s.net.world, channel));
      match pins
      case Err(e) =>
        if IsChannelUnavailable(e) then (State(Flag(s.meta, e, "ChannelUnavailable"), net), Ok(MISSING))
        else (s.(net := net), Err(Wrapped("cannot list pins", e)))
      case Ok(list) =>
        var found := FirstPin(list, ts);
        if found.None? then (s.(net := net), Ok(MISSING))
        else (State(s.meta.(atProvider := Status(channel, found.value.created)).With(Ready, AVAILABLE), net),
          Ok(Observation(true, true)))
  }

  function AfterCreate(faults: Faults, spec: Spec, s: State, channel: Result<string, Error>): (State, Option<Error>) {
    if channel.Err? then (s, Some(Wrapped("cannot resolve conversation ID", channel.error)))
    else
      var (net, r) := Transit(faults, s.net, Added(s.net.world, channel.value, spec.messageTimestamp, s.net.calls));
      match r
      case Ok(_) => (State(s.meta.(externalName := FormatPin(channel.value, spec.messageTimestamp)), net), None)
      case Err(e) =>
        var meta := if IsChannelUnavailable(e) then Flag(s.meta, e, "ChannelUnavailable") else s.meta;
        var meta' := if IsMessageNotFound(e) then Flag(meta, e, "MessageNotFound") else meta;
        (State(meta', net), Some(Wrapped("cannot add pin", e)))
  }

  function AfterDelete(faults: Faults, s: State): (State, Option<Error>) {
    var (channel, ts) := ParsePin(s.meta.externalName);
    if s.meta.externalName == "" || channel == "" || ts == "" then (s, None)
    else
      var (net, r) := Transit(faults, s.net, Removed(s.net.world, channel, ts));
      (s.(net := net),
       if r.Ok? || IsChannelUnavailable(r.error) || HasCode(r.error, "no_pin") then None
       else Some(Wrapped("cannot remove pin", r.error)))
  }

  // ---------- The controller ----------

  class External {
    const client: PinClient

    constructor (client: PinClient)
      ensures this.client == client
    {
      this.client := client;
    }

    function View(cr: Managed<Spec, Status>): State
      reads cr, client
    {
      State(cr.View(), client.net)
    }

    method SetFlag(cr: Managed<Spec, Status>, e: Error, reason: string)
      modifies cr`conditions
      ensures cr.View() == Flag(old(cr.View()), e, reason)
    {
      var slackError := AsSlackError(e);
      if slackError.Some? {
        cr.SetCondition(Synced, Condition(false, reason, slackError.value.message));
      }
    }

    method Observe(cr: Managed<Spec, Status>) returns (r: Result<Observation, Error>)
      modifies cr, client
      ensures (View(cr), r) == Observed(client.faults, old(View(cr)))
    {
      var externalName := cr.externalName;
      if externalName == "" {
        return Ok(MISSING);
      }
      var (channel, ts) := ParsePin(externalName);
      if channel == "" || ts == "" {
        return Ok(MISSING);
      }
      hide ParsePin, HasCode, Flag, Listed;
      var pins := client.ListPins(channel);
      if pins.Err? {
        if IsChannelUnavailable(pins.error) {
          SetFlag(cr, pins.error, "ChannelUnavailable");
          return Ok(MISSING);
        }
        return Err(Wrapped("cannot list pins", pins.error));
      }
      var found: Option<Pin> := None;
      for i := 0 to |pins.value|
        invariant found == None && FirstPin(pins.value, ts) == FirstPin(pins.value[i..], ts)
      {
        if pins.value[i].ts == ts {
          found := Some(pins.value[i]);
          break;
        }
      }
      if found.None? {
        return Ok(MISSING);
      }
      cr.atProvider := Status(channel, found.value.created);
      cr.SetCondition(Ready, AVAILABLE);
      return Ok(Observation(true, true));
    }

    method Create(cr: Managed<Spec, Status>, channel: Result<string, Error>) returns (r: Option<Error>)
      modifies cr, client
      ensures (View(cr), r) == AfterCreate(client.faults, cr.spec, old(View(cr)), channel)
    {
      hide HasCode, Flag, Added;
      if channel.Err? {
        return Some(Wrapped("cannot resolve conversation ID", channel.error));
      }
      var messageTS := cr.spec.messageTimestamp;
      var added := client.AddPin(channel.value, messageTS);
      if added.Err? {
        if IsChannelUnavailable(added.error) {
          SetFlag(cr, added.error, "ChannelUnavailable");
        }
        if IsMessageNotFound(added.error) {
          SetFlag(cr, added.error, "MessageNotFound");
        }
        return Some(Wrapped("cannot add pin", added.error));
      }
      cr.externalName := FormatPin(channel.value, messageTS);
      return None;
    }

    method Delete(cr: Managed<Spec, Status>) returns (r: Option<Error>)
      modifies client
      ensures (View(cr), r) == AfterDelete(client.faults, old(View(cr)))
    {
      hide HasCode, Removed;
      var externalName := cr.externalName;
      if externalName == "" {
        return None;
      }
      var (channel, ts) := ParsePin(externalName);
      if channel == "" || ts == "" {
        return None;
      }
      var removed := client.RemovePin(channel, ts);
      if removed.Err? {
        if IsChannelUnavailable(removed.error) {
          return None;
        }
        if HasCode(removed.error, "no_pin") {
          return None;
        }
        return Some(Wrapped("cannot remove pin", removed.error));
      }
      return None;
    }
  }

  // ---------- Lifecycle ----------

  lemma {:induction false} FirstPinIff(pins: seq<Pin>, ts: string)
    ensures FirstPin(pins, ts).Some? <==> Pinned(pins, ts)
    decreases |pins|
  {
    if pins != [] {
      FirstPinIff(pins[1..], ts);
      if k :| 0 <= k < |pins| && pins[k].ts == ts { assert k > 0 ==> pins[1..][k - 1].ts == ts; }
      if k :| 0 <= k < |pins| - 1 && pins[1..][k].ts == ts { assert pins[k + 1].ts == ts; }
    }
  }

  lemma {:induction false} WithoutDrops(pins: seq<Pin>, ts: string, other: string)
    ensures Pinned(Without(pins, ts), other) <==> Pinned(pins, other) && other != ts
    decreases |pins|
  {
    FirstPinIff(pins, other);
    FirstPinIff(Without(pins, ts), other);
    if pins != [] {
      var rest := Without(pins[1..], ts);
      WithoutDrops(pins[1..], ts, other);
      FirstPinIff(pins[1..], other);
      FirstPinIff(rest, other);
      assert ([pins[0]] + rest)[1..] == rest && [] + rest == rest;
    }
  }

  /** The message is pinned in the channel. */
  predicate IsPinned(rooms: Rooms, channel: string, ts: string) {
    channel in rooms && Pinned(rooms[channel].pins, ts)
  }

  /** A fault-free Observe never fails, and reports the pin present exactly when its name has two non-empty
      parts and the message they name is pinned. */
  lemma CalmObservePresentIff(faults: Faults, s: State)
    requires Calm(faults)
    ensures var (channel, ts) := ParsePin(s.meta.externalName);
            && Observed(faults, s).1.Ok? && Observed(faults, s).0.net.world == s.net.world
            && (Observed(faults, s).1.value.present <==>
                  channel != "" && ts != "" && IsPinned(s.net.world, channel, ts))
    ensures Observed(faults, s).0.meta.externalName == s.meta.externalName
  {
    var (channel, ts) := ParsePin(s.meta.externalName);
    if channel in s.net.world { FirstPinIff(s.net.world[channel].pins, ts); }
    hide ParsePin;
    assert ParsePin("") == ("", "") by { NoCutIff("", ':'); }
  }

  /** Fault-free Create succeeds exactly when the message exists in an open channel and is not pinned;
      it pins that message and nothing else; and the next Observe then finds it, provided the channel ID
      holds no colon and neither part is empty. */
  lemma CreateThenPresent(faults: Faults, spec: Spec, s: State, channel: string)
    requires Calm(faults)
    ensures var (s', r) := AfterCreate(faults, spec, s, Ok(channel));
            var (rooms, ts) := (s.net.world, spec.messageTimestamp);
            && (r.None? <==>
                  && channel in rooms && !rooms[channel].archived && ts in rooms[channel].messages
                  && !IsPinned(rooms, channel, ts))
            && (r.Some? ==> s'.net.world == rooms && s'.meta.externalName == s.meta.externalName)
            && (r.None? ==> forall c, t ::
              IsPinned(s'.net.world, c, t) <==> IsPinned(rooms, c, t) || (c == channel && t == ts))
            && (r.None? && ':' !in channel ==>
              (Observed(faults, s').1 == Ok(Observation(true, true)) <==> channel != "" && ts != ""))
  {
    var (s', r) := AfterCreate(faults, spec, s, Ok(channel));
    var ts := spec.messageTimestamp;
    if r.None? {
      PinRoundTripIff(channel, ts);
      CalmObservePresentIff(faults, s');
      var pins := s.net.world[channel].pins;
      forall c, t ensures IsPinned(s'.net.world, c, t) <==> IsPinned(s.net.world, c, t) || (c == channel && t == ts) {
        var pins' := pins + [Pin(channel, ts, s.net.calls)];
        assert pins'[|pins|].ts == ts;
        if k :| 0 <= k < |pins| && pins[k].ts == t { assert pins'[k].ts == t; }
      }
      hide ParsePin, FormatPin, IsPinned;
    }
  }

  /** Fault-free Delete of a well-formed name takes exactly that pin away, unless the channel is archived:
      there it reports success and leaves the pin, so the next Observe still finds it. */
  lemma DeleteThenGoneIff(faults: Faults, s: State)
    requires Calm(faults)
    ensures var (s', r) := AfterDelete(faults, s);
            var (channel, ts) := ParsePin(s.meta.externalName);
            var stays := channel in s.net.world && s.net.world[channel].archived;
            && r.None?
            && (Observed(faults, s').1.Ok? && Observed(faults, s').1.value.present <==>
                  stays && Observed(faults, s).1.Ok? && Observed(faults, s).1.value.present)
            && (channel != "" && ts != "" ==>
                  forall c, t ::
                    IsPinned(s'.net.world, c, t) <==> IsPinned(s.net.world, c, t) && (stays || c != channel || t != ts))
  {
    var (s', r) := AfterDelete(faults, s);
    var (channel, ts) := ParsePin(s.meta.externalName);
    assert s.meta.externalName == "" ==> ParsePin(s.meta.externalName) == ("", "");
    CalmObservePresentIff(faults, s);
    CalmObservePresentIff(faults, s');
    if channel in s.net.world {
      forall t { WithoutDrops(s.net.world[channel].pins, ts, t); }
    }
    hide ParsePin, Observed, Without, Pinned;
  }

  function Failed(reason: string, code: string): Condition {
    Condition(false, reason, "slack API returned error: " + code)
  }

  /** Position of the first pin of a message. */
  ghost predicate IsFirst(pins: seq<Pin>, ts: string, k: nat) {
    k < |pins| && pins[k].ts == ts && forall j :: 0 <= j < k ==> pins[j].ts != ts
  }

  lemma {:induction false} FirstPinIsFirst(pins: seq<Pin>, ts: string, k: nat)
    requires IsFirst(pins, ts, k)
    ensures FirstPin(pins, ts) == Some(pins[k])
    decreases k
  {
    if k > 0 { FirstPinIsFirst(pins[1..], ts, k - 1); }
  }

  lemma {:induction false} FirstExists(pins: seq<Pin>, ts: string) returns (k: nat)
    requires Pinned(pins, ts)
    ensures IsFirst(pins, ts, k)
    decreases |pins|
  {
    if pins[0].ts == ts {
      k := 0;
    } else {
      var j :| 0 <= j < |pins| && pins[j].ts == ts;
      assert pins[1..][j - 1].ts == ts;
      k := FirstExists(pins[1..], ts);
      k := k + 1;
      assert forall i :: 0 < i < k ==> pins[i] == pins[1..][i - 1];
    }
  }

  /** What a fault-free Observe answers and records: of a pinned message that it is there and up to date, with the
      date of its first pin, and that the resource is available; of an unknown channel that it is unavailable;
      and otherwise nothing. */
  lemma CalmObserveRecords(faults: Faults, s: State)
    requires Calm(faults)
    ensures var (s', o) := Observed(faults, s);
            var (channel, ts) := ParsePin(s.meta.externalName);
            if channel != "" && ts != "" && IsPinned(s.net.world, channel, ts) then
              && o == Ok(Observation(true, true))
              && s'.meta.conditions == s.meta.conditions[Ready := Condition(true, "Available", "")]
              && s'.meta.externalName == s.meta.externalName
              && (forall k: nat :: IsFirst(s.net.world[channel].pins, ts, k) ==>
                    s'.meta.atProvider == Status(channel, s.net.world[channel].pins[k].created))
            else
              && o == Ok(Observation(false, false))
              && s'.meta ==
                   if channel != "" && ts != "" && channel !in s.net.world then
                     var gone := Failed("ChannelUnavailable", "channel_not_found");
                     s.meta.(conditions := s.meta.conditions[Synced := gone])
                   else s.meta
  {
    var (channel, ts) := ParsePin(s.meta.externalName);
    if channel in s.net.world {
      var pins := s.net.world[channel].pins;
      FirstPinIff(pins, ts);
      forall k: nat | IsFirst(pins, ts, k) ensures FirstPin(pins, ts) == Some(pins[k]) {
        FirstPinIsFirst(pins, ts, k);
      }
    }
    NoCutIff("", ':');
    hide Cut, FirstPin, Pinned, IsFirst;
  }

  /** What a fault-free Create records: a refusal leaves an unknown or archived channel marked unavailable and an
      unknown message marked not found, with Slack's code also in the error, and a message pinned already not
      reported at all; success sets the external name; and nothing else of the resource ever changes. */
  lemma CreateRefusalIsReported(faults: Faults, spec: Spec, s: State, channel: string)
    requires Calm(faults)
    ensures var (s', r) := AfterCreate(faults, spec, s, Ok(channel));
            var (rooms, ts) := (s.net.world, spec.messageTimestamp);
            if channel !in rooms || rooms[channel].archived then
              var code := if channel !in rooms then "channel_not_found" else "is_archived";
              && s'.meta == s.meta.(conditions := s.meta.conditions[Synced := Failed("ChannelUnavailable", code)])
              && r.Some? && HasCode(r.value, code)
            else if ts !in rooms[channel].messages then
              && s'.meta ==
                   s.meta.(conditions := s.meta.conditions[Synced := Failed("MessageNotFound", "message_not_found")])
              && r.Some? && HasCode(r.value, "message_not_found")
            else if IsPinned(rooms, channel, ts) then
              s'.meta == s.meta && r.Some? && HasCode(r.value, "already_pinned")
            else s'.meta == s.meta.(externalName := channel + ":" + ts) && r.None?
  {
    assert FormatPin(channel, spec.messageTimestamp) == channel + ":" + spec.messageTimestamp;
    hide Pinned;
  }

  /** A call that is not answered makes its operation fail, with the cause inside and nothing recorded, unless the
      cause itself carries a code that the operation takes for an answer. */
  lemma UnansweredFails(faults: Faults, spec: Spec, s: State, channel: string)
    requires !faults(s.net.calls).Deliver?
    requires ParsePin(s.meta.externalName).0 != "" && ParsePin(s.meta.externalName).1 != ""
    ensures var cause := faults(s.net.calls).cause;
            var unavailable := HasCode(cause, "channel_not_found") || HasCode(cause, "is_archived");
            var (observed, o) := Observed(faults, s);
            var (created, r) := AfterCreate(faults, spec, s, Ok(channel));
            var (deleted, r') := AfterDelete(faults, s);
            && r.Some? && r.value.Wrapped? && r.value.inner == cause
            && (r'.None? <==> unavailable || HasCode(cause, "no_pin"))
            && (r'.Some? ==> r'.value.Wrapped? && r'.value.inner == cause) && deleted.meta == s.meta
            && (if unavailable then o == Ok(MISSING)
                else o.Err? && o.error.Wrapped? && o.error.inner == cause && observed.meta == s.meta)
            && (!unavailable && !HasCode(cause, "message_not_found") ==> created.meta == s.meta)
  {
    NoCutIff("", ':');
    hide Cut;
  }

  /** A reference to the channel that does not resolve stops Create with that error before any call. */
  lemma UnresolvedChannelStops(faults: Faults, spec: Spec, s: State, e: Error)
    ensures AfterCreate(faults, spec, s, Err(e)) == (s, Some(Wrapped("cannot resolve conversation ID", e)))
  {
  }

  // ---------- Runs ----------

  /** One reconcile that is not deleting: observe, then create if missing. */
  ghost function Reconcile(faults: Faults, spec: Spec, s: State, channel: string): State {
    var (seen, o) := Observed(faults, s);
    if o.Ok? && !o.value.present then AfterCreate(faults, spec, seen, Ok(channel)).0 else seen
  }

  ghost function CalmRun(faults: Faults, spec: Spec, s: State, channel: string, n: nat): State {
    if n == 0 then s else Reconcile(faults, spec, CalmRun(faults, spec, s, channel, n - 1), channel)
  }

  ghost predicate PresentAfter(faults: Faults, spec: Spec, s: State, channel: string, n: nat) {
    Observed(faults, CalmRun(faults, spec, s, channel, n)).1 == Ok(Observation(true, true))
  }

  /** The external name is that of a pinned message. */
  predicate NamesPin(rooms: Rooms, externalName: string) {
    var (channel, ts) := ParsePin(externalName);
    channel != "" && ts != "" && IsPinned(rooms, channel, ts)
  }

  /** The message is in an open channel and is not pinned yet. */
  predicate Pinnable(rooms: Rooms, channel: string, ts: string) {
    channel in rooms && !rooms[channel].archived && ts in rooms[channel].messages && !IsPinned(rooms, channel, ts)
  }

  /** The name that a successful Create leaves will be found. */
  predicate FoundOnceNamed(rooms: Rooms, channel: string, ts: string) {
    if ':' in channel then NamesPin(rooms, FormatPin(channel, ts)) else channel != "" && ts != ""
  }

  /** No fault-free turn can find or make the pin. */
  ghost predicate Stuck(spec: Spec, s: State, channel: string) {
    && !NamesPin(s.net.world, s.meta.externalName)
    && !(Pinnable(s.net.world, channel, spec.messageTimestamp)
           && FoundOnceNamed(s.net.world, channel, spec.messageTimestamp))
  }

  /** A successful Create names a pin exactly as predicted. */
  lemma CreatedIsFoundIff(faults: Faults, spec: Spec, s: State, channel: string)
    requires Calm(faults) && Pinnable(s.net.world, channel, spec.messageTimestamp)
    ensures var s' := AfterCreate(faults, spec, s, Ok(channel)).0;
            && (NamesPin(s'.net.world, s'.meta.externalName) <==>
                  FoundOnceNamed(s.net.world, channel, spec.messageTimestamp))
            && !Pinnable(s'.net.world, channel, spec.messageTimestamp)
  {
    var ts := spec.messageTimestamp;
    var s' := AfterCreate(faults, spec, s, Ok(channel)).0;
    CreateThenPresent(faults, spec, s, channel);
    PinRoundTripIff(channel, ts);
    var (c, t) := ParsePin(FormatPin(channel, ts));
    NoCutIff(FormatPin(channel, ts), ':');
    CutIff(FormatPin(channel, ts), ':', c, t);
    assert FormatPin(channel, ts)[|channel|] == ':';
    assert s'.meta.externalName == FormatPin(channel, ts);
    assert ':' in channel ==> c != channel;
    hide ParsePin, FormatPin, IsPinned, AfterCreate;
  }

  lemma StuckTurn(faults: Faults, spec: Spec, s: State, channel: string)
    requires Calm(faults) && Stuck(spec, s, channel)
    ensures var s' := Reconcile(faults, spec, s, channel);
            && Stuck(spec, s', channel)
            && (!Pinnable(s.net.world, channel, spec.messageTimestamp) ==>
                  s'.net.world == s.net.world && s'.meta.externalName == s.meta.externalName)
  {
    var seen := Observed(faults, s).0;
    CalmObservePresentIff(faults, s);
    CreateThenPresent(faults, spec, seen, channel);
    if Pinnable(s.net.world, channel, spec.messageTimestamp) {
      CreatedIsFoundIff(faults, spec, seen, channel);
    }
    hide Observed, AfterCreate, ParsePin, FormatPin, IsPinned, FoundOnceNamed;
  }

  lemma {:induction false} StuckForever(faults: Faults, spec: Spec, s: State, channel: string, n: nat)
    requires Calm(faults) && Stuck(spec, s, channel)
    ensures var s' := CalmRun(faults, spec, s, channel, n);
            && Stuck(spec, s', channel) && !PresentAfter(faults, spec, s, channel, n)
            && (!Pinnable(s.net.world, channel, spec.messageTimestamp) ==> s'.net.world == s.net.world)
    decreases n
  {
    hide Observed, Reconcile, Pinnable, FoundOnceNamed;
    if n > 0 {
      StuckForever(faults, spec, s, channel, n - 1);
      StuckTurn(faults, spec, CalmRun(faults, spec, s, channel, n - 1), channel);
    }
    CalmObservePresentIff(faults, CalmRun(faults, spec, s, channel, n));
    hide ParsePin, IsPinned;
  }

  lemma ObserveShape(faults: Faults, s: State)
    ensures var o := Observed(faults, s).1; o.Ok? && o.value.present ==> o == Ok(Observation(true, true))
  {
  }

  /** Exact reachability, from any external name: a fault-free run finds the pin if and only if the name is
      already that of a pinned message, or the desired message can be pinned and is not pinned yet, and the
      name it gets will parse back. A message that is pinned already, under another name or none, is never
      adopted. */
  lemma PresenceReachableIff(faults: Faults, spec: Spec, s: State, channel: string)
    requires Calm(faults)
    ensures (exists n: nat :: PresentAfter(faults, spec, s, channel, n)) <==>
              || NamesPin(s.net.world, s.meta.externalName)
              || (Pinnable(s.net.world, channel, spec.messageTimestamp)
                    && FoundOnceNamed(s.net.world, channel, spec.messageTimestamp))
  {
    CalmObservePresentIff(faults, s);
    ObserveShape(faults, s);
    assert CalmRun(faults, spec, s, channel, 0) == s;
    if NamesPin(s.net.world, s.meta.externalName) {
      assert PresentAfter(faults, spec, s, channel, 0);
    } else if Stuck(spec, s, channel) {
      forall n: nat ensures !PresentAfter(faults, spec, s, channel, n) {
        StuckForever(faults, spec, s, channel, n);
      }
    } else {
      var seen := Observed(faults, s).0;
      var s' := AfterCreate(faults, spec, seen, Ok(channel)).0;
      CreatedIsFoundIff(faults, spec, seen, channel);
      assert CalmRun(faults, spec, s, channel, 1) == s';
      CalmObservePresentIff(faults, s');
      ObserveShape(faults, s');
      assert PresentAfter(faults, spec, s, channel, 1);
    }
    hide Observed, AfterCreate, ParsePin, FormatPin, IsPinned, FoundOnceNamed, Pinnable;
  }

  /** A Create that takes effect while its response is lost: the pin is made, and fault-free runs find it
      exactly if the external name from before happens to be that of a pinned message, the new one
      included. With no external name the resource is stranded. */
  lemma LostCreateStrands(faults: Faults, lossy: Faults, spec: Spec, s: State, channel: string)
    requires lossy(s.net.calls).Lose? && Added(s.net.world, channel, spec.messageTimestamp, s.net.calls).1.Ok?
    requires Calm(faults)
    ensures var (s', ts) := (AfterCreate(lossy, spec, s, Ok(channel)).0, spec.messageTimestamp);
            && IsPinned(s'.net.world, channel, ts)
            && ((exists n: nat :: PresentAfter(faults, spec, s', channel, n)) <==>
                  var (c, t) := ParsePin(s.meta.externalName);
                  c != "" && t != "" && (IsPinned(s.net.world, c, t) || (c == channel && t == ts)))
            && (s.meta.externalName == "" ==> forall n: nat :: !PresentAfter(faults, spec, s', channel, n))
  {
    var s' := AfterCreate(lossy, spec, s, Ok(channel)).0;
    LostCreateAdds(lossy, spec, s, channel);
    hide AfterCreate, Added;
    PresenceReachableIff(faults, spec, s', channel);
    NoCutIff("", ':');
    hide PresentAfter, ParsePin, FoundOnceNamed, IsPinned;
  }

  lemma LostCreateAdds(lossy: Faults, spec: Spec, s: State, channel: string)
    requires lossy(s.net.calls).Lose? && Added(s.net.world, channel, spec.messageTimestamp, s.net.calls).1.Ok?
    ensures var s' := AfterCreate(lossy, spec, s, Ok(channel)).0;
            && s'.meta.externalName == s.meta.externalName
            && forall c, t :: IsPinned(s'.net.world, c, t) <==>
                 IsPinned(s.net.world, c, t) || (c == channel && t == spec.messageTimestamp)
  {
    var s', ts := AfterCreate(lossy, spec, s, Ok(channel)).0, spec.messageTimestamp;
    assert s'.net.world == Added(s.net.world, channel, ts, s.net.calls).0;
    var pins := s.net.world[channel].pins;
    var pins' := pins + [Pin(channel, ts, s.net.calls)];
    forall t ensures Pinned(pins', t) <==> Pinned(pins, t) || t == ts {
      assert pins'[|pins|].ts == ts;
      if k :| 0 <= k < |pins| && pins[k].ts == t { assert pins'[k].ts == t; }
    }
    hide Pinned;
  }

  // ---------- Runs under faults ----------

  /** One reconcile, after which the external name left in memory may or may not get stored. */
  ghost function FaultyTurn(faults: Faults, spec: Spec, s: State, channel: string, stored: bool): State {
    var after := Reconcile(faults, spec, s, channel);
    if stored then after else after.(meta := after.meta.(externalName := s.meta.externalName))
  }

  ghost function FaultyRun(faults: Faults, spec: Spec, s: State, channel: string, stored: seq<bool>): State {
    if stored == [] then s
    else
      var n := |stored| - 1;
      FaultyTurn(faults, spec, FaultyRun(faults, spec, s, channel, stored[..n]), channel, stored[n])
  }

  /** The condition a caller can check before a run. */
  predicate CanExist(spec: Spec, s: State, channel: string) {
    || NamesPin(s.net.world, s.meta.externalName)
    || (Pinnable(s.net.world, channel, spec.messageTimestamp)
          && FoundOnceNamed(s.net.world, channel, spec.messageTimestamp))
  }

  /** A turn strands the resource: it pins the message, but its name gets lost, either with the response or by
      not being stored, and the name from before is not the same. */
  ghost predicate Strands(faults: Faults, spec: Spec, s: State, channel: string, stored: bool) {
    var (seen, o) := Observed(faults, s);
    && o == Ok(MISSING) && Pinnable(s.net.world, channel, spec.messageTimestamp)
    && !faults(seen.net.calls).Drop? && !(stored && faults(seen.net.calls).Deliver?)
    && ParsePin(s.meta.externalName) != (channel, spec.messageTimestamp)
  }

  ghost predicate SomeTurnStrands(faults: Faults, spec: Spec, s: State, channel: string, stored: seq<bool>) {
    exists k :: 0 <= k < |stored|
      && Strands(faults, spec, FaultyRun(faults, spec, s, channel, stored[..k]), channel, stored[k])
  }

  /** Under any faults that no one mistakes for an unavailable channel, an Observe that answers is right. */
  lemma AnsweredObserve(faults: Faults, s: State)
    requires FaultsSpare(faults, {"channel_not_found", "is_archived"})
    ensures var (seen, o) := Observed(faults, s);
            && seen.net.world == s.net.world && seen.meta.externalName == s.meta.externalName
            && (o.Ok? ==> (o.value.present <==> NamesPin(s.net.world, s.meta.externalName)))
            && (o.Ok? && !o.value.present ==> o == Ok(MISSING))
  {
    var (channel, ts) := ParsePin(s.meta.externalName);
    if channel in s.net.world { FirstPinIff(s.net.world[channel].pins, ts); }
    assert "channel_not_found" in {"channel_not_found", "is_archived"};
    assert "is_archived" in {"channel_not_found", "is_archived"};
    NoCutIff("", ':');
    hide Cut, FirstPin, Pinned;
  }

  /** A Create that does not take effect changes neither Slack nor the name; one that does pins the message. */
  lemma FaultyCreate(faults: Faults, spec: Spec, s: State, channel: string)
    ensures var (rooms, ts, s') := (s.net.world, spec.messageTimestamp, AfterCreate(faults, spec, s, Ok(channel)).0);
            if Pinnable(rooms, channel, ts) && !faults(s.net.calls).Drop? then
              && (forall c, t :: IsPinned(s'.net.world, c, t) <==> IsPinned(rooms, c, t) || (c == channel && t == ts))
              && s'.meta.externalName ==
                   if faults(s.net.calls).Deliver? then FormatPin(channel, ts) else s.meta.externalName
            else s'.net.world == rooms && s'.meta.externalName == s.meta.externalName
  {
    var rooms, ts := s.net.world, spec.messageTimestamp;
    if Pinnable(rooms, channel, ts) {
      var pins := rooms[channel].pins;
      var pins' := pins + [Pin(channel, ts, s.net.calls)];
      PinnedGrows(pins, Pin(channel, ts, s.net.calls));
    }
    hide Pinned, FormatPin;
  }

  lemma PinnedGrows(pins: seq<Pin>, p: Pin)
    ensures forall t :: Pinned(pins + [p], t) <==> Pinned(pins, t) || t == p.ts
  {
    forall t ensures Pinned(pins + [p], t) <==> Pinned(pins, t) || t == p.ts {
      assert (pins + [p])[|pins|].ts == p.ts;
      if k :| 0 <= k < |pins| && pins[k].ts == t { assert (pins + [p])[k].ts == t; }
    }
  }

  /** Once the message is pinned, only the name decides. */
  lemma PinningDecides(spec: Spec, s: State, s': State, channel: string)
    requires !NamesPin(s.net.world, s.meta.externalName) && Pinnable(s.net.world, channel, spec.messageTimestamp)
    requires forall c, t :: IsPinned(s'.net.world, c, t) <==>
               IsPinned(s.net.world, c, t) || (c == channel && t == spec.messageTimestamp)
    ensures s'.meta.externalName == FormatPin(channel, spec.messageTimestamp) ==>
              (CanExist(spec, s', channel) <==> CanExist(spec, s, channel))
    ensures s'.meta.externalName == s.meta.externalName ==>
              (CanExist(spec, s', channel) <==>
                 CanExist(spec, s, channel) && ParsePin(s.meta.externalName) == (channel, spec.messageTimestamp))
  {
    var ts, name := spec.messageTimestamp, s.meta.externalName;
    var made := FormatPin(channel, ts);
    PinRoundTripIff(channel, ts);
    NoCutIff(made, ':');
    CutIff(made, ':', ParsePin(made).0, ParsePin(made).1);
    assert made[|channel|] == ':';
    assert ':' in channel ==> ParsePin(made).0 != channel;
    NoCutIff(name, ':');
    CutIff(name, ':', ParsePin(name).0, ParsePin(name).1);
    assert ParsePin(name) == (channel, ts) ==> ':' !in channel;
    hide ParsePin, FormatPin, IsPinned;
  }

  /** Exactly what a turn under faults does to what can be: nothing, unless it strands the resource. */
  lemma FaultyTurnDecides(faults: Faults, spec: Spec, s: State, channel: string, stored: bool)
    requires FaultsSpare(faults, {"channel_not_found", "is_archived"})
    ensures CanExist(spec, FaultyTurn(faults, spec, s, channel, stored), channel) <==>
              CanExist(spec, s, channel) && !Strands(faults, spec, s, channel, stored)
  {
    var s' := FaultyTurn(faults, spec, s, channel, stored);
    var (seen, o) := Observed(faults, s);
    AnsweredObserve(faults, s);
    FaultyCreate(faults, spec, seen, channel);
    if o == Ok(MISSING) && Pinnable(s.net.world, channel, spec.messageTimestamp) && !faults(seen.net.calls).Drop? {
      PinningDecides(spec, s, s', channel);
    }
    hide Observed, AfterCreate, ParsePin, FormatPin, IsPinned, Pinnable, FoundOnceNamed, NamesPin, FaultsSpare;
  }

  lemma {:induction false} FaultyRunDecides(faults: Faults, spec: Spec, s: State, channel: string, stored: seq<bool>)
    requires FaultsSpare(faults, {"channel_not_found", "is_archived"})
    ensures CanExist(spec, FaultyRun(faults, spec, s, channel, stored), channel) <==>
              CanExist(spec, s, channel) && !SomeTurnStrands(faults, spec, s, channel, stored)
    decreases |stored|
  {
    hide FaultyTurn, CanExist, FaultsSpare, Strands;
    if stored != [] {
      var n := |stored| - 1;
      FaultyRunDecides(faults, spec, s, channel, stored[..n]);
      FaultyTurnDecides(faults, spec, FaultyRun(faults, spec, s, channel, stored[..n]), channel, stored[n]);
      assert forall k :: 0 <= k < n ==> stored[..n][..k] == stored[..k] && stored[..n][k] == stored[k];
    }
  }

  /** What faults can spoil, exactly: after any finite run under faults, fault-free turns find the pin if and only
      if they could have before the run and no turn of the run has pinned the message and lost the name. */
  lemma EventuallyPresentIff(faults: Faults, calm: Faults, spec: Spec, s: State, channel: string, stored: seq<bool>)
    requires FaultsSpare(faults, {"channel_not_found", "is_archived"}) && Calm(calm)
    ensures var s' := FaultyRun(faults, spec, s, channel, stored);
            (exists n: nat :: PresentAfter(calm, spec, s', channel, n)) <==>
              CanExist(spec, s, channel) && !SomeTurnStrands(faults, spec, s, channel, stored)
  {
    FaultyRunDecides(faults, spec, s, channel, stored);
    PresenceReachableIff(calm, spec, FaultyRun(faults, spec, s, channel, stored), channel);
    hide FaultyRun, SomeTurnStrands, PresentAfter, NamesPin, Pinnable, FoundOnceNamed, FaultsSpare;
  }

  // ---------- Deletion by the driver ----------

  /** Fault-free turns of a resource being deleted: observe, then delete if present. */
  ghost function DeletionRun(faults: Faults, s: State, n: nat): State {
    if n == 0 then s
    else
      var (seen, o) := Observed(faults, DeletionRun(faults, s, n - 1));
      if o.Ok? && o.value.present then AfterDelete(faults, seen).0 else seen
  }

  /** The external name is that of a message pinned in an archived channel. */
  predicate Kept(s: State) {
    NamesPin(s.net.world, s.meta.externalName) && s.net.world[ParsePin(s.meta.externalName).0].archived
  }

  lemma {:induction false} DeletionKept(faults: Faults, s: State, n: nat)
    requires Calm(faults) && Kept(s)
    ensures var s' := DeletionRun(faults, s, n);
            && s'.net.world == s.net.world && s'.meta.externalName == s.meta.externalName
            && Observed(faults, s').1 == Ok(Observation(true, true))
    decreases n
  {
    hide Observed, AfterDelete, ParsePin, IsPinned;
    if n > 0 {
      var before := DeletionRun(faults, s, n - 1);
      DeletionKept(faults, s, n - 1);
      CalmObservePresentIff(faults, before);
      ArchivedDeleteChangesNothing(faults, Observed(faults, before).0);
    }
    CalmObservePresentIff(faults, DeletionRun(faults, s, n));
    ObserveShape(faults, DeletionRun(faults, s, n));
  }

  lemma ArchivedDeleteChangesNothing(faults: Faults, s: State)
    requires Calm(faults) && Kept(s)
    ensures var s' := AfterDelete(faults, s).0; s'.net.world == s.net.world && s'.meta == s.meta
  {
    hide ParsePin, Pinned;
  }

  /** Deletion, exactly: fault-free turns ever report the pin missing, so that the driver can finish, if and only
      if it is not one of an archived channel. */
  lemma DeletionFinishesIff(faults: Faults, s: State)
    requires Calm(faults)
    ensures (exists n: nat :: Observed(faults, DeletionRun(faults, s, n)).1 == Ok(MISSING)) <==> !Kept(s)
  {
    CalmObservePresentIff(faults, s);
    assert DeletionRun(faults, s, 0) == s;
    if Kept(s) {
      forall n: nat ensures Observed(faults, DeletionRun(faults, s, n)).1 != Ok(MISSING) {
        DeletionKept(faults, s, n);
      }
    } else if NamesPin(s.net.world, s.meta.externalName) {
      var seen := Observed(faults, s).0;
      DeleteThenGoneIff(faults, seen);
      MissingShape(faults, AfterDelete(faults, seen).0);
      CalmObservePresentIff(faults, AfterDelete(faults, seen).0);
      assert DeletionRun(faults, s, 1) == AfterDelete(faults, seen).0;
      assert Observed(faults, DeletionRun(faults, s, 1)).1 == Ok(MISSING);
    } else {
      MissingShape(faults, s);
      assert Observed(faults, DeletionRun(faults, s, 0)).1 == Ok(MISSING);
    }
    hide Observed, AfterDelete, ParsePin, IsPinned;
  }

  lemma MissingShape(faults: Faults, s: State)
    ensures var o := Observed(faults, s).1; o.Ok? && !o.value.present ==> o == Ok(MISSING)
  {
  }
}
