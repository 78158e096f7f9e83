/**
 The part of Slack that the Conversation controller talks to: a workspace of channels, and how it
 answers each call. Slack's side is an assumption, stated here in full: channel names are unique among
 all channels, archived ones included; channels are never removed; archived channels accept no writes;
 a topic or purpose is stored through `store`, which is the identity for a verbatim server and wraps
 links for one that auto-links.
 */
module ConversationApi {
  import opened Outcomes
  import opened Errors
  import opened Types
  import opened Pagination
  import opened Runtime

  type Workspace = seq<Channel>

  /** `ids(k)` is the ID that the k-th channel ever created gets. */
  datatype Server = Server(ids: nat -> string, store: string -> string)

  /** The source's test for a Slack channel ID: the first character alone decides. */
  predicate IsChannelID(s: string) {
    s != "" && s[0] in "CDG"
  }

  predicate IsAlphanumeric(c: char) {
    'a' <= c <= 'z' || 'A' <= c <= 'Z' || '0' <= c <= '9'
  }

  /** The test that the source documents: one of the three letters, then alphanumeric characters. */
  predicate IsDocumentedChannelID(s: string) {
    |s| > 1 && s[0] in "CDG" && forall k :: 1 <= k < |s| ==> IsAlphanumeric(s[k])
  }

  /** The source's test accepts every documented ID, and beyond those exactly the bare letters and the texts
      that go on with some other character. */
  lemma ChannelIDTestsDisagreeIff(s: string)
    ensures IsDocumentedChannelID(s) ==> IsChannelID(s)
    ensures IsDocumentedChannelID(s) != IsChannelID(s) <==>
              s != "" && s[0] in "CDG" && (|s| == 1 || exists k :: 1 <= k < |s| && !IsAlphanumeric(s[k]))
  {
  }

  ghost predicate Valid(srv: Server, ws: Workspace) {
    && (forall i, j :: srv.ids(i) == srv.ids(j) ==> i == j)
    && (forall i :: IsChannelID(srv.ids(i)))
    && (forall k :: 0 <= k < |ws| ==> ws[k].id == srv.ids(k))
  }

  ghost predicate UniqueNames(ws: Workspace) {
    forall i, j :: 0 <= i < j < |ws| ==> ws[i].name != ws[j].name
  }

  /** Position of the channel with an ID, or the number of channels if there is none. */
  function IndexOf(ws: Workspace, id: string): (k: nat)
    ensures k <= |ws|
    ensures k < |ws| ==> ws[k].id == id
    ensures forall j :: 0 <= j < k ==> ws[j].id != id
  {
    if ws == [] || ws[0].id == id then 0 else 1 + IndexOf(ws[1..], id)
  }

  predicate Taken(ws: Workspace, name: string) {
    exists k :: 0 <= k < |ws| && ws[k].name == name
  }

  predicate TakenByOther(ws: Workspace, name: string, k: nat) {
    exists j :: 0 <= j < |ws| && j != k && ws[j].name == name
  }

  datatype Write =
    | Join(id: string)
    | Rename(id: string, name: string)
    | SetTopic(id: string, text: string)
    | SetPurpose(id: string, text: string)
    | Archive(id: string)

  function Effect(srv: Server, c: Channel, w: Write): Channel {
    match w
    case Join(_) => c
    case Rename(_, name) => c.(name := name)
    case SetTopic(_, text) => c.(topic := srv.store(text))
    case SetPurpose(_, text) => c.(purpose := srv.store(text))
    case Archive(_) => c.(isArchived := true)
  }

  function Apply(srv: Server, ws: Workspace, w: Write): (Workspace, Result<(), Error>) {
    var k := IndexOf(ws, w.id);
    if k == |ws| then (ws, Err(Rejection("channel_not_found")))
    else if ws[k].isArchived then (ws, Err(Rejection(if w.Archive? then "already_archived" else "is_archived")))
    else if w.Rename? && TakenByOther(ws, w.name, k) then (ws, Err(Rejection("name_taken")))
    else (ws[k := Effect(srv, ws[k], w)], Ok(()))
  }

  function Created(srv: Server, ws: Workspace, name: string, isPrivate: bool): (Workspace, Result<Channel, Error>) {
    if Taken(ws, name) then (ws, Err(Rejection("name_taken")))
    else
      var c := Channel(srv.ids(|ws|), name, isPrivate, false, "", "", 1, 0);
      (ws + [c], Ok(c))
  }

  function Info(ws: Workspace, id: string): (Workspace, Result<Channel, Error>) {
    var k := IndexOf(ws, id);
    (ws, if k == |ws| then Err(Rejection("channel_not_found")) else Ok(ws[k]))
  }

  /** The listing is read in full, so a search by name is the first match of the whole workspace. */
  function Found(ws: Workspace, name: string): (Workspace, Result<Option<Channel>, Error>) {
    (ws, Ok(FirstNamed(ws, name)))
  }

  /** The client as the controller holds it. */
  class SlackClient {
    const srv: Server
    const faults: Faults
    var net: Net<Workspace>

    constructor (srv: Server, faults: Faults, ws: Workspace)
      ensures this.srv == srv && this.faults == faults && net == Net(ws, 0)
    {
      this.srv, this.faults, net := srv, faults, Net(ws, 0);
    }

    method CreateConversation(name: string, isPrivate: bool) returns (r: Result<Channel, Error>)
      modifies this
      ensures (net, r) == Transit(faults, old(net), Created(srv, old(net.world), name, isPrivate))
    {
      var (after, answer) := Transit(faults, net, Created(srv, net.world, name, isPrivate));
      net, r := after, answer;
    }

    method GetConversationInfo(id: string) returns (r: Result<Channel, Error>)
      modifies this
      ensures (net, r) == Transit(faults, old(net), Info(old(net.world), id))
    {
      var (after, answer) := Transit(faults, net, Info(net.world, id));
      net, r := after, answer;
    }

    method FindConversationByName(name: string) returns (r: Result<Option<Channel>, Error>)
      modifies this
      ensures (net, r) == Transit(faults, old(net), Found(old(net.world), name))
    {
      var (after, answer) := Transit(faults, net, Found(net.world, name));
      net, r := after, answer;
    }

    /** Rename, set topic, set purpose, archive or join. */
    method Write(w: Write) returns (r: Result<(), Error>)
      modifies this
      ensures (net, r) == Transit(faults, old(net), Apply(srv, old(net.world), w))
    {
      var (after, answer) := Transit(faults, net, Apply(srv, net.world, w));
      net, r := after, answer;
    }
  }

  // ---------- What the workspace keeps ----------

  lemma IndexOfValid(srv: Server, ws: Workspace, k: nat)
    requires Valid(srv, ws) && k < |ws|
    ensures IndexOf(ws, ws[k].id) == k
  {
    var j := IndexOf(ws, ws[k].id);
    assert srv.ids(j) == srv.ids(k);
  }

  lemma FirstNamedHolds(ws: Workspace, name: string)
    ensures FirstNamed(ws, name).Some? <==> Taken(ws, name)
    ensures FirstNamed(ws, name).Some? ==>
              exists k :: 0 <= k < |ws| && ws[k].name == name && ws[k] == FirstNamed(ws, name).value
  {
    FirstNamedIsNamed(ws, name);
    FirstNamedIsListed(ws, name);
    if k :| 0 <= k < |ws| && ws[k].name == name {
      assert Named(name)(ws[k]);
    }
    if k :| 0 <= k < |ws| && Named(name)(ws[k]) {
      assert ws[k].name == name;
    }
  }

  /** A write touches at most the one channel it names, and keeps IDs and name uniqueness. */
  lemma WriteIsLocal(srv: Server, ws: Workspace, w: Write)
    ensures var ws' := Apply(srv, ws, w).0;
            && |ws'| == |ws|
            && (forall j :: 0 <= j < |ws| ==> ws'[j].id == ws[j].id)
            && (forall j :: 0 <= j < |ws| && j != IndexOf(ws, w.id) ==> ws'[j] == ws[j])
            && (Valid(srv, ws) ==> Valid(srv, ws'))
            && (UniqueNames(ws) ==> UniqueNames(ws'))
  {
  }

  lemma SameIdsSameIndex(ws: Workspace, ws': Workspace, id: string)
    requires |ws'| == |ws| && forall j :: 0 <= j < |ws| ==> ws'[j].id == ws[j].id
    ensures IndexOf(ws', id) == IndexOf(ws, id)
  {
    var i, j := IndexOf(ws, id), IndexOf(ws', id);
    assert i < |ws| ==> ws'[i].id == id;
    assert j < |ws| ==> ws[j].id == id;
  }
}
