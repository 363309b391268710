/** The realtime chat broker of `server/index.js`: the Socket.IO handlers for
    group chat (`join_group`, `send_message`, `vote_poll`) and for the anonymous
    global chat (`send`, `new-user-joined`, `disconnect`).

    Socket.IO rooms are a map from room id to the set of connection ids in it;
    every `emit` is appended to an outbox together with the way it was addressed
    (`io.to(room)`, `io.emit`, `socket.broadcast.emit`) and the connections it
    reached. The message collection and the user collection are maps; the
    `bad-words` filter is an arbitrary function fixed when the server starts. */
module ChatServer {
  import opened Wrappers
  import opened Seqs
  import opened Models

  type ConnId = string
  type RoomId = string

  /** An entry of the presence map `chatUsers`, keyed by connection id. */
  datatype Presence = Presence(name: string, profilePicture: Option<string>)

  /** The `join_group` payload: a bare group id, or `{groupId, username}`. */
  datatype JoinData = GroupIdOnly(groupId: RoomId) | JoinRequest(groupId: RoomId, username: Option<string>)

  /** The `send_message` payload; an absent `pollOptions` is the empty list. */
  datatype SendData = SendData(
    groupId: Option<Id>,
    senderId: Option<Id>,
    kind: Option<string>,
    content: Option<string>,
    pollQuestion: Option<string>,
    pollOptions: seq<PollOption>)

  /** The `vote_poll` payload. */
  datatype VoteData = VoteData(messageId: Id, optionIndex: int, userId: Id)

  /** The `send` payload of the global chat. */
  datatype ChatLine = ChatLine(message: Option<string>, name: Option<string>, profilePicture: Option<string>)

  /** The `new-user-joined` payload: a bare name, or `{name, profilePicture}`. */
  datatype Announce = NameOnly(name: string) | Profile(name: string, profilePicture: Option<string>)

  /** `populate('sender', ['username', 'profilePicture'])` of a known user. */
  datatype SenderProfile = SenderProfile(id: Id, username: string, profilePicture: string)

  datatype Payload =
    | SystemNotice(content: string)                               // join_group's `type: 'system'` message, its `_id` left out
    | Stored(message: Message, sender: Option<SenderProfile>)      // a saved message, sender populated (or null)
    | GlobalLine(text: string, name: string, profilePicture: Option<string>)  // `receive`
    | PresenceNotice(name: string, profilePicture: Option<string>) // `user-joined`, `left`

  datatype EventName = ReceiveMessage | PollUpdated | Receive | UserJoined | Left

  /** How an emit is addressed: `io.to(room)`, `io.emit` or `socket.broadcast.emit`. */
  datatype Scope = ToRoom(room: RoomId) | ToEveryone | ToAllBut(conn: ConnId)

  datatype Emit = Emit(event: EventName, scope: Scope, recipients: set<ConnId>, payload: Payload)

  /** Why `send_message` stored nothing: `filter.clean` threw on a missing
      content, or `save()` rejected the document. */
  datatype SendError = ContentMissing | Invalid

  datatype VoteOutcome = NoSuchMessage | NotAPoll | OptionOutOfRange | Toggled

  /** The connections in a room; a room nobody joined is empty. */
  function Members(rooms: map<RoomId, set<ConnId>>, g: RoomId): set<ConnId> {
    if g in rooms then rooms[g] else {}
  }

  /** How `join_group` reads its payload: (group id, username). */
  function JoinTarget(d: JoinData): (r: (RoomId, Option<string>))
    ensures r.0 == d.groupId
    ensures d.GroupIdOnly? ==> r.1.None?
    ensures d.JoinRequest? ==> r.1 == d.username
  {
    match d
    case GroupIdOnly(g) => (g, None)
    case JoinRequest(g, u) => (g, u)
  }

  /** Message.type after Mongoose casting: absent means the default `'text'`,
      a value outside the enum fails validation. */
  function ParseKind(k: Option<string>): Option<MessageKind> {
    match k
    case None => Some(TextKind)
    case Some(s) =>
      if s == "text" then Some(TextKind)
      else if s == "image" then Some(ImageKind)
      else if s == "poll" then Some(PollKind)
      else None
  }

  /** `new Message({...})` with `content: filter.clean(data.content)`, followed by
      the schema validation that `save()` runs. */
  function NewMessage(id: Id, d: SendData, clean: string -> string): (r: Result<Message, SendError>)
    ensures d.content.None? ==> r == Err(ContentMissing)
    ensures r.Ok? <==> d.content.Some? && d.groupId.Some? && d.senderId.Some? && ParseKind(d.kind).Some?
    ensures r.Ok? ==> r.value.id == id && r.value.group == d.groupId.value && r.value.sender == d.senderId.value
    ensures r.Ok? ==> r.value.content == clean(d.content.value)
    ensures r.Ok? ==> r.value.pollQuestion == d.pollQuestion && r.value.pollOptions == d.pollOptions
  {
    if d.content.None? then Err(ContentMissing)
    else
      var content := clean(d.content.value);
      if d.groupId.None? || d.senderId.None? || ParseKind(d.kind).None? then Err(Invalid)
      else Ok(Message(id, d.groupId.value, d.senderId.value, ParseKind(d.kind).value,
                      content, d.pollQuestion, d.pollOptions))
  }

  /** `populate('sender', ...)`: the sender's profile, or null for an unknown id. */
  function SenderOf(users: map<Id, Account>, id: Id): Option<SenderProfile> {
    if id in users then Some(SenderProfile(id, users[id].username, users[id].profilePicture)) else None
  }

  /** The vote toggle of `vote_poll`: `indexOf(userId)`, then `push` when absent
      and `splice(voteIdx, 1)` when present. */
  function ToggleVote(votes: seq<Id>, u: Id): (r: seq<Id>)
    ensures forall y :: y != u ==> multiset(r)[y] == multiset(votes)[y]
    ensures multiset(r)[u] == if u in votes then multiset(votes)[u] - 1 else 1
    ensures u !in votes ==> |r| == |votes| + 1 && r[..|votes|] == votes
    ensures u in votes ==> r == RemoveFirst(votes, u)
  {
    var voteIdx := IndexOf(votes, u);
    if voteIdx == -1 then votes + [u] else RemoveFirst(votes, u)
  }

  /** From a state where the user has not voted, voting twice restores the list exactly. */
  lemma ToggleTwiceRestores(votes: seq<Id>, u: Id)
    requires u !in votes
    ensures ToggleVote(ToggleVote(votes, u), u) == votes
  {
    RemoveFirstAfterAppend(votes, u);
  }

  /** From a state where the user has voted, voting twice restores the voters
      but not their order: the id moves to the end. */
  lemma ToggleTwiceReorders(votes: seq<Id>, u: Id)
    requires NoDup(votes) && u in votes
    ensures ToggleVote(ToggleVote(votes, u), u) == RemoveFirst(votes, u) + [u]
  {
    RemoveFirstNoDup(votes, u);
  }

  /** A toggle never creates a duplicate vote, and on a duplicate-free list it
      flips whether the user is among the voters. */
  lemma ToggleNoDup(votes: seq<Id>, u: Id)
    requires NoDup(votes)
    ensures NoDup(ToggleVote(votes, u))
    ensures u in ToggleVote(votes, u) <==> u !in votes
    ensures forall y :: y != u ==> (y in ToggleVote(votes, u) <==> y in votes)
  {
    if u in votes {
      RemoveFirstNoDup(votes, u);
    } else {
      var r := votes + [u];
      forall i, j | 0 <= i < j < |r| ensures r[i] != r[j] {
        if j == |votes| {
          assert r[i] == votes[i];
        }
      }
    }
  }

  /** `vote_poll` on option `i`: only that option's vote list changes. */
  function CastOrRetract(m: Message, i: nat, u: Id): (r: Message)
    requires i < |m.pollOptions|
    ensures |r.pollOptions| == |m.pollOptions|
    ensures r.pollOptions[i].text == m.pollOptions[i].text
    ensures r.pollOptions[i].votes == ToggleVote(m.pollOptions[i].votes, u)
    ensures forall j :: 0 <= j < |m.pollOptions| && j != i ==> r.pollOptions[j] == m.pollOptions[j]
    ensures r.(pollOptions := m.pollOptions) == m
  {
    var option := m.pollOptions[i];
    m.(pollOptions := m.pollOptions[i := option.(votes := ToggleVote(option.votes, u))])
  }

  /** Voting twice on the same option of a poll the user had not voted in there
      gives back the same message. */
  lemma VoteTwiceRestoresMessage(m: Message, i: nat, u: Id)
    requires i < |m.pollOptions| && u !in m.pollOptions[i].votes
    ensures CastOrRetract(CastOrRetract(m, i, u), i, u) == m
  {
    ToggleTwiceRestores(m.pollOptions[i].votes, u);
    var once := CastOrRetract(m, i, u);
    var twice := CastOrRetract(once, i, u);
    assert twice.pollOptions == m.pollOptions;
  }

  /** Nothing stops a user from holding votes in two options of one poll. */
  lemma VotesInSeveralOptions(m: Message, i: nat, j: nat, u: Id)
    requires i < |m.pollOptions| && j < |m.pollOptions| && i != j
    requires u !in m.pollOptions[i].votes && u !in m.pollOptions[j].votes
    ensures var r := CastOrRetract(CastOrRetract(m, i, u), j, u);
      u in r.pollOptions[i].votes && u in r.pollOptions[j].votes
  {
    var once := CastOrRetract(m, i, u);
    assert multiset(once.pollOptions[i].votes)[u] == 1;
    var twice := CastOrRetract(once, j, u);
    assert multiset(twice.pollOptions[j].votes)[u] == 1;
  }

  /** Toggling keeps every option's vote list duplicate-free. */
  lemma VoteKeepsVotesDistinct(m: Message, i: nat, u: Id)
    requires i < |m.pollOptions|
    requires forall k :: 0 <= k < |m.pollOptions| ==> NoDup(m.pollOptions[k].votes)
    ensures var r := CastOrRetract(m, i, u);
      forall k :: 0 <= k < |r.pollOptions| ==> NoDup(r.pollOptions[k].votes)
  {
    ToggleNoDup(m.pollOptions[i].votes, u);
  }

  /** The name `send` resolves: `data.name`, else the presence entry's name, else `'Anonymous'`. */
  function SenderName(d: ChatLine, entry: Option<Presence>): string {
    if Truthy(d.name) then d.name.value
    else if entry.Some? then entry.value.name
    else "Anonymous"
  }

  /** The picture `send` resolves: `data.profilePicture`, else the presence entry's, else null. */
  function SenderPicture(d: ChatLine, entry: Option<Presence>): Option<string> {
    if Truthy(d.profilePicture) then d.profilePicture
    else if entry.Some? then entry.value.profilePicture
    else None
  }

  /** `User.findOne({username: name})` finds a chat-blocked account. */
  predicate BlockedName(users: map<Id, Account>, name: string) {
    exists id | id in users :: users[id].username == name && users[id].isChatBlocked
  }

  /** The `receive` payload of `send`, or None when `filter.clean` throws on a
      missing message and nothing is emitted. */
  function GlobalLineFor(d: ChatLine, entry: Option<Presence>, users: map<Id, Account>,
                         clean: string -> string): (r: Option<Payload>)
    ensures r.None? <==> d.message.None?
    ensures r.Some? ==> r.value.GlobalLine? && r.value.name == SenderName(d, entry)
                        && r.value.profilePicture == SenderPicture(d, entry)
  {
    if d.message.None? then None
    else
      var content := clean(d.message.value);
      var name := SenderName(d, entry);
      var text := if name != "Anonymous" && BlockedName(users, name) then "****" else content;
      Some(GlobalLine(text, name, SenderPicture(d, entry)))
  }

  /** The broadcast text is the sanitized message unless the resolved name is a
      chat-blocked account other than `'Anonymous'`, in which case it is `'****'`
      whatever was written. */
  lemma GlobalLineModeration(d: ChatLine, entry: Option<Presence>, users: map<Id, Account>,
                             clean: string -> string)
    requires d.message.Some?
    ensures var p := GlobalLineFor(d, entry, users, clean);
      && p.Some? && p.value.GlobalLine?
      && p.value.name == SenderName(d, entry)
      && ((SenderName(d, entry) != "Anonymous" && BlockedName(users, SenderName(d, entry)))
          ==> p.value.text == "****")
      && ((SenderName(d, entry) == "Anonymous" || !BlockedName(users, SenderName(d, entry)))
          ==> p.value.text == clean(d.message.value))
  {
  }

  /** Redaction does not depend on what the blocked user wrote. */
  lemma RedactionIgnoresContent(d: ChatLine, other: string, entry: Option<Presence>,
                                users: map<Id, Account>, clean: string -> string)
    requires d.message.Some?
    requires SenderName(d, entry) != "Anonymous" && BlockedName(users, SenderName(d, entry))
    ensures GlobalLineFor(d, entry, users, clean) == GlobalLineFor(d.(message := Some(other)), entry, users, clean)
  {
  }

  /** An explicit non-empty name in the payload overrides the presence entry. */
  lemma ExplicitNameWins(d: ChatLine, e1: Option<Presence>, e2: Option<Presence>)
    requires Truthy(d.name)
    ensures SenderName(d, e1) == SenderName(d, e2) == d.name.value
  {
  }

  class Server {
    /** `filter.clean` of the `bad-words` package. */
    const clean: string -> string
    var connected: set<ConnId>
    var rooms: map<RoomId, set<ConnId>>
    var messages: map<Id, Message>
    var users: map<Id, Account>
    var presence: map<ConnId, Presence>
    var outbox: seq<Emit>
    /** Every (connection, room) pair `join_group` has ever made. */
    ghost var joins: set<(ConnId, RoomId)>
    /** The unsanitized content each stored message was sent with. */
    ghost var raw: map<Id, string>

    /** An emit reaches only connections that joined its room, a broadcast never
        reaches its sender, and a stored message goes to its own group's room. */
    ghost static predicate WellAddressed(e: Emit, joins: set<(ConnId, RoomId)>) {
      && (e.scope.ToRoom? ==> forall c | c in e.recipients :: (c, e.scope.room) in joins)
      && (e.scope.ToAllBut? ==> e.scope.conn !in e.recipients)
      && (e.payload.Stored? ==> e.scope == ToRoom(e.payload.message.group))
    }

    /** Appending a well-addressed emit keeps the whole outbox well addressed. */
    static lemma AppendWellAddressed(outbox: seq<Emit>, e: Emit, joins: set<(ConnId, RoomId)>)
      requires forall k | 0 <= k < |outbox| :: WellAddressed(outbox[k], joins)
      requires WellAddressed(e, joins)
      ensures forall k | 0 <= k < |outbox + [e]| :: WellAddressed((outbox + [e])[k], joins)
    {
    }

    /** More recorded joins keep an outbox well addressed. */
    static lemma WiderJoins(outbox: seq<Emit>, joins: set<(ConnId, RoomId)>, more: set<(ConnId, RoomId)>)
      requires forall k | 0 <= k < |outbox| :: WellAddressed(outbox[k], joins)
      requires joins <= more
      ensures forall k | 0 <= k < |outbox| :: WellAddressed(outbox[k], more)
    {
    }

    ghost predicate Valid()
      reads this
    {
      && UniqueUsernames(users)
      && presence.Keys <= connected
      && (forall g | g in rooms :: rooms[g] <= connected)
      && (forall g, c | g in rooms && c in rooms[g] :: (c, g) in joins)
      && raw.Keys == messages.Keys
      && (forall id | id in messages :: messages[id].id == id && messages[id].content == clean(raw[id]))
      && (forall k | 0 <= k < |outbox| :: WellAddressed(outbox[k], joins))
    }

    constructor (clean: string -> string, users: map<Id, Account>)
      requires UniqueUsernames(users)
      ensures Valid()
      ensures this.clean == clean && this.users == users
      ensures connected == {} && rooms == map[] && messages == map[] && presence == map[] && outbox == []
    {
      this.clean := clean;
      this.users := users;
      connected, rooms, messages, presence, outbox := {}, map[], map[], map[], [];
      joins, raw := {}, map[];
    }

    /** `io.on('connection')`: a new socket. */
    method Connect(conn: ConnId)
      requires Valid() && conn !in connected
      modifies this
      ensures Valid()
      ensures connected == old(connected) + {conn}
      ensures rooms == old(rooms) && messages == old(messages) && users == old(users)
      ensures presence == old(presence) && outbox == old(outbox)
    {
      connected := connected + {conn};
    }

    /** `join_group`: the connection joins the room; a truthy username makes the
        room (joiner included) receive a system message, on every such join. */
    method JoinGroup(conn: ConnId, data: JoinData)
      requires Valid() && conn in connected
      modifies this
      ensures Valid()
      ensures var (g, username) := JoinTarget(data);
        && rooms == old(rooms)[g := Members(old(rooms), g) + {conn}]
        && outbox == old(outbox) + (if Truthy(username)
             then [Emit(ReceiveMessage, ToRoom(g), rooms[g], SystemNotice(username.value + " joined the chat"))]
             else [])
      ensures connected == old(connected) && messages == old(messages) && users == old(users)
      ensures presence == old(presence)
    {
      var groupId: RoomId, username: Option<string>;
      match data {
        case GroupIdOnly(g) =>
          groupId, username := g, None;
        case JoinRequest(g, u) =>
          groupId, username := g, u;
      }
      WiderJoins(outbox, joins, joins + {(conn, groupId)});
      rooms := rooms[groupId := Members(rooms, groupId) + {conn}];
      joins := joins + {(conn, groupId)};
      if Truthy(username) {
        var e := Emit(ReceiveMessage, ToRoom(groupId), rooms[groupId],
                      SystemNotice(username.value + " joined the chat"));
        assert WellAddressed(e, joins);
        AppendWellAddressed(outbox, e, joins);
        outbox := outbox + [e];
      }
    }

    /** `send_message`: sanitize, save, populate the sender and broadcast to room
        `data.groupId`. When `clean` throws or `save()` rejects, nothing changes. */
    method SendMessage(conn: ConnId, data: SendData, newId: Id) returns (r: Result<Message, SendError>)
      requires Valid() && conn in connected && newId !in messages
      modifies this
      ensures Valid()
      ensures r == NewMessage(newId, data, clean)
      ensures r.Ok? ==> messages == old(messages)[newId := r.value]
      ensures r.Ok? ==> outbox == old(outbox) + [Emit(ReceiveMessage, ToRoom(r.value.group),
                                                      Members(rooms, r.value.group),
                                                      Stored(r.value, SenderOf(users, r.value.sender)))]
      ensures r.Err? ==> messages == old(messages) && outbox == old(outbox)
      ensures connected == old(connected) && rooms == old(rooms) && users == old(users)
      ensures presence == old(presence)
    {
      r := NewMessage(newId, data, clean);
      if r.Err? {
        return;
      }
      var newMessage := r.value;
      messages := messages[newId := newMessage];
      raw := raw[newId := data.content.value];
      var e := Emit(ReceiveMessage, ToRoom(newMessage.group), Members(rooms, newMessage.group),
                    Stored(newMessage, SenderOf(users, newMessage.sender)));
      assert WellAddressed(e, joins);
      AppendWellAddressed(outbox, e, joins);
      outbox := outbox + [e];
    }

    /** The end of `vote_poll`: the updated poll is saved in place of the stored
        message and sent to its group's room. */
    method SaveAndBroadcast(message: Message)
      requires Valid() && message.id in messages && message.content == messages[message.id].content
      modifies this
      ensures Valid()
      ensures messages == old(messages)[message.id := message]
      ensures outbox == old(outbox) + [Emit(PollUpdated, ToRoom(message.group), Members(rooms, message.group),
                                            Stored(message, SenderOf(users, message.sender)))]
      ensures connected == old(connected) && rooms == old(rooms) && users == old(users)
      ensures presence == old(presence) && joins == old(joins) && raw == old(raw)
    {
      var e := Emit(PollUpdated, ToRoom(message.group), Members(rooms, message.group),
                    Stored(message, SenderOf(users, message.sender)));
      assert WellAddressed(e, joins);
      AppendWellAddressed(outbox, e, joins);
      messages := messages[message.id := message];
      outbox := outbox + [e];
    }

    /** `vote_poll`: a no-op unless the message exists and is a poll; an
        out-of-range option index throws before anything is saved. Otherwise the
        user's vote in that option is toggled, the message saved and
        `poll_updated` sent to the message's group room. */
    method VotePoll(conn: ConnId, data: VoteData) returns (outcome: VoteOutcome)
      requires Valid() && conn in connected
      modifies this
      ensures Valid()
      ensures outcome == NoSuchMessage <==> data.messageId !in old(messages)
      ensures outcome == NotAPoll <==> data.messageId in old(messages) && old(messages)[data.messageId].kind != PollKind
      ensures outcome == OptionOutOfRange <==>
        && data.messageId in old(messages) && old(messages)[data.messageId].kind == PollKind
        && !(0 <= data.optionIndex < |old(messages)[data.messageId].pollOptions|)
      ensures outcome == Toggled ==>
        var m := CastOrRetract(old(messages)[data.messageId], data.optionIndex, data.userId);
        && messages == old(messages)[data.messageId := m]
        && outbox == old(outbox) + [Emit(PollUpdated, ToRoom(m.group), Members(rooms, m.group),
                                         Stored(m, SenderOf(users, m.sender)))]
      ensures outcome != Toggled ==> messages == old(messages) && outbox == old(outbox)
      ensures connected == old(connected) && rooms == old(rooms) && users == old(users)
      ensures presence == old(presence) && joins == old(joins) && raw == old(raw)
    {
      if data.messageId !in messages {
        return NoSuchMessage;
      }
      var message := messages[data.messageId];
      if message.kind != PollKind {
        return NotAPoll;
      }
      if !(0 <= data.optionIndex < |message.pollOptions|) {
        return OptionOutOfRange;
      }
      message := CastOrRetract(message, data.optionIndex, data.userId);
      assert message.id == data.messageId && message.content == messages[data.messageId].content;
      SaveAndBroadcast(message);
      outcome := Toggled;
    }

    /** `send` (global chat): resolve the sender, sanitize, redact a chat-blocked
        sender's text to `'****'`, and emit `receive` to every connection,
        sender included. A missing message makes `filter.clean` throw. */
    method Send(conn: ConnId, data: ChatLine) returns (delivered: bool)
      requires Valid() && conn in connected
      modifies this
      ensures Valid()
      ensures var entry := if conn in presence then Some(presence[conn]) else None;
        var line := GlobalLineFor(data, entry, users, clean);
        && delivered == line.Some?
        && outbox == old(outbox) + (if delivered then [Emit(Receive, ToEveryone, connected, line.value)] else [])
      ensures connected == old(connected) && rooms == old(rooms) && messages == old(messages)
      ensures users == old(users) && presence == old(presence)
    {
      if data.message.None? {
        return false;
      }
      var content := clean(data.message.value);
      var entry := if conn in presence then Some(presence[conn]) else None;
      var senderName := SenderName(data, entry);
      var senderPic := SenderPicture(data, entry);
      if senderName != "Anonymous" {
        if BlockedName(users, senderName) {
          content := "****";
        }
      }
      outbox := outbox + [Emit(Receive, ToEveryone, connected, GlobalLine(content, senderName, senderPic))];
      delivered := true;
    }

    /** `new-user-joined`: overwrite this connection's presence entry and tell
        every other connection. */
    method NewUserJoined(conn: ConnId, data: Announce)
      requires Valid() && conn in connected
      modifies this
      ensures Valid()
      ensures var entry := match data
          case NameOnly(n) => Presence(n, None)
          case Profile(n, p) => Presence(n, p);
        && presence == old(presence)[conn := entry]
        && outbox == old(outbox) + [Emit(UserJoined, ToAllBut(conn), connected - {conn},
                                         PresenceNotice(entry.name, entry.profilePicture))]
      ensures connected == old(connected) && rooms == old(rooms) && messages == old(messages)
      ensures users == old(users)
    {
      var name: string, profilePicture: Option<string>;
      match data {
        case NameOnly(n) =>
          name, profilePicture := n, None;
        case Profile(n, p) =>
          name, profilePicture := n, p;
      }
      presence := presence[conn := Presence(name, profilePicture)];
      outbox := outbox + [Emit(UserJoined, ToAllBut(conn), connected - {conn}, PresenceNotice(name, profilePicture))];
    }

    /** `disconnect`: the socket leaves every room; if it has a presence entry,
        the others get `left` with that entry and the entry is deleted. */
    method Disconnect(conn: ConnId)
      requires Valid() && conn in connected
      modifies this
      ensures Valid()
      ensures connected == old(connected) - {conn}
      ensures rooms == (map g | g in old(rooms) :: old(rooms)[g] - {conn})
      ensures presence == old(presence) - {conn}
      ensures outbox == old(outbox) + (if conn in old(presence)
        then [Emit(Left, ToAllBut(conn), old(connected) - {conn},
                   PresenceNotice(old(presence)[conn].name, old(presence)[conn].profilePicture))]
        else [])
      ensures messages == old(messages) && users == old(users)
    {
      connected := connected - {conn};
      rooms := map g | g in rooms :: rooms[g] - {conn};
      if conn in presence {
        var entry := presence[conn];
        var e := Emit(Left, ToAllBut(conn), connected, PresenceNotice(entry.name, entry.profilePicture));
        AppendWellAddressed(outbox, e, joins);
        outbox := outbox + [e];
        presence := presence - {conn};
      }
    }
  }

  /** Global chat: X announces "Alice", Y announces "Bob", X sends "hi"; both
      receive it under the name "Alice". */
  method AnonymousChatScenario(clean: string -> string)
  {
    var s := new Server(clean, map[]);
    s.Connect("X");
    s.Connect("Y");
    s.NewUserJoined("X", NameOnly("Alice"));
    assert s.outbox[0].recipients == {"Y"};
    s.NewUserJoined("Y", NameOnly("Bob"));
    var delivered := s.Send("X", ChatLine(Some("hi"), None, None));
    assert delivered;
    assert s.outbox[2] == Emit(Receive, ToEveryone, {"X", "Y"}, GlobalLine(clean("hi"), "Alice", None));
  }

  /** Group chat: a poll with options A and B is posted to room g1, where only
      connection X listens. */
  method PollScenario(clean: string -> string)
  {
    var s := new Server(clean, map[]);
    s.Connect("X");
    s.JoinGroup("X", GroupIdOnly("g1"));
    var options := [PollOption("A", []), PollOption("B", [])];
    var r := s.SendMessage("X", SendData(Some("g1"), Some("u1"), Some("poll"), Some("Poll"), Some("Q?"), options), "m1");
    assert s.messages["m1"].kind == PollKind && s.messages["m1"].pollOptions == options;
    assert Members(s.rooms, "g1") == {"X"};
    VoteScenario(s, options);
  }

  /** A user votes for option A of that poll: the vote is recorded and the
      update reaches the room. */
  method VoteScenario(s: Server, options: seq<PollOption>)
    requires s.Valid() && "X" in s.connected && "m1" in s.messages
    requires options == [PollOption("A", []), PollOption("B", [])]
    requires s.messages["m1"].kind == PollKind && s.messages["m1"].pollOptions == options
    requires s.messages["m1"].group == "g1" && Members(s.rooms, "g1") == {"X"}
    modifies s
  {
    var o := s.VotePoll("X", VoteData("m1", 0, "u1"));
    assert o == Toggled;
    assert ToggleVote([], "u1") == ["u1"];
    assert s.messages["m1"].pollOptions[0].votes == ["u1"];
    assert s.outbox[|s.outbox| - 1].recipients == {"X"};
  }
}
