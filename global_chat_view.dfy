/** The anonymous global chat page of `client/src/pages/Chat.jsx`: joining with
    an alias, sending a line, and the three socket listeners that append to the
    list of shown messages. */
module GlobalChatView {
  import opened Wrappers
  import opened Models
  import opened Strings
  import opened ChatServer

  /** Which side of the list a chat line is drawn on. */
  datatype Position = ChatLeft | ChatRight

  datatype EntryKind = SystemEntry | TextEntry

  /** One shown message; `id` is the `Date.now()` stamp `appendMessage` adds. */
  datatype Entry = Entry(
    content: string,
    name: Option<string>,
    profilePicture: Option<string>,
    position: Option<Position>,
    kind: EntryKind,
    id: int)

  /** The page's state: the shown messages, the text input, the chosen name,
      whether the join overlay is passed, the alias input and the picture. */
  datatype View = View(
    messages: seq<Entry>,
    messageInp: string,
    name: string,
    hasJoined: bool,
    joinName: string,
    userProfile: Option<string>)

  /** The value a listener receives: an object with a `name` field, a bare
      string, or `null`. */
  datatype EventData = NamedObject(name: string) | Bare(text: string) | NullData

  /** How a presence notice of the server arrives at the page. */
  function Received(p: Payload): EventData {
    match p
    case PresenceNotice(name, _) => NamedObject(name)
    case _ => NullData
  }

  /** `appendMessage`: one entry, stamped, at the end. */
  function AppendMessage(messages: seq<Entry>, e: Entry, stamp: int): (r: seq<Entry>)
    ensures |r| == |messages| + 1 && r[..|messages|] == messages
    ensures r[|messages|] == e.(id := stamp)
  {
    messages + [e.(id := stamp)]
  }

  /** A system line without sender fields. */
  function SystemLine(content: string): Entry {
    Entry(content, None, None, None, SystemEntry, 0)
  }

  /** `handleJoin`: an alias that is blank after trimming is refused; any
      other is kept and announced exactly as typed, without a picture. */
  function HandleJoin(v: View): (r: (View, Option<Announce>))
    ensures r.1.Some? <==> Trim(v.joinName) != ""
    ensures r.1.None? ==> r.0 == v
    ensures r.1.Some? ==> r.0 == v.(name := v.joinName, hasJoined := true) && r.1 == Some(Profile(v.joinName, None))
  {
    if Trim(v.joinName) != "" then (v.(name := v.joinName, hasJoined := true), Some(Profile(v.joinName, None)))
    else (v, None)
  }

  /** `handleSend`: a blank input sends nothing; otherwise the trimmed text
      (not its cleaned copy) goes out with the current name and picture, and
      the input is cleared. */
  function HandleSend(v: View): (r: (View, Option<ChatLine>))
    ensures r.1.Some? <==> exists k :: 0 <= k < |v.messageInp| && !IsSpace(v.messageInp[k])
    ensures r.1.None? ==> r.0 == v
    ensures r.1.Some? ==> r.0 == v.(messageInp := "")
    ensures r.1.Some? ==> r.1.value.name == Some(v.name) && r.1.value.profilePicture == v.userProfile
    ensures r.1.Some? ==> r.1.value.message.Some? && r.1.value.message.value == Trim(v.messageInp)
  {
    TrimShape(v.messageInp);
    var message := Trim(v.messageInp);
    if message == "" then (v, None)
    else (v.(messageInp := ""), Some(ChatLine(Some(message), Some(v.name), v.userProfile)))
  }

  /** The sent text has no white space at either end. */
  lemma SentTextIsTrimmed(v: View)
    requires HandleSend(v).1.Some?
    ensures var m := HandleSend(v).1.value.message.value;
      m != "" && !IsSpace(m[0]) && !IsSpace(m[|m| - 1])
  {
    TrimShape(v.messageInp);
  }

  /** The `user-joined` listener: `${name} joined the chat`, the name taken
      from an object's `name` or the raw value; `null` makes `data.name` throw
      and nothing is appended. */
  function OnUserJoined(messages: seq<Entry>, data: EventData, stamp: int): (r: seq<Entry>)
    ensures data.NullData? ==> r == messages
    ensures data.NamedObject? ==> r == AppendMessage(messages, SystemLine(data.name + " joined the chat"), stamp)
    ensures data.Bare? ==> r == AppendMessage(messages, SystemLine(data.text + " joined the chat"), stamp)
  {
    match data
    case NamedObject(name) => AppendMessage(messages, SystemLine(name + " joined the chat"), stamp)
    case Bare(text) => AppendMessage(messages, SystemLine(text + " joined the chat"), stamp)
    case NullData => messages
  }

  /** The `receive` listener: a line whose name is the current name is the
      user's own and drawn on the left without sound; any other is drawn on
      the right and plays the notification. Result: (messages, sound played). */
  function OnReceive(v: View, text: string, name: string, picture: Option<string>, stamp: int): (r: (seq<Entry>, bool))
    ensures r.1 <==> name != v.name
    ensures |r.0| == |v.messages| + 1 && r.0[..|v.messages|] == v.messages
    ensures r.0[|v.messages|].position == Some(if name == v.name then ChatLeft else ChatRight)
    ensures r.0[|v.messages|].content == text && r.0[|v.messages|].name == Some(name)
    ensures r.0[|v.messages|].kind == TextEntry
  {
    var isMe := name == v.name;
    (AppendMessage(v.messages, Entry(text, Some(name), picture, Some(if isMe then ChatLeft else ChatRight), TextEntry, 0), stamp),
     !isMe)
  }

  /** The string a template literal makes of the `left` payload. */
  function Interpolated(data: EventData): string {
    match data
    case NamedObject(_) => "[object Object]"
    case Bare(text) => text
    case NullData => "null"
  }

  /** Whether `if (userName)` passes. */
  predicate TruthyData(data: EventData) {
    match data
    case NamedObject(_) => true
    case Bare(text) => text != ""
    case NullData => false
  }

  /** The `left` listener as written: a truthy payload is interpolated whole. */
  function OnLeft(messages: seq<Entry>, data: EventData, stamp: int): (r: seq<Entry>)
    ensures !TruthyData(data) ==> r == messages
    ensures TruthyData(data) ==> r == AppendMessage(messages, SystemLine(Interpolated(data) + " left the chat"), stamp)
  {
    if TruthyData(data) then AppendMessage(messages, SystemLine(Interpolated(data) + " left the chat"), stamp)
    else messages
  }

  /** The server's `left` payload is the presence entry object, so every
      departure is shown as `[object Object] left the chat`, whoever left. */
  lemma LeftNoticeNamesNobody(messages: seq<Entry>, name: string, picture: Option<string>, stamp: int)
    ensures OnLeft(messages, Received(PresenceNotice(name, picture)), stamp)
         == messages + [SystemLine("[object Object] left the chat").(id := stamp)]
  {
    assert "[object Object]" + " left the chat" == "[object Object] left the chat";
  }

  /** The name a `left` payload carries: an object's `name`, or the raw string. */
  function DepartedName(data: EventData): Option<string> {
    match data
    case NamedObject(name) => Some(name)
    case Bare(text) => if text != "" then Some(text) else None
    case NullData => None
  }

  /** The `left` listener as intended: the departed user's name. */
  function OnLeftIntended(messages: seq<Entry>, data: EventData, stamp: int): (r: seq<Entry>)
    ensures DepartedName(data).None? ==> r == messages
    ensures DepartedName(data).Some? ==>
      r == AppendMessage(messages, SystemLine(DepartedName(data).value + " left the chat"), stamp)
  {
    match DepartedName(data)
    case None => messages
    case Some(name) => AppendMessage(messages, SystemLine(name + " left the chat"), stamp)
  }

  /** With the intended listener, the join and the leave notice of one
      presence entry name the same user; a bare string is shown the same by
      both versions. */
  lemma LeaveNoticeMatchesJoinNotice(messages: seq<Entry>, name: string, picture: Option<string>, stamp: int)
    ensures var data := Received(PresenceNotice(name, picture));
      && OnUserJoined(messages, data, stamp)[|messages|].content == name + " joined the chat"
      && OnLeftIntended(messages, data, stamp)[|messages|].content == name + " left the chat"
    ensures forall text :: OnLeftIntended(messages, Bare(text), stamp) == OnLeft(messages, Bare(text), stamp)
  {
  }

  /** A line the user sends comes back from the server under their name, is
      drawn on the left without sound, and shows the cleaned trimmed text or
      `'****'` when the name belongs to a chat-blocked account. */
  lemma OwnLineComesBackLeft(v: View, entry: Option<Presence>, users: map<Id, Account>,
                             clean: string -> string, stamp: int)
    requires v.name != "" && HandleSend(v).1.Some?
    ensures var line := HandleSend(v).1.value;
      var p := GlobalLineFor(line, entry, users, clean);
      && p.Some? && p.value.GlobalLine? && p.value.name == v.name
      && (p.value.text == clean(Trim(v.messageInp)) || p.value.text == "****")
      && var (shown, sound) := OnReceive(v, p.value.text, p.value.name, p.value.profilePicture, stamp);
      && !sound && shown[|v.messages|].position == Some(ChatLeft)
  {
    var line := HandleSend(v).1.value;
    GlobalLineModeration(line, entry, users, clean);
  }

  /** Someone else's line is drawn on the right and plays the sound. */
  lemma OthersLineRight(v: View, text: string, name: string, picture: Option<string>, stamp: int)
    requires name != v.name
    ensures var (shown, sound) := OnReceive(v, text, name, picture, stamp);
      sound && shown[|v.messages|].position == Some(ChatRight)
  {
  }

  /** A padded alias passes the check and is kept with its padding, so it is
      a different name from its trimmed form. */
  lemma PaddedAliasKept(v: View, alias: string)
    requires Trim(alias) != "" && alias != Trim(alias)
    ensures var (after, announced) := HandleJoin(v.(joinName := alias));
      after.name == alias && after.name != Trim(alias) && announced == Some(Profile(alias, None))
  {
  }
}
