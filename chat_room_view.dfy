/** The group chat view of `client/src/components/ChatRoom.jsx`: how the
    message list reacts to `receive_message` and `poll_updated`, the composer
    and its send guard, and the poll tally each option shows. */
module ChatRoomView {
  import opened Wrappers
  import opened Seqs
  import opened Models
  import opened ChatServer

  /** `msg.sender` as the view receives it: populated with an `_id`, a bare
      id, `null` (a sender the populate did not find) or absent. */
  datatype SenderRef = Populated(id: Id) | RawSender(id: Id) | NullSender | NoSender

  /** A message in the view's list. System notices carry `type: 'system'`,
      which is why the type is kept as text; their `_id` is a number made from
      the clock and a random value, which never equals a poll's string id, so
      the model gives them none. */
  datatype ViewMessage = ViewMessage(
    id: Option<Id>,
    kind: string,
    content: string,
    sender: SenderRef,
    pollQuestion: Option<string>,
    pollOptions: seq<PollOption>)

  // ---------------------------------------------------------------------
  // The message list

  /** `receive_message`: `[...prev, message]`. */
  function OnReceiveMessage(messages: seq<ViewMessage>, m: ViewMessage): (r: seq<ViewMessage>)
    ensures |r| == |messages| + 1
    ensures r[..|messages|] == messages && r[|messages|] == m
  {
    messages + [m]
  }

  /** The test `msg._id === updatedMessage._id`, named once. */
  function SameId(id: Option<Id>): ViewMessage -> bool {
    (m: ViewMessage) => m.id == id
  }

  /** `poll_updated`: every entry with the updated message's `_id` is replaced
      by it; the others stay where they are. */
  function OnPollUpdated(messages: seq<ViewMessage>, updated: ViewMessage): (r: seq<ViewMessage>)
    ensures |r| == |messages|
    ensures forall i :: 0 <= i < |messages| && messages[i].id == updated.id ==> r[i] == updated
    ensures forall i :: 0 <= i < |messages| && messages[i].id != updated.id ==> r[i] == messages[i]
  {
    ReplaceWhere(messages, SameId(updated.id), updated)
  }

  /** Applying the same update twice is applying it once. */
  lemma PollUpdateIdempotent(messages: seq<ViewMessage>, updated: ViewMessage)
    ensures OnPollUpdated(OnPollUpdated(messages, updated), updated) == OnPollUpdated(messages, updated)
  {
  }

  /** Of two updates of the same poll, the later one is what the list shows. */
  lemma LaterPollUpdateWins(messages: seq<ViewMessage>, first: ViewMessage, second: ViewMessage)
    requires first.id == second.id
    ensures OnPollUpdated(OnPollUpdated(messages, first), second) == OnPollUpdated(messages, second)
  {
  }

  /** An update for a message the list does not hold changes nothing. */
  lemma PollUpdateOfUnknownMessage(messages: seq<ViewMessage>, updated: ViewMessage)
    requires forall i :: 0 <= i < |messages| ==> messages[i].id != updated.id
    ensures OnPollUpdated(messages, updated) == messages
  {
  }

  /** A poll received and then updated shows the update at the end, and the
      earlier messages are untouched. */
  lemma PollUpdateAfterReceive(messages: seq<ViewMessage>, m: ViewMessage, updated: ViewMessage)
    requires updated.id == m.id
    requires forall i :: 0 <= i < |messages| ==> messages[i].id != m.id
    ensures OnPollUpdated(OnReceiveMessage(messages, m), updated) == messages + [updated]
  {
    var r := OnPollUpdated(OnReceiveMessage(messages, m), updated);
    assert forall i :: 0 <= i < |messages| ==> (messages + [m])[i] == messages[i];
    assert r[|messages|] == updated;
  }

  // ---------------------------------------------------------------------
  // The poll tally

  /** `pollOptions.reduce((acc, curr) => acc + curr.votes.length, 0)`. */
  function TotalVotes(options: seq<PollOption>): (r: nat)
    ensures r == 0 <==> forall k :: 0 <= k < |options| ==> options[k].votes == []
  {
    if |options| == 0 then 0 else |options[0].votes| + TotalVotes(options[1..])
  }

  /** No option has more votes than the poll. */
  lemma {:induction false} OptionWithinTotal(options: seq<PollOption>, i: int)
    requires 0 <= i < |options|
    ensures |options[i].votes| <= TotalVotes(options)
  {
    if i > 0 {
      OptionWithinTotal(options[1..], i - 1);
      assert options[1..][i - 1] == options[i];
    }
  }

  /** The total over two groups of options is the sum of their totals. */
  lemma {:induction false} TotalVotesConcat(a: seq<PollOption>, b: seq<PollOption>)
    ensures TotalVotes(a + b) == TotalVotes(a) + TotalVotes(b)
  {
    if |a| == 0 {
      assert a + b == b;
    } else {
      assert (a + b)[0] == a[0] && (a + b)[1..] == a[1..] + b;
      TotalVotesConcat(a[1..], b);
    }
  }

  /** `Math.round(votes / total * 100)`, 0 for a poll without votes. The
      quotient is taken exactly: `p` is the nearest integer to the share in
      percent, halves rounded up. */
  function Percentage(options: seq<PollOption>, i: int): (p: int)
    requires 0 <= i < |options|
    ensures TotalVotes(options) == 0 ==> p == 0
    ensures 0 <= p <= 100
    ensures TotalVotes(options) > 0 ==>
      2 * TotalVotes(options) * p <= 200 * |options[i].votes| + TotalVotes(options)
    ensures TotalVotes(options) > 0 ==>
      200 * |options[i].votes| + TotalVotes(options) < 2 * TotalVotes(options) * (p + 1)
  {
    var t := TotalVotes(options);
    if t == 0 then 0
    else
      var v := |options[i].votes|;
      OptionWithinTotal(options, i);
      RoundedShareBounds(v, t);
      (200 * v + t) / (2 * t)
  }

  /** Multiplying by a natural number keeps the order. */
  lemma MulMonotone(d: nat, a: int, b: int)
    requires a <= b
    ensures d * a <= d * b
  {
    var e: nat := b - a;
    assert d * b == d * a + d * e;
  }

  /** Integer facts behind `Percentage`: the rounded share of `v` out of `t`
      lies between 0 and 100 and is the nearest integer to `100 * v / t`. */
  lemma RoundedShareBounds(v: nat, t: nat)
    requires 0 < t && v <= t
    ensures 0 <= (200 * v + t) / (2 * t) <= 100
    ensures 2 * t * ((200 * v + t) / (2 * t)) <= 200 * v + t < 2 * t * ((200 * v + t) / (2 * t) + 1)
  {
    var n := 200 * v + t;
    var d := 2 * t;
    var q := n / d;
    assert n == d * q + n % d && 0 <= n % d < d;
    assert d * (q + 1) == d * q + d;
    if q > 100 {
      MulMonotone(d, 101, q);
      assert false;
    }
    if q < 0 {
      MulMonotone(d, q, -1);
      assert false;
    }
  }

  /** The option everybody voted for shows 100%. */
  lemma UnanimousOptionShowsAll(options: seq<PollOption>, i: int)
    requires 0 <= i < |options| && |options[i].votes| > 0
    requires forall k :: 0 <= k < |options| && k != i ==> options[k].votes == []
    ensures Percentage(options, i) == 100
  {
    OnlyOptionCarriesTotal(options, i);
    var t := TotalVotes(options);
    var p := Percentage(options, i);
    if p < 100 {
      MulMonotone(2 * t, p + 1, 100);
      assert false;
    }
  }

  /** When every other option is empty, option `i` holds the whole total. */
  lemma {:induction false} OnlyOptionCarriesTotal(options: seq<PollOption>, i: int)
    requires 0 <= i < |options|
    requires forall k :: 0 <= k < |options| && k != i ==> options[k].votes == []
    ensures TotalVotes(options) == |options[i].votes|
  {
    assert options == options[..i] + options[i..];
    TotalVotesConcat(options[..i], options[i..]);
    NoVotesNoTotal(options[..i]);
    assert options[i..] == [options[i]] + options[i + 1..];
    assert options[i..][1..] == options[i + 1..];
    NoVotesNoTotal(options[i + 1..]);
  }

  /** Options without votes add nothing to the total. */
  lemma {:induction false} NoVotesNoTotal(options: seq<PollOption>)
    requires forall k :: 0 <= k < |options| ==> options[k].votes == []
    ensures TotalVotes(options) == 0
  {
    if |options| > 0 {
      NoVotesNoTotal(options[1..]);
    }
  }

  /** The tick shown on an option: its votes include the user. */
  predicate HasVoted(option: PollOption, u: Id) {
    u in option.votes
  }

  /** Clicking an option (the server's toggle, echoed by `poll_updated`) flips
      the tick on that option, and the option's total moves by one. */
  lemma VoteFlipsTick(option: PollOption, u: Id)
    requires NoDup(option.votes)
    ensures HasVoted(option.(votes := ToggleVote(option.votes, u)), u) <==> !HasVoted(option, u)
    ensures |ToggleVote(option.votes, u)| == if HasVoted(option, u) then |option.votes| - 1 else |option.votes| + 1
  {
    ToggleNoDup(option.votes, u);
    if u in option.votes {
      assert ToggleVote(option.votes, u) == RemoveFirst(option.votes, u);
    }
  }

  /** `String(msg.sender?._id || msg.sender)`: the populated `_id`, the bare
      id, or the string forms of `null` and `undefined`. A populated sender
      with an empty `_id` falls back to the object itself. */
  function SenderKey(s: SenderRef): (r: string)
    ensures (s.Populated? && s.id != "") || s.RawSender? ==> r == s.id
    ensures s.Populated? && s.id == "" ==> r == "[object Object]"
    ensures s.NullSender? ==> r == "null"
    ensures s.NoSender? ==> r == "undefined"
  {
    match s
    case Populated(id) => if id != "" then id else "[object Object]"
    case RawSender(id) => id
    case NullSender => "null"
    case NoSender => "undefined"
  }

  /** `isOwn`: the sender's string form equals the current user's id. */
  function IsOwn(m: ViewMessage, userId: string): (own: bool)
    ensures (m.sender.Populated? || m.sender.RawSender?) && m.sender.id != "" ==>
      (own <==> m.sender.id == userId)
    ensures m.sender.NullSender? ==> (own <==> userId == "null")
    ensures m.sender.NoSender? ==> (own <==> userId == "undefined")
  {
    SenderKey(m.sender) == userId
  }

  /** Whether the sender was populated or not does not change whose message it is. */
  lemma PopulationDoesNotMatter(m: ViewMessage, id: Id, userId: string)
    requires id != ""
    ensures IsOwn(m.(sender := Populated(id)), userId) == IsOwn(m.(sender := RawSender(id)), userId)
  {
  }

  // ---------------------------------------------------------------------
  // The composer

  /** The composer's state: the text input, whether the poll creator is open,
      and the poll being written. */
  datatype Composer = Composer(newMessage: string, showPollCreator: bool, pollQuestion: string, pollOptions: seq<string>)

  /** The state on mount, and after a poll is sent: no text, creator closed,
      an empty question and two empty options. */
  const FreshComposer := Composer("", false, "", ["", ""])

  /** "+ Add Option": an empty option at the end. */
  function AddOption(c: Composer): (r: Composer)
    ensures |r.pollOptions| == |c.pollOptions| + 1
    ensures r.pollOptions[..|c.pollOptions|] == c.pollOptions && r.pollOptions[|c.pollOptions|] == ""
    ensures r.(pollOptions := c.pollOptions) == c
  {
    c.(pollOptions := c.pollOptions + [""])
  }

  /** Typing into option `i`: a copy with index `i` set. */
  function EditOption(c: Composer, i: int, text: string): (r: Composer)
    requires 0 <= i < |c.pollOptions|
    ensures |r.pollOptions| == |c.pollOptions| && r.pollOptions[i] == text
    ensures forall k :: 0 <= k < |c.pollOptions| && k != i ==> r.pollOptions[k] == c.pollOptions[k]
    ensures r.(pollOptions := c.pollOptions) == c
  {
    c.(pollOptions := c.pollOptions[i := text])
  }

  /** Typing the question. */
  function EditQuestion(c: Composer, text: string): (r: Composer)
    ensures r.pollQuestion == text
    ensures r.newMessage == c.newMessage && r.showPollCreator == c.showPollCreator && r.pollOptions == c.pollOptions
  {
    c.(pollQuestion := text)
  }

  /** Typing the text message. */
  function EditMessage(c: Composer, text: string): (r: Composer)
    ensures r.newMessage == text
    ensures r.showPollCreator == c.showPollCreator && r.pollQuestion == c.pollQuestion && r.pollOptions == c.pollOptions
  {
    c.(newMessage := text)
  }

  /** The chart button opens the creator and Cancel closes it; neither clears the poll. */
  function SetPollCreator(c: Composer, open: bool): (r: Composer)
    ensures r.showPollCreator == open
    ensures r.newMessage == c.newMessage && r.pollQuestion == c.pollQuestion && r.pollOptions == c.pollOptions
  {
    c.(showPollCreator := open)
  }

  /** The poll options as sent: `{text, votes: []}` for each, in order. */
  function OptionsOf(texts: seq<string>): (r: seq<PollOption>)
    ensures |r| == |texts|
    ensures forall k :: 0 <= k < |texts| ==> r[k] == PollOption(texts[k], [])
  {
    seq(|texts|, k requires 0 <= k < |texts| => PollOption(texts[k], []))
  }

  /** The `send_message` payload of a poll. */
  function PollPayload(c: Composer, groupId: Id, userId: Id): SendData {
    SendData(Some(groupId), Some(userId), Some("poll"), Some("Poll"), Some(c.pollQuestion), OptionsOf(c.pollOptions))
  }

  /** The `send_message` payload of a text message: no poll fields. */
  function TextPayload(c: Composer, groupId: Id, userId: Id): SendData {
    SendData(Some(groupId), Some(userId), Some("text"), Some(c.newMessage), None, [])
  }

  /** What a submit emits (None: nothing) and the composer afterwards. */
  datatype SendOutcome = SendOutcome(emitted: Option<SendData>, after: Composer)

  /** The early return of `handleSendMessage`, as written. */
  predicate RefusedAsWritten(c: Composer) {
    || (c.newMessage == "" && !c.showPollCreator && c.pollQuestion == "")
    || (c.showPollCreator && (c.pollQuestion == "" || "" in c.pollOptions))
  }

  /** `handleSendMessage` as written. A poll needs a question and no empty
      option and resets the creator; a text message is sent untrimmed and
      clears the input. */
  function HandleSendMessage(c: Composer, groupId: Id, userId: Id): (r: SendOutcome)
    ensures r.emitted.None? <==> RefusedAsWritten(c)
    ensures r.emitted.None? ==> r.after == c
    ensures r.emitted.Some? && c.showPollCreator ==>
      && c.pollQuestion != "" && (forall k :: 0 <= k < |c.pollOptions| ==> c.pollOptions[k] != "")
      && r.emitted.value == PollPayload(c, groupId, userId)
      && r.after == FreshComposer.(newMessage := c.newMessage)
    ensures r.emitted.Some? && !c.showPollCreator ==>
      && r.emitted.value == TextPayload(c, groupId, userId)
      && r.after == c.(newMessage := "")
  {
    if RefusedAsWritten(c) then SendOutcome(None, c)
    else if c.showPollCreator then
      SendOutcome(Some(PollPayload(c, groupId, userId)), c.(showPollCreator := false, pollQuestion := "", pollOptions := ["", ""]))
    else SendOutcome(Some(TextPayload(c, groupId, userId)), c.(newMessage := ""))
  }

  /** A question typed and then cancelled stays in the state, and an empty
      text is then sent. A server whose `filter.clean` returns on `''` accepts
      it, since `content` is not required. */
  lemma EmptyTextThroughStaleQuestion(groupId: Id, userId: Id, question: string, id: Id, clean: string -> string)
    requires question != ""
    ensures var c := SetPollCreator(EditQuestion(SetPollCreator(FreshComposer, true), question), false);
      var r := HandleSendMessage(c, groupId, userId);
      && r.emitted.Some?
      && r.emitted.value.content == Some("")
      && NewMessage(id, r.emitted.value, clean).Ok?
  {
  }

  /** The guard as intended: in text mode only a non-empty text is sent. */
  predicate Refused(c: Composer) {
    if c.showPollCreator then c.pollQuestion == "" || "" in c.pollOptions
    else c.newMessage == ""
  }

  /** `handleSendMessage` with the intended guard. */
  function HandleSendMessageIntended(c: Composer, groupId: Id, userId: Id): (r: SendOutcome)
    ensures r.emitted.None? <==> Refused(c)
    ensures r.emitted.None? ==> r.after == c
    ensures r.emitted.Some? ==> r.emitted.value.content != Some("")
    ensures r.emitted.Some? && c.showPollCreator ==>
      && r.emitted.value == PollPayload(c, groupId, userId)
      && r.after == FreshComposer.(newMessage := c.newMessage)
    ensures r.emitted.Some? && !c.showPollCreator ==>
      && r.emitted.value == TextPayload(c, groupId, userId)
      && r.after == c.(newMessage := "")
  {
    if Refused(c) then SendOutcome(None, c)
    else if c.showPollCreator then
      SendOutcome(Some(PollPayload(c, groupId, userId)), c.(showPollCreator := false, pollQuestion := "", pollOptions := ["", ""]))
    else SendOutcome(Some(TextPayload(c, groupId, userId)), c.(newMessage := ""))
  }

  /** The two guards differ only on an empty text with a stale question. */
  lemma IntendedDiffersOnlyOnStaleQuestion(c: Composer, groupId: Id, userId: Id)
    ensures HandleSendMessage(c, groupId, userId) != HandleSendMessageIntended(c, groupId, userId) <==>
      !c.showPollCreator && c.newMessage == "" && c.pollQuestion != ""
  {
    if !c.showPollCreator && c.newMessage == "" && c.pollQuestion != "" {
      assert HandleSendMessage(c, groupId, userId).emitted.Some?;
    }
  }

  /** An empty option added to an open creator blocks the poll until it is filled in. */
  lemma AddedOptionBlocksPoll(c: Composer, groupId: Id, userId: Id)
    requires c.showPollCreator
    ensures HandleSendMessage(AddOption(c), groupId, userId).emitted.None?
    ensures HandleSendMessageIntended(AddOption(c), groupId, userId).emitted.None?
  {
    assert AddOption(c).pollOptions[|c.pollOptions|] == "";
  }

  /** Every poll the composer sends is one the server stores as a poll: its
      question verbatim, the options in order and without votes. */
  lemma SentPollIsStored(c: Composer, groupId: Id, userId: Id, id: Id, clean: string -> string)
    requires c.showPollCreator && HandleSendMessage(c, groupId, userId).emitted.Some?
    ensures var r := NewMessage(id, HandleSendMessage(c, groupId, userId).emitted.value, clean);
      && r.Ok? && r.value.kind == PollKind && r.value.group == groupId && r.value.sender == userId
      && r.value.pollQuestion == Some(c.pollQuestion)
      && |r.value.pollOptions| == |c.pollOptions|
      && (forall k :: 0 <= k < |c.pollOptions| ==> r.value.pollOptions[k] == PollOption(c.pollOptions[k], []))
  {
  }
}
