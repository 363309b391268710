/** The persisted documents, after the Mongoose schemas in `server/models/`,
    reduced to the fields the handlers read or write, and the HTTP status codes
    the handlers answer with. */
module Models {
  import opened Wrappers
  import opened Seqs

  /** A database id (an ObjectId, compared by its string form). */
  type Id = string

  /** User.role: `enum: ['user', 'admin']`, default `'user'`. */
  datatype Role = UserRole | AdminRole

  /** A User document (password and e-mail left out). */
  datatype Account = Account(
    username: string,
    role: Role,
    profilePicture: string,
    isChatBlocked: bool,
    joinedGroups: seq<Id>)

  /** The `unique: true` index on User.username: no two accounts share a username. */
  ghost predicate UniqueUsernames(users: map<Id, Account>) {
    forall a, b :: a in users && b in users && users[a].username == users[b].username ==> a == b
  }

  /** Whether the requester is known and has role `'admin'`. */
  predicate IsAdmin(users: map<Id, Account>, id: Id) {
    id in users && users[id].role == AdminRole
  }

  /** Message.type: `enum: ['text', 'image', 'poll']`, default `'text'`. */
  datatype MessageKind = TextKind | ImageKind | PollKind

  /** One poll option: its text and the ids of its voters. */
  datatype PollOption = PollOption(text: string, votes: seq<Id>)

  /** A Message document. */
  datatype Message = Message(
    id: Id,
    group: Id,
    sender: Id,
    kind: MessageKind,
    content: string,
    pollQuestion: Option<string>,
    pollOptions: seq<PollOption>)

  /** A Group document (timestamps left out). */
  datatype Group = Group(
    name: string,
    description: string,
    category: string,
    image: Option<string>,
    createdBy: Id,
    members: seq<Id>,
    isRestricted: bool)

  /** A Contest document, reduced to the fields registration touches. */
  datatype Contest = Contest(title: string, participants: int)

  /** Registration.type: `enum: ['individual', 'group']`, required. */
  datatype RegistrationType = Individual | GroupEntry

  /** One registered participant; every field is `required`. */
  datatype Member = Member(name: string, mobile: string, address: string)

  /** A Registration document. */
  datatype Registration = Registration(contest: Id, user: Id, kind: RegistrationType, members: seq<Member>)

  /** Mongoose's `required` validator on a String rejects both a missing value and `''`. */
  predicate Required(s: string) {
    s != ""
  }

  // HTTP status codes the route handlers answer with.
  const OK := 200
  const BAD_REQUEST := 400
  const UNAUTHORIZED := 401
  const FORBIDDEN := 403
  const NOT_FOUND := 404
  const SERVER_ERROR := 500
}
