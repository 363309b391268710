/** The handlers of `server/routes/registrations.js`: contest registration with
    its duplicate check and participant count, and the two listings. */
module RegistrationRoutes {
  import opened Wrappers
  import opened Seqs
  import opened Models

  /** Registration.type as sent: `'individual'` or `'group'`, anything else fails validation. */
  function ParseRegistrationType(s: Option<string>): Option<RegistrationType> {
    if s == Some("individual") then Some(Individual)
    else if s == Some("group") then Some(GroupEntry)
    else None
  }

  /** Every member has the three required fields. */
  predicate MembersValid(members: seq<Member>) {
    forall k :: 0 <= k < |members| ==> Required(members[k].name) && Required(members[k].mobile) && Required(members[k].address)
  }

  /** The people registered for contest `c`: the member counts of its registrations. */
  function Attendance(regs: seq<Registration>, c: Id): nat
  {
    if |regs| == 0 then 0
    else Attendance(regs[..|regs| - 1], c) + (if regs[|regs| - 1].contest == c then |regs[|regs| - 1].members| else 0)
  }

  /** A new registration adds its members to its own contest and nothing to another. */
  lemma AttendanceAppend(regs: seq<Registration>, r: Registration, c: Id)
    ensures Attendance(regs + [r], c) == Attendance(regs, c) + (if r.contest == c then |r.members| else 0)
  {
    assert (regs + [r])[..|regs|] == regs;
  }

  /** No two registrations share a (contest, user) pair. */
  ghost predicate OnePerPair(regs: seq<Registration>) {
    forall i, j :: 0 <= i < j < |regs| ==> regs[i].contest != regs[j].contest || regs[i].user != regs[j].user
  }

  /** `Registration.findOne({contest, user})` finds something. */
  predicate Registered(regs: seq<Registration>, c: Id, u: Id) {
    exists k :: 0 <= k < |regs| && regs[k].contest == c && regs[k].user == u
  }

  /** Refusing a pair that is already registered keeps registrations one per pair. */
  lemma OnePerPairAppend(regs: seq<Registration>, r: Registration)
    requires OnePerPair(regs) && !Registered(regs, r.contest, r.user)
    ensures OnePerPair(regs + [r])
  {
    var all := regs + [r];
    forall i, j | 0 <= i < j < |all| ensures all[i].contest != all[j].contest || all[i].user != all[j].user {
      if j == |regs| {
        assert all[i] == regs[i];
      } else {
        assert all[i] == regs[i] && all[j] == regs[j];
      }
    }
  }

  /** Every contest's count is its starting count plus its attendance. */
  ghost predicate Counted(contests: map<Id, Contest>, base: map<Id, int>, regs: seq<Registration>) {
    && base.Keys == contests.Keys
    && (forall c | c in contests :: contests[c].participants == base[c] + Attendance(regs, c))
  }

  /** A saved registration whose members are added to its contest's count keeps the counts right. */
  lemma CountedAfterRegister(contests: map<Id, Contest>, base: map<Id, int>, regs: seq<Registration>, r: Registration)
    requires Counted(contests, base, regs) && r.contest in contests
    ensures Counted(contests[r.contest := contests[r.contest].(participants := contests[r.contest].participants + |r.members|)],
                    base, regs + [r])
  {
    forall c | c in contests {
      AttendanceAppend(regs, r, c);
    }
  }

  /** A saved registration without members needs no count change. */
  lemma CountedAfterEmpty(contests: map<Id, Contest>, base: map<Id, int>, regs: seq<Registration>, r: Registration)
    requires Counted(contests, base, regs) && r.members == []
    ensures Counted(contests, base, regs + [r])
  {
    forall c | c in contests {
      AttendanceAppend(regs, r, c);
    }
  }

  class RegistrationDesk {
    var contests: map<Id, Contest>
    var registrations: seq<Registration>
    var users: map<Id, Account>
    /** Each contest's `participants` before any registration. */
    ghost var base: map<Id, int>

    ghost predicate Valid()
      reads this
    {
      && OnePerPair(registrations)
      && Counted(contests, base, registrations)
    }

    constructor (contests: map<Id, Contest>, users: map<Id, Account>)
      ensures Valid()
      ensures this.contests == contests && this.users == users && registrations == []
    {
      this.contests := contests;
      this.users := users;
      registrations := [];
      base := map c | c in contests :: contests[c].participants;
    }

    /** `POST /api/registrations`. A missing contest is 404 and a second
        registration of the same user for it is 400; an unknown type or an
        incomplete member fails validation (500, nothing saved). An absent
        member list is saved as empty, after which `members.length` throws:
        500 with the registration already stored. Otherwise the contest's
        `participants` grows by the number of members. */
    method Register(requester: Id, contestId: Option<Id>, kind: Option<string>, members: Option<seq<Member>>)
      returns (status: int)
      requires Valid()
      modifies this
      ensures Valid()
      ensures contestId.None? || contestId.value !in old(contests) ==>
        status == NOT_FOUND && registrations == old(registrations) && contests == old(contests)
      ensures contestId.Some? && contestId.value in old(contests) && Registered(old(registrations), contestId.value, requester) ==>
        status == BAD_REQUEST && registrations == old(registrations) && contests == old(contests)
      ensures contestId.Some? && contestId.value in old(contests) && !Registered(old(registrations), contestId.value, requester) ==>
        var valid := ParseRegistrationType(kind).Some? && MembersValid(members.GetOr([]));
        && status == (if valid && members.Some? then OK else SERVER_ERROR)
        && registrations == old(registrations) + (if valid then [Registration(contestId.value, requester,
             ParseRegistrationType(kind).GetOr(Individual), members.GetOr([]))] else [])
      ensures status == OK ==> contestId.Some? && contestId.value in old(contests) && members.Some?
      ensures status == OK ==>
        contests == old(contests)[contestId.value := old(contests)[contestId.value].(
          participants := old(contests)[contestId.value].participants + |members.value|)]
      ensures status != OK ==> contests == old(contests)
      ensures users == old(users)
    {
      if contestId.None? || contestId.value !in contests {
        return NOT_FOUND;
      }
      if Registered(registrations, contestId.value, requester) {
        return BAD_REQUEST;
      }
      var kindValue := ParseRegistrationType(kind);
      var stored := members.GetOr([]);
      if kindValue.None? || !MembersValid(stored) {
        return SERVER_ERROR;
      }
      var newRegistration := Registration(contestId.value, requester, kindValue.value, stored);
      Save(newRegistration, members.Some?);
      status := if members.Some? then OK else SERVER_ERROR;
    }

    /** `new Registration(...).save()`, then, when the member list was given,
        the count update of `contest.participants += members.length`. */
    method Save(r: Registration, counted: bool)
      requires Valid() && r.contest in contests && !Registered(registrations, r.contest, r.user)
      requires !counted ==> r.members == []
      modifies this
      ensures Valid()
      ensures registrations == old(registrations) + [r]
      ensures counted ==> contests == old(contests)[r.contest := old(contests)[r.contest].(
        participants := old(contests)[r.contest].participants + |r.members|)]
      ensures !counted ==> contests == old(contests)
      ensures users == old(users)
    {
      OnePerPairAppend(registrations, r);
      if counted {
        CountedAfterRegister(contests, base, registrations, r);
        contests := contests[r.contest := contests[r.contest].(participants := contests[r.contest].participants + |r.members|)];
      } else {
        CountedAfterEmpty(contests, base, registrations, r);
      }
      registrations := registrations + [r];
    }

    /** `GET /api/registrations/my`: the requester's own registrations. */
    method Mine(requester: Id) returns (listed: seq<Registration>)
      ensures forall r :: r in listed <==> r in registrations && r.user == requester
    {
      listed := Filter(registrations, (r: Registration) => r.user == requester);
    }

    /** `GET /api/registrations/contest/:contestId`: 500 for an unknown
        requester, 401 for a non-admin, otherwise the contest's registrations. */
    method ForContest(contestId: Id, requester: Id) returns (status: int, listed: seq<Registration>)
      ensures status == (if requester !in users then SERVER_ERROR
                         else if !IsAdmin(users, requester) then UNAUTHORIZED
                         else OK)
      ensures status == OK ==> forall r :: r in listed <==> r in registrations && r.contest == contestId
      ensures status != OK ==> listed == []
    {
      if requester !in users {
        return SERVER_ERROR, [];
      }
      if users[requester].role != AdminRole {
        return UNAUTHORIZED, [];
      }
      listed := Filter(registrations, (r: Registration) => r.contest == contestId);
      status := OK;
    }
  }

  /** Two members register once (the count grows by two); registering again is refused. */
  method RegistrationScenario()
  {
    var desk := new RegistrationDesk(map["c" := Contest("Hackathon", 0)], map[]);
    var team := [Member("Ann", "555", "Main St"), Member("Ben", "556", "Elm St")];
    var status := desk.Register("u", Some("c"), Some("group"), Some(team));
    assert !Registered([], "c", "u");
    assert status == OK;
    assert desk.contests["c"].participants == 2;
    assert Registered(desk.registrations, "c", "u");
    status := desk.Register("u", Some("c"), Some("individual"), Some([Member("Ann", "555", "Main St")]));
    assert status == BAD_REQUEST;
    assert desk.contests["c"].participants == 2;
  }
}
