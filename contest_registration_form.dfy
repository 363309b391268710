/** The contest registration form of `client/src/pages/ContestRegistration.jsx`:
    the type switch, the member list editor and the submit check, whose
    request is only simulated by a timer. */
module ContestRegistrationForm {
  import opened Models
  import opened RegistrationRoutes

  /** A member row as the form creates it: every field empty. */
  const Blank := Member("", "", "")

  /** The three inputs of a member row. */
  datatype Field = Name | Mobile | Address

  /** `member[field] = value`: the row with that one field replaced. */
  function SetField(m: Member, f: Field, value: string): (r: Member)
    ensures f == Name ==> r.name == value && r.mobile == m.mobile && r.address == m.address
    ensures f == Mobile ==> r.mobile == value && r.name == m.name && r.address == m.address
    ensures f == Address ==> r.address == value && r.name == m.name && r.mobile == m.mobile
  {
    match f
    case Name => m.(name := value)
    case Mobile => m.(mobile := value)
    case Address => m.(address := value)
  }

  /** `members.filter((_, i) => i !== index)`: the rows except the one at
      `index`, in order; an index outside the list removes nothing. */
  function RemoveAt(s: seq<Member>, index: int): (r: seq<Member>)
    ensures 0 <= index < |s| ==> |r| == |s| - 1
    ensures 0 <= index < |s| ==> forall k :: 0 <= k < |r| ==> r[k] == s[if k < index then k else k + 1]
    ensures !(0 <= index < |s|) ==> r == s
  {
    if 0 <= index < |s| then s[..index] + s[index + 1..] else s
  }

  /** Removing the row just added gives back the list. */
  lemma AddThenRemoveRestores(s: seq<Member>)
    ensures RemoveAt(s + [Blank], |s|) == s
  {
  }

  /** A list holding a blank row never passes the check. */
  lemma BlankRowRefused(s: seq<Member>, index: int)
    requires 0 <= index < |s| && s[index] == Blank
    ensures !MembersValid(s)
  {
  }

  /** Filling in all three fields of a blank row makes that row valid, and
      the check of a one-row list is the check of that row. */
  lemma FilledRowAccepted(name: string, mobile: string, address: string)
    requires name != "" && mobile != "" && address != ""
    ensures MembersValid([SetField(SetField(SetField(Blank, Name, name), Mobile, mobile), Address, address)])
  {
  }

  class RegistrationForm {
    var registrationType: RegistrationType
    var members: seq<Member>
    var loading: bool
    var success: bool
    /** The `setTimeout` callbacks scheduled and not yet run. */
    var pendingTimers: nat
    /** Whether a submit has passed the check. */
    ghost var submitted: bool

    /** The list never becomes empty; loading means a timer is on its way; a
        timer or the success screen only follows a submit that passed. */
    ghost predicate Valid()
      reads this
    {
      && |members| >= 1
      && (loading ==> pendingTimers > 0)
      && (pendingTimers > 0 || success ==> submitted)
    }

    /** The initial state: an individual registration with one blank row. */
    constructor ()
      ensures Valid()
      ensures registrationType == Individual && members == [Blank]
      ensures !loading && !success && pendingTimers == 0
    {
      registrationType := Individual;
      members := [Blank];
      loading := false;
      success := false;
      pendingTimers := 0;
      submitted := false;
    }

    /** `handleTypeChange`: either type resets the list to one blank row. */
    method HandleTypeChange(t: RegistrationType)
      requires Valid()
      modifies this
      ensures Valid()
      ensures registrationType == t && members == [Blank]
      ensures loading == old(loading) && success == old(success) && pendingTimers == old(pendingTimers)
    {
      registrationType := t;
      if t == Individual {
        members := [Blank];
      } else {
        members := [Blank];
      }
    }

    /** `handleMemberChange`: one field of the row at `index` (a rendered row). */
    method HandleMemberChange(index: int, f: Field, value: string)
      requires Valid() && 0 <= index < |members|
      modifies this
      ensures Valid()
      ensures members == old(members)[index := SetField(old(members)[index], f, value)]
      ensures registrationType == old(registrationType) && loading == old(loading)
      ensures success == old(success) && pendingTimers == old(pendingTimers)
    {
      var newMembers := members;
      newMembers := newMembers[index := SetField(newMembers[index], f, value)];
      members := newMembers;
    }

    /** `addMember`: a blank row at the end. */
    method AddMember()
      requires Valid()
      modifies this
      ensures Valid()
      ensures members == old(members) + [Blank]
      ensures registrationType == old(registrationType) && loading == old(loading)
      ensures success == old(success) && pendingTimers == old(pendingTimers)
    {
      members := members + [Blank];
    }

    /** `removeMember`: drops the row at `index` unless it is the only one. */
    method RemoveMember(index: int)
      requires Valid()
      modifies this
      ensures Valid()
      ensures members == if |old(members)| > 1 then RemoveAt(old(members), index) else old(members)
      ensures registrationType == old(registrationType) && loading == old(loading)
      ensures success == old(success) && pendingTimers == old(pendingTimers)
    {
      if |members| > 1 {
        members := RemoveAt(members, index);
      }
    }

    /** `handleSubmit`: the first row with an empty field stops the submit
      (the alert, reported as `refused`) and nothing changes; otherwise
      loading starts and the timer that stands in for the request is
      scheduled. No request is made. */
    method HandleSubmit() returns (refused: bool)
      requires Valid()
      modifies this
      ensures Valid()
      ensures refused <==> !MembersValid(old(members))
      ensures members == old(members) && registrationType == old(registrationType) && success == old(success)
      ensures refused ==> loading == old(loading) && pendingTimers == old(pendingTimers)
      ensures !refused ==> loading && pendingTimers == old(pendingTimers) + 1
    {
      var k := 0;
      while k < |members|
        invariant 0 <= k <= |members|
        invariant forall j :: 0 <= j < k ==> Required(members[j].name) && Required(members[j].mobile) && Required(members[j].address)
      {
        var member := members[k];
        if member.name == "" || member.mobile == "" || member.address == "" {
          return true;
        }
        k := k + 1;
      }
      loading := true;
      pendingTimers := pendingTimers + 1;
      submitted := true;
      refused := false;
    }

    /** A scheduled timer runs: loading ends and the success screen shows. */
    method TimerFires()
      requires Valid()
      modifies this
      ensures Valid()
      ensures old(pendingTimers) > 0 ==> !loading && success && pendingTimers == old(pendingTimers) - 1
      ensures old(pendingTimers) == 0 ==> loading == old(loading) && success == old(success) && pendingTimers == 0
      ensures members == old(members) && registrationType == old(registrationType)
    {
      if pendingTimers > 0 {
        pendingTimers := pendingTimers - 1;
        loading := false;
        success := true;
      }
    }
  }

  /** A group registration: switching type gives one blank row that cannot be
      submitted; removing the last row is refused; once the row is filled in
      the submit passes, and success shows when the timer runs. */
  method GroupFormScenario()
  {
    var form := new RegistrationForm();
    form.HandleTypeChange(GroupEntry);
    var refused := form.HandleSubmit();
    BlankRowRefused([Blank], 0);
    assert refused && !form.loading;
    form.AddMember();
    form.RemoveMember(0);
    assert form.members == [Blank];
    form.RemoveMember(0);
    assert form.members == [Blank];
    form.HandleMemberChange(0, Name, "Ann");
    form.HandleMemberChange(0, Mobile, "555");
    form.HandleMemberChange(0, Address, "Main St");
    refused := form.HandleSubmit();
    assert form.members == [Member("Ann", "555", "Main St")];
    assert !refused && form.loading && !form.success;
    form.TimerFires();
    assert form.success && !form.loading;
  }
}
