/** The two profile tables as requests and approvals update them. */
module RegistrationTables {
  import opened Common
  import opened Phones
  import opened Profiles
  import opened Registration

  class RegistrationDb {
    var pending: map<Id, Pending>
    var profiles: map<Id, Profile>
    var edits: map<Id, EditRequest>
    var nextPending: Id
    var nextProfile: Id

    function TheRegistry(): Registry
      reads this
    {
      Registry(pending, profiles, edits, nextPending, nextProfile)
    }

    constructor ()
      ensures TheRegistry() == Registry(map[], map[], map[], 0, 0)
      ensures Sound(TheRegistry())
    {
      pending, profiles, edits, nextPending, nextProfile := map[], map[], map[], 0, 0;
    }

    /** `RegisterPlayerAPIView.post` and `RegisterCoachAPIView.post` */
    method RegisterRequest(rawCode: string, rawPhone: string, role: Role, coach: Option<Id>, details: Details)
      returns (reply: RegisterReply)
      modifies this
      ensures (TheRegistry(), reply) == RegisterPerson(old(TheRegistry()), rawCode, rawPhone, role, coach, details)
    {
      var code, phone := NormalizeDigits(rawCode), NormalizeDigits(rawPhone);
      if !ValidNationalCode(code) { return InvalidCode; }
      if CodeTaken(TheRegistry(), code) { return CodeUsed; }
      if !ValidPhone(phone) { return InvalidPhone; }
      if PhoneTaken(TheRegistry(), phone) { return PhoneUsed; }
      if coach.Some? && coach.value !in profiles { return UnknownCoach; }
      reply := RegisteredAs(nextPending);
      pending := pending[nextPending := Pending(code, phone, role, coach, details)];
      nextPending := nextPending + 1;
    }

    /** `UserProfile.objects.create(...)`, then the request is deleted; a unique
        column that clashes raises before anything changes. */
    method CreateProfile(id: Id, p: Profile) returns (raised: bool)
      modifies this
      ensures var done := Approve(old(TheRegistry()), id, p);
        raised == done.None? && TheRegistry() == if raised then old(TheRegistry()) else done.value
    {
      raised := Clashes(TheRegistry(), p);
      if !raised {
        profiles := profiles[nextProfile := p];
        nextProfile := nextProfile + 1;
        pending := pending - {id};
      }
    }

    /** The admin's `approve` action: one transaction over the selection. */
    method ApproveAction(ids: seq<Id>, page: Page) returns (approved: nat)
      modifies this
      ensures TheRegistry() == ApproveSelected(old(TheRegistry()), ids, page)
    {
      var savedPending, savedProfiles, savedNext := pending, profiles, nextProfile;
      ghost var saved := TheRegistry();
      var k := 0;
      approved := 0;
      assert ids[..0] == [];
      while k < |ids|
        invariant 0 <= k <= |ids|
        invariant nextPending == saved.nextPending && edits == saved.edits
        invariant ApproveEach(saved, ids[..k], page) == Some(TheRegistry())
      {
        assert ids[..k + 1][..k] == ids[..k];
        var id := ids[k];
        if id in pending && Lists(page, pending[id].role) {
          var raised := CreateProfile(id, AdminProfile(page, pending[id]));
          if raised {
            NoneOnceNone(saved, ids, k + 1, page);
            pending, profiles, nextProfile := savedPending, savedProfiles, savedNext;
            return 0;
          }
          approved := approved + 1;
        }
        k := k + 1;
      }
      assert ids[..k] == ids;
    }

    /** `approve_pending_user` */
    method ApprovePendingUser(id: Id) returns (approved: bool)
      modifies this
      ensures TheRegistry() == ApproveByView(old(TheRegistry()), id)
      ensures approved ==> id !in pending
    {
      approved := false;
      if id in pending {
        var q := pending[id];
        if q.nationalCode != "" && exists i :: i in profiles && profiles[i].nationalCode == q.nationalCode {
          return;
        }
        var raised := CreateProfile(id, ViewProfile(TheRegistry(), q));
        approved := !raised;
      }
    }

    /** `delete_view` and `reject_selected_with_sms`, one request. */
    method RejectRequest(id: Id)
      modifies this`pending
      ensures TheRegistry() == Reject(old(TheRegistry()), id)
    {
      pending := pending - {id};
    }

    /** Filing an edit request: the upsert of the edit view. */
    method FileEditRequest(id: Id, q: EditRequest) returns (filed: bool)
      modifies this`edits
      ensures filed == (id in profiles && !EditClashes(old(TheRegistry()), id, q))
      ensures TheRegistry() == FileEdit(old(TheRegistry()), id, q)
    {
      filed := id in profiles && !EditClashes(TheRegistry(), id, q);
      if filed {
        edits := edits[id := q.(role := RoleByFlags(q.isCoach, q.isReferee))];
      }
    }

    /** `approve_edited_profile` */
    method ApproveEditedProfile(id: Id) returns (approved: bool)
      modifies this`profiles, this`edits
      ensures approved == (id in old(edits) && id in old(profiles))
      ensures TheRegistry() == ApproveEditByView(old(TheRegistry()), id)
    {
      approved := id in edits && id in profiles;
      if approved {
        var user := CopyByView(profiles[id], edits[id]);
        profiles := profiles[id := user];
        edits := edits - {id};
      }
    }

    /** `PendingEditsAdmin.approve` */
    method ApproveEditsAction(ids: seq<Id>)
      modifies this`profiles, this`edits
      ensures TheRegistry() == ApproveEdits(old(TheRegistry()), ids)
    {
      ghost var saved := TheRegistry();
      var k := 0;
      assert ids[..0] == [];
      while k < |ids|
        invariant 0 <= k <= |ids|
        invariant TheRegistry() == ApproveEdits(saved, ids[..k])
      {
        assert ids[..k + 1][..k] == ids[..k];
        var id := ids[k];
        if id in edits && id in profiles {
          var user := CopyByAdmin(profiles[id], edits[id]);
          profiles := profiles[id := user];
          edits := edits - {id};
        }
        k := k + 1;
      }
      assert ids[..k] == ids;
    }
  }

  /** The body of `approve_edited_profile`: a loop over the simple columns, then the
      keys and the picture if they are set. */
  method CopyByView(p: Profile, q: EditRequest) returns (user: Profile)
    ensures user == EditedByView(p, q)
  {
    hide CopyField, IsSet, SimpleFields;
    user := p;
    var k := 0;
    assert SimpleFields()[..0] == [];
    while k < |SimpleFields()|
      invariant 0 <= k <= |SimpleFields()|
      invariant user == Copied(p, q, SimpleFields()[..k], {})
    {
      assert SimpleFields()[..k + 1][..k] == SimpleFields()[..k];
      user := CopyField(user, q, SimpleFields()[k]);
      k := k + 1;
    }
    assert SimpleFields()[..k] == SimpleFields();
    if IsSet(q, Plain(TkdBoard)) {
      user := CopyField(user, q, Plain(TkdBoard));
    }
    if IsSet(q, CoachKey) {
      user := CopyField(user, q, CoachKey);
      user := CopyField(user, q, Plain(CoachName));
    }
    if IsSet(q, Plain(Club)) {
      user := CopyField(user, q, Plain(Club));
    }
    if IsSet(q, Plain(ProfileImage)) {
      user := CopyField(user, q, Plain(ProfileImage));
    }
    if IsSet(q, Plain(CoachingClubs)) {
      user := CopyField(user, q, Plain(CoachingClubs));
    }
  }

  /** The body of the admin's loop over the selection: a loop over `DIFF_FIELDS` that
      passes the picture over, then the coaching clubs and the picture. */
  method CopyByAdmin(p: Profile, q: EditRequest) returns (user: Profile)
    ensures user == EditedByAdmin(p, q)
  {
    hide CopyField, IsSet, DiffFields;
    user := p;
    var k := 0;
    assert DiffFields()[..0] == [];
    while k < |DiffFields()|
      invariant 0 <= k <= |DiffFields()|
      invariant user == Copied(p, q, DiffFields()[..k], {Plain(ProfileImage)})
    {
      assert DiffFields()[..k + 1][..k] == DiffFields()[..k];
      var f := DiffFields()[k];
      if f != Plain(ProfileImage) {
        user := CopyField(user, q, f);
      }
      k := k + 1;
    }
    assert DiffFields()[..k] == DiffFields();
    user := CopyField(user, q, Plain(CoachingClubs));
    if IsSet(q, Plain(ProfileImage)) {
      user := CopyField(user, q, Plain(ProfileImage));
    }
  }

  lemma {:induction false} NoneOnceNone(g: Registry, ids: seq<Id>, k: nat, page: Page)
    requires k <= |ids| && ApproveEach(g, ids[..k], page) == None
    ensures ApproveEach(g, ids, page) == None
    decreases |ids| - k
  {
    if k == |ids| {
      assert ids[..k] == ids;
    } else {
      assert ids[..k + 1][..k] == ids[..k];
      NoneOnceNone(g, ids, k + 1, page);
    }
  }
}
