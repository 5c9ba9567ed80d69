/** Registration requests and approved profiles: two tables that must never describe
    the same person twice. Edit requests, one a profile at most, are a third. */
module Registration {
  import opened Common
  import opened Phones
  import opened Profiles

  /** A `PendingUserProfile`; `details` is everything else that was typed. */
  datatype Pending = Pending(nationalCode: string, phone: string, role: Role, coach: Option<Id>, details: Details)

  /** `edits` holds the edit requests by the profile they are for. */
  datatype Registry = Registry(
    pending: map<Id, Pending>,
    profiles: map<Id, Profile>,
    edits: map<Id, EditRequest>,
    nextPending: Id,
    nextProfile: Id)

  function Coaches(r: Role): bool { r == CoachOnly || r == CoachAndReferee }

  function Referees(r: Role): bool { r == RefereeOnly || r == CoachAndReferee }

  predicate CodeTaken(g: Registry, code: string) {
    || (exists i :: i in g.pending && g.pending[i].nationalCode == code)
    || (exists i :: i in g.profiles && g.profiles[i].nationalCode == code)
  }

  predicate PhoneTaken(g: Registry, phone: string) {
    || (exists i :: i in g.pending && g.pending[i].phone == phone)
    || (exists i :: i in g.profiles && g.profiles[i].phone == phone)
  }

  // ---------- registering ----------

  datatype RegisterReply = InvalidCode | InvalidPhone | CodeUsed | PhoneUsed | UnknownCoach | RegisteredAs(id: Id)

  /** The serializers' checks on normalised input, then the insert. */
  function RegisterPerson(g: Registry, rawCode: string, rawPhone: string, role: Role, coach: Option<Id>, details: Details)
    : (Registry, RegisterReply)
  {
    var code, phone := NormalizeDigits(rawCode), NormalizeDigits(rawPhone);
    if !ValidNationalCode(code) then (g, InvalidCode)
    else if CodeTaken(g, code) then (g, CodeUsed)
    else if !ValidPhone(phone) then (g, InvalidPhone)
    else if PhoneTaken(g, phone) then (g, PhoneUsed)
    else if coach.Some? && coach.value !in g.profiles then (g, UnknownCoach)
    else
      (g.(pending := g.pending[g.nextPending := Pending(code, phone, role, coach, details)],
          nextPending := g.nextPending + 1),
       RegisteredAs(g.nextPending))
  }

  // ---------- approving ----------

  /** The unique columns of the profile table. */
  predicate Clashes(g: Registry, p: Profile) {
    exists i :: i in g.profiles && (g.profiles[i].nationalCode == p.nationalCode || g.profiles[i].phone == p.phone
                                    || g.profiles[i].username == p.username)
  }

  /** Insert the profile and delete the request; a clash raises and undoes it all. */
  function Approve(g: Registry, id: Id, p: Profile): Option<Registry> {
    if Clashes(g, p) then None
    else Some(g.(profiles := g.profiles[g.nextProfile := p], nextProfile := g.nextProfile + 1, pending := g.pending - {id}))
  }

  /** The three admin pages; each lists requests of its own roles. */
  datatype Page = CoachPage | RefereePage | PlayerPage

  predicate Lists(page: Page, r: Role) {
    match page
    case CoachPage => Coaches(r)
    case RefereePage => Referees(r)
    case PlayerPage => r == PlayerOnly
  }

  /** What the admin's `approve` action makes of a request. */
  function AdminProfile(page: Page, q: Pending): Profile {
    Profile(q.nationalCode, NormalizePhone(q.phone), NormalizePhone(q.phone), q.role,
            match page case CoachPage => true case RefereePage => Coaches(q.role) case PlayerPage => false,
            match page case CoachPage => Referees(q.role) case RefereePage => true case PlayerPage => false,
            q.coach, q.details)
  }

  /** What the `approve_pending_user` view makes of it: nobody coaches himself. */
  function ViewProfile(g: Registry, q: Pending): Profile {
    var coach := if q.coach.Some? && q.coach.value in g.profiles
                    && NormalizeDigits(g.profiles[q.coach.value].nationalCode) != NormalizeDigits(q.nationalCode)
                 then q.coach else None;
    Profile(q.nationalCode, q.phone, Strip(q.phone), q.role, Coaches(q.role), Referees(q.role), coach, q.details)
  }

  function ApproveOne(g: Registry, id: Id, page: Page): Option<Registry> {
    if id in g.pending && Lists(page, g.pending[id].role)
    then Approve(g, id, AdminProfile(page, g.pending[id]))
    else Some(g)
  }

  function ApproveEach(g: Registry, ids: seq<Id>, page: Page): Option<Registry> {
    if ids == [] then Some(g)
    else
      var before := ApproveEach(g, ids[..|ids| - 1], page);
      if before.None? then None else ApproveOne(before.value, ids[|ids| - 1], page)
  }

  /** The `approve` action on a selection; an exception undoes the whole action. */
  function ApproveSelected(g: Registry, ids: seq<Id>, page: Page): Registry {
    var done := ApproveEach(g, ids, page);
    if done.Some? then done.value else g
  }

  /** The `approve_pending_user` view. */
  function ApproveByView(g: Registry, id: Id): Registry {
    if id !in g.pending then g
    else
      var q := g.pending[id];
      if q.nationalCode != "" && exists i :: i in g.profiles && g.profiles[i].nationalCode == q.nationalCode then g
      else
        var done := Approve(g, id, ViewProfile(g, q));
        if done.Some? then done.value else g
  }

  // ---------- rejecting, editing ----------

  function Reject(g: Registry, id: Id): Registry {
    g.(pending := g.pending - {id})
  }

  function RoleByFlags(isCoach: bool, isReferee: bool): Role {
    if isCoach && isReferee then CoachAndReferee
    else if isCoach then CoachOnly
    else if isReferee then RefereeOnly
    else PlayerOnly
  }

  /** The unique columns of the edit-request table. */
  predicate EditClashes(g: Registry, id: Id, q: EditRequest) {
    exists i :: i in g.edits && i != id && (g.edits[i].nationalCode == q.nationalCode || g.edits[i].phone == q.phone)
  }

  /** Filing an edit: a profile's earlier request is overwritten; the role follows the
      flags. */
  function FileEdit(g: Registry, id: Id, q: EditRequest): Registry {
    if id !in g.profiles || EditClashes(g, id, q) then g
    else g.(edits := g.edits[id := q.(role := RoleByFlags(q.isCoach, q.isReferee))])
  }

  /** The profile is saved, the request deleted. */
  function ReplaceProfile(g: Registry, id: Id, p: Profile): Registry {
    g.(profiles := g.profiles[id := p], edits := g.edits - {id})
  }

  /** `approve_edited_profile` */
  function ApproveEditByView(g: Registry, id: Id): Registry {
    if id !in g.edits || id !in g.profiles then g
    else ReplaceProfile(g, id, EditedByView(g.profiles[id], g.edits[id]))
  }

  function ApproveEditByAdmin(g: Registry, id: Id): Registry {
    if id !in g.edits || id !in g.profiles then g
    else ReplaceProfile(g, id, EditedByAdmin(g.profiles[id], g.edits[id]))
  }

  /** `PendingEditsAdmin.approve` on a selection. */
  function ApproveEdits(g: Registry, ids: seq<Id>): Registry {
    if ids == [] then g else ApproveEditByAdmin(ApproveEdits(g, ids[..|ids| - 1]), ids[|ids| - 1])
  }

  // ---------- runs ----------

  datatype Step =
    | Register(rawCode: string, rawPhone: string, role: Role, coach: Option<Id>, details: Details)
    | Select(ids: seq<Id>, page: Page)
    | View(id: Id)
    | Refuse(id: Id)
    | AskEdit(id: Id, edit: EditRequest)
    | ViewEdit(id: Id)
    | SelectEdits(ids: seq<Id>)

  function Do(g: Registry, s: Step): Registry {
    match s
    case Register(rawCode, rawPhone, role, coach, details) => RegisterPerson(g, rawCode, rawPhone, role, coach, details).0
    case Select(ids, page) => ApproveSelected(g, ids, page)
    case View(id) => ApproveByView(g, id)
    case Refuse(id) => Reject(g, id)
    case AskEdit(id, q) => FileEdit(g, id, q)
    case ViewEdit(id) => ApproveEditByView(g, id)
    case SelectEdits(ids) => ApproveEdits(g, ids)
  }

  function DoAll(g: Registry, steps: seq<Step>): Registry {
    if steps == [] then g else Do(DoAll(g, steps[..|steps| - 1]), steps[|steps| - 1])
  }

  // ---------- no person twice ----------

  /** Two rows of one person. */
  predicate SamePerson(code: string, phone: string, code': string, phone': string) {
    code == code' || phone == phone'
  }

  ghost predicate NoPersonTwice(g: Registry) {
    && (forall i, j :: i in g.pending && j in g.pending && i != j ==>
          !SamePerson(g.pending[i].nationalCode, g.pending[i].phone, g.pending[j].nationalCode, g.pending[j].phone))
    && (forall i, j :: i in g.profiles && j in g.profiles && i != j ==>
          !SamePerson(g.profiles[i].nationalCode, g.profiles[i].phone, g.profiles[j].nationalCode, g.profiles[j].phone))
    && (forall i, j :: i in g.pending && j in g.profiles ==>
          !SamePerson(g.pending[i].nationalCode, g.pending[i].phone, g.profiles[j].nationalCode, g.profiles[j].phone))
  }

  /** Requests are validated, accounts are named after the phone, ids are fresh. */
  ghost predicate WellKept(g: Registry) {
    && (forall i :: i in g.pending ==>
          ValidNationalCode(g.pending[i].nationalCode) && ValidPhone(g.pending[i].phone) && i < g.nextPending)
    && (forall i :: i in g.profiles ==>
          && ValidNationalCode(g.profiles[i].nationalCode)
          && g.profiles[i].username == g.profiles[i].phone && i < g.nextProfile)
    && (forall i :: i in g.pending && g.pending[i].coach.Some? ==> g.pending[i].coach.value in g.profiles)
  }

  ghost predicate Sound(g: Registry) { NoPersonTwice(g) && WellKept(g) }

  /** Everyone the system knows, requested or approved. */
  function People(g: Registry): set<(string, string)> {
    (set i | i in g.pending :: (g.pending[i].nationalCode, g.pending[i].phone))
    + (set i | i in g.profiles :: (g.profiles[i].nationalCode, g.profiles[i].phone))
  }

  /** The profile both routes must come to. */
  predicate Represents(p: Profile, q: Pending) {
    p.nationalCode == q.nationalCode && p.phone == q.phone && p.username == q.phone
  }

  lemma AdminRepresents(page: Page, q: Pending)
    requires ValidPhone(q.phone)
    ensures Represents(AdminProfile(page, q), q)
  {
    NormalizeKeepsValid(q.phone);
  }

  lemma ViewRepresents(g: Registry, q: Pending)
    requires ValidPhone(q.phone)
    ensures Represents(ViewProfile(g, q), q)
  {
  }

  lemma NoClash(g: Registry, id: Id, p: Profile)
    requires Sound(g) && id in g.pending && Represents(p, g.pending[id])
    ensures !Clashes(g, p)
  {
  }

  lemma MovedNotTwice(g: Registry, h: Registry, id: Id, p: Profile)
    requires NoPersonTwice(g) && id in g.pending && Represents(p, g.pending[id]) && g.nextProfile !in g.profiles
    requires h.pending == g.pending - {id} && h.profiles == g.profiles[g.nextProfile := p]
    ensures NoPersonTwice(h)
  {
    var n, q := g.nextProfile, g.pending[id];
    forall i, j | i in h.profiles && j in h.profiles && i != j
      ensures !SamePerson(h.profiles[i].nationalCode, h.profiles[i].phone, h.profiles[j].nationalCode, h.profiles[j].phone)
    {
      if i == n {
        assert !SamePerson(q.nationalCode, q.phone, g.profiles[j].nationalCode, g.profiles[j].phone);
      } else if j == n {
        assert !SamePerson(q.nationalCode, q.phone, g.profiles[i].nationalCode, g.profiles[i].phone);
      }
    }
    forall i, j | i in h.pending && j in h.profiles
      ensures !SamePerson(h.pending[i].nationalCode, h.pending[i].phone, h.profiles[j].nationalCode, h.profiles[j].phone)
    {
      if j == n {
        assert !SamePerson(g.pending[i].nationalCode, g.pending[i].phone, q.nationalCode, q.phone);
      }
    }
  }

  /** Approving a request never clashes, keeps the tables sound, and moves one person
      from one table to the other. */
  lemma ApproveSound(g: Registry, id: Id, p: Profile)
    requires Sound(g) && id in g.pending && Represents(p, g.pending[id]) && ValidNationalCode(p.nationalCode)
    ensures var done := Approve(g, id, p);
      && done.Some? && Sound(done.value) && People(done.value) == People(g)
      && done.value.pending == g.pending - {id}
  {
    NoClash(g, id, p);
    assert g.nextProfile !in g.profiles;
    var h := g.(profiles := g.profiles[g.nextProfile := p], nextProfile := g.nextProfile + 1, pending := g.pending - {id});
    MovedNotTwice(g, h, id, p);
    assert WellKept(h);
    PeopleMove(g, h, id);
  }

  lemma PeopleMove(g: Registry, done: Registry, id: Id)
    requires id in g.pending && g.nextProfile !in g.profiles
    requires done.pending == g.pending - {id} && g.nextProfile in done.profiles
    requires done.profiles == g.profiles[g.nextProfile := done.profiles[g.nextProfile]]
    requires Represents(done.profiles[g.nextProfile], g.pending[id])
    ensures People(done) == People(g)
  {
    forall x | x in People(g) ensures x in People(done) {
      if i :| i in g.pending && x == (g.pending[i].nationalCode, g.pending[i].phone) {
        if i == id {
          assert x == (done.profiles[g.nextProfile].nationalCode, done.profiles[g.nextProfile].phone);
        } else {
          assert i in done.pending && done.pending[i] == g.pending[i];
        }
      } else {
        var j :| j in g.profiles && x == (g.profiles[j].nationalCode, g.profiles[j].phone);
        assert j in done.profiles && done.profiles[j] == g.profiles[j];
      }
    }
    forall x | x in People(done) ensures x in People(g) {
      if i :| i in done.pending && x == (done.pending[i].nationalCode, done.pending[i].phone) {
        assert i in g.pending;
      } else {
        var j :| j in done.profiles && x == (done.profiles[j].nationalCode, done.profiles[j].phone);
        if j == g.nextProfile {
          assert x == (g.pending[id].nationalCode, g.pending[id].phone);
        } else {
          assert j in g.profiles;
        }
      }
    }
  }

  lemma ApproveOneSound(g: Registry, id: Id, page: Page)
    requires Sound(g)
    ensures var done := ApproveOne(g, id, page);
      && done.Some? && Sound(done.value) && People(done.value) == People(g)
      && done.value.pending == (if id in g.pending && Lists(page, g.pending[id].role) then g.pending - {id} else g.pending)
  {
    if id in g.pending && Lists(page, g.pending[id].role) {
      AdminRepresents(page, g.pending[id]);
      ApproveSound(g, id, AdminProfile(page, g.pending[id]));
    }
  }

  /** The admin action on any selection never fails and conserves the people; the
      requests left are those not selected, or not of the page's roles. */
  lemma {:induction false} ApproveEachSound(g: Registry, ids: seq<Id>, page: Page)
    requires Sound(g)
    ensures var done := ApproveEach(g, ids, page);
      && done.Some? && Sound(done.value) && People(done.value) == People(g)
      && (forall i :: i in done.value.pending ==> i in g.pending && done.value.pending[i] == g.pending[i])
      && (forall i :: i in g.pending ==> (i !in done.value.pending <==> i in ids && Lists(page, g.pending[i].role)))
  {
    hide ApproveOne, Sound, People, Lists;
    if ids != [] {
      var init, last := ids[..|ids| - 1], ids[|ids| - 1];
      assert forall i :: i in ids <==> i in init || i == last;
      ApproveEachSound(g, init, page);
      ApproveOneSound(ApproveEach(g, init, page).value, last, page);
    }
  }

  lemma ViewSound(g: Registry, id: Id)
    requires Sound(g)
    ensures var v := ApproveByView(g, id); Sound(v) && People(v) == People(g) && id !in v.pending
  {
    if id in g.pending {
      var q := g.pending[id];
      forall i | i in g.profiles ensures g.profiles[i].nationalCode != q.nationalCode {
        assert !SamePerson(q.nationalCode, q.phone, g.profiles[i].nationalCode, g.profiles[i].phone);
      }
      ViewRepresents(g, q);
      ApproveSound(g, id, ViewProfile(g, q));
    }
  }

  /** Both routes make the same profile of a request, whichever page lists it. */
  lemma RoutesAgree(g: Registry, id: Id, page: Page)
    requires Sound(g) && id in g.pending && Lists(page, g.pending[id].role)
    ensures ApproveSelected(g, [id], page) == ApproveByView(g, id)
  {
    var q := g.pending[id];
    NormalizeKeepsValid(q.phone);
    AdminRepresents(page, q);
    ViewRepresents(g, q);
    if q.coach.Some? {
      var c := g.profiles[q.coach.value].nationalCode;
      assert !SamePerson(q.nationalCode, q.phone, c, g.profiles[q.coach.value].phone);
      NormalizeKeepsCode(c);
      NormalizeKeepsCode(q.nationalCode);
    }
    assert AdminProfile(page, q) == ViewProfile(g, q);
    assert ApproveEach(g, [], page) == Some(g) && [id][..0] == [];
    assert ApproveEach(g, [id], page) == ApproveOne(g, id, page);
    ViewSound(g, id);
    ApproveSound(g, id, AdminProfile(page, q));
  }

  /** Which page lists which requests. */
  lemma PageLists(page: Page, r: Role)
    ensures Lists(page, r) <==>
              || (page == CoachPage && (r == CoachOnly || r == CoachAndReferee))
              || (page == RefereePage && (r == RefereeOnly || r == CoachAndReferee))
              || (page == PlayerPage && r == PlayerOnly)
  {
  }

  /** The profile an approval makes, column by column, by either route. */
  lemma ApprovedAs(g: Registry, id: Id, page: Page)
    requires Sound(g) && id in g.pending && Lists(page, g.pending[id].role)
    ensures var q := g.pending[id];
      var p := Profile(q.nationalCode, q.phone, q.phone, q.role, q.role == CoachOnly || q.role == CoachAndReferee,
                       q.role == RefereeOnly || q.role == CoachAndReferee, q.coach, q.details);
      && ApproveByView(g, id) == g.(profiles := g.profiles[g.nextProfile := p], nextProfile := g.nextProfile + 1, pending := g.pending - {id})
      && ApproveSelected(g, [id], page) == ApproveByView(g, id)
  {
    var q := g.pending[id];
    RoutesAgree(g, id, page);
    ViewSound(g, id);
    ViewRepresents(g, q);
    ApproveSound(g, id, ViewProfile(g, q));
    if q.coach.Some? {
      var c := g.profiles[q.coach.value].nationalCode;
      assert !SamePerson(q.nationalCode, q.phone, c, g.profiles[q.coach.value].phone);
      NormalizeKeepsCode(c);
      NormalizeKeepsCode(q.nationalCode);
    }
    forall i | i in g.profiles ensures g.profiles[i].nationalCode != q.nationalCode {
      assert !SamePerson(q.nationalCode, q.phone, g.profiles[i].nationalCode, g.profiles[i].phone);
    }
  }

  lemma NormalizeKeepsCode(c: string)
    requires ValidNationalCode(c)
    ensures NormalizeDigits(c) == c
  {
  }

  /** A new request names somebody the system does not know. */
  lemma RegisterSound(g: Registry, rawCode: string, rawPhone: string, role: Role, coach: Option<Id>, details: Details)
    requires Sound(g)
    ensures var (h, reply) := RegisterPerson(g, rawCode, rawPhone, role, coach, details);
      && Sound(h)
      && (reply.RegisteredAs? ==>
            && reply.id !in g.pending
            && h.pending == g.pending[reply.id := Pending(NormalizeDigits(rawCode), NormalizeDigits(rawPhone), role, coach, details)]
            && h.profiles == g.profiles)
      && (!reply.RegisteredAs? ==> h == g)
  {
    var (h, reply) := RegisterPerson(g, rawCode, rawPhone, role, coach, details);
    if reply.RegisteredAs? {
      RequestSound(g, Pending(NormalizeDigits(rawCode), NormalizeDigits(rawPhone), role, coach, details));
    }
  }

  lemma RequestSound(g: Registry, q: Pending)
    requires Sound(g) && ValidNationalCode(q.nationalCode) && ValidPhone(q.phone)
    requires !CodeTaken(g, q.nationalCode) && !PhoneTaken(g, q.phone)
    requires q.coach.Some? ==> q.coach.value in g.profiles
    ensures g.nextPending !in g.pending
    ensures Sound(g.(pending := g.pending[g.nextPending := q], nextPending := g.nextPending + 1))
  {
    hide NoPersonTwice, ValidNationalCode, ValidPhone, CodeTaken, PhoneTaken;
    var h := g.(pending := g.pending[g.nextPending := q], nextPending := g.nextPending + 1);
    AddedNotTwice(g, h, q);
    assert WellKept(h);
  }

  lemma AddedNotTwice(g: Registry, h: Registry, q: Pending)
    requires NoPersonTwice(g) && h.pending == g.pending[g.nextPending := q] && h.profiles == g.profiles
    requires !CodeTaken(g, q.nationalCode) && !PhoneTaken(g, q.phone)
    ensures NoPersonTwice(h)
  {
  }

  /** A person is registered exactly when code and phone are well formed, nobody
      known shares either, and the coach named exists. */
  lemma RegisteredIff(g: Registry, rawCode: string, rawPhone: string, role: Role, coach: Option<Id>, details: Details)
    ensures var code, phone := NormalizeDigits(rawCode), NormalizeDigits(rawPhone);
      RegisterPerson(g, rawCode, rawPhone, role, coach, details).1.RegisteredAs? <==>
        && ValidNationalCode(code) && ValidPhone(phone)
        && (forall x :: x in People(g) ==> !SamePerson(x.0, x.1, code, phone))
        && (coach.Some? ==> coach.value in g.profiles)
  {
    var code, phone := NormalizeDigits(rawCode), NormalizeDigits(rawPhone);
    if forall x :: x in People(g) ==> !SamePerson(x.0, x.1, code, phone) {
      forall i | i in g.pending ensures g.pending[i].nationalCode != code && g.pending[i].phone != phone {
        assert (g.pending[i].nationalCode, g.pending[i].phone) in People(g);
      }
      forall i | i in g.profiles ensures g.profiles[i].nationalCode != code && g.profiles[i].phone != phone {
        assert (g.profiles[i].nationalCode, g.profiles[i].phone) in People(g);
      }
    }
  }

  predicate Digits(s: string) { forall i :: 0 <= i < |s| ==> '0' <= s[i] <= '9' }

  ghost predicate CodeKnown(g: Registry, code: string) {
    exists x :: x in People(g) && x.0 == code
  }

  ghost predicate PhoneKnown(g: Registry, phone: string) {
    exists x :: x in People(g) && x.1 == phone
  }

  lemma KnownIsTaken(g: Registry, text: string)
    ensures CodeKnown(g, text) <==> CodeTaken(g, text)
    ensures PhoneKnown(g, text) <==> PhoneTaken(g, text)
  {
    forall i | i in g.pending ensures (g.pending[i].nationalCode, g.pending[i].phone) in People(g) {}
    forall i | i in g.profiles ensures (g.profiles[i].nationalCode, g.profiles[i].phone) in People(g) {}
    if CodeTaken(g, text) {
      if i :| i in g.pending && g.pending[i].nationalCode == text {
        assert (g.pending[i].nationalCode, g.pending[i].phone).0 == text;
      } else {
        var j :| j in g.profiles && g.profiles[j].nationalCode == text;
        assert (g.profiles[j].nationalCode, g.profiles[j].phone).0 == text;
      }
    }
    if PhoneTaken(g, text) {
      if i :| i in g.pending && g.pending[i].phone == text {
        assert (g.pending[i].nationalCode, g.pending[i].phone).1 == text;
      } else {
        var j :| j in g.profiles && g.profiles[j].phone == text;
        assert (g.profiles[j].nationalCode, g.profiles[j].phone).1 == text;
      }
    }
  }

  /** Every answer of a registration: ten digits of a code nobody has, then eleven digits
      of a phone that start with 09 and that nobody has, then a coach who exists; and what
      is stored. */
  lemma RegisterAnswers(g: Registry, rawCode: string, rawPhone: string, role: Role, coach: Option<Id>, details: Details)
    ensures var (h, reply) := RegisterPerson(g, rawCode, rawPhone, role, coach, details);
      var code, phone := NormalizeDigits(rawCode), NormalizeDigits(rawPhone);
      var codeOk, phoneOk := Digits(code) && |code| == 10, Digits(phone) && |phone| == 11 && phone[..2] == "09";
      && (reply == InvalidCode <==> !codeOk)
      && (reply == CodeUsed <==> codeOk && CodeKnown(g, code))
      && (reply == InvalidPhone <==> codeOk && !CodeKnown(g, code) && !phoneOk)
      && (reply == PhoneUsed <==> codeOk && !CodeKnown(g, code) && phoneOk && PhoneKnown(g, phone))
      && (reply == UnknownCoach <==> codeOk && !CodeKnown(g, code) && phoneOk && !PhoneKnown(g, phone) && coach.Some? && coach.value !in g.profiles)
      && (!reply.RegisteredAs? ==> h == g)
      && (reply.RegisteredAs? ==>
            h == g.(pending := g.pending[g.nextPending := Pending(code, phone, role, coach, details)], nextPending := g.nextPending + 1))
  {
    hide NormalizeDigits, People, CodeTaken, PhoneTaken, CodeKnown, PhoneKnown;
    var code, phone := NormalizeDigits(rawCode), NormalizeDigits(rawPhone);
    KnownIsTaken(g, code);
    KnownIsTaken(g, phone);
    assert Digits(code) && |code| == 10 <==> ValidNationalCode(code);
    assert |phone| == 11 ==> (phone[..2] == "09" <==> phone[0] == '0' && phone[1] == '9');
    assert Digits(phone) && |phone| == 11 && phone[..2] == "09" <==> ValidPhone(phone);
  }

  /** An edit is filed for a known profile unless another profile's request has its code
      or phone; it replaces the profile's own request, and its role follows its flags. */
  lemma FiledAs(g: Registry, id: Id, q: EditRequest)
    ensures var h := FileEdit(g, id, q);
      var free := forall i :: i in g.edits && i != id ==> g.edits[i].nationalCode != q.nationalCode && g.edits[i].phone != q.phone;
      var role := if q.isCoach && q.isReferee then CoachAndReferee else if q.isCoach then CoachOnly
                  else if q.isReferee then RefereeOnly else PlayerOnly;
      h == if id in g.profiles && free then g.(edits := g.edits[id := q.(role := role)]) else g
  {
  }

  /** The same requests, and profiles of the same people under the same ids. */
  ghost predicate SamePeople(g: Registry, h: Registry) {
    && h.pending == g.pending && h.nextPending == g.nextPending && h.nextProfile == g.nextProfile
    && h.profiles.Keys == g.profiles.Keys
    && forall i :: i in g.profiles ==> SameIdentity(h.profiles[i], g.profiles[i])
  }

  /** Everybody known before is known after, nobody else is, and doubles do not
      appear. */
  ghost predicate KeepsPeople(g: Registry, h: Registry) {
    SamePeople(g, h) && People(h) == People(g) && (Sound(g) ==> Sound(h))
  }

  lemma SamePeopleKept(g: Registry, h: Registry)
    requires SamePeople(g, h)
    ensures KeepsPeople(g, h)
  {
    assert forall i :: i in g.profiles <==> i in h.profiles;
    var mine, theirs := (set i | i in h.profiles :: (h.profiles[i].nationalCode, h.profiles[i].phone)),
                        (set i | i in g.profiles :: (g.profiles[i].nationalCode, g.profiles[i].phone));
    assert mine == theirs;
  }

  lemma ApproveEditKeepsPeople(g: Registry, id: Id)
    ensures SamePeople(g, ApproveEditByView(g, id)) && SamePeople(g, ApproveEditByAdmin(g, id))
  {
    hide EditedByView, EditedByAdmin;
    if id in g.edits && id in g.profiles {
      EditKeepsIdentity(g.profiles[id], g.edits[id]);
    }
  }

  lemma {:induction false} ApproveEditsKeepPeople(g: Registry, ids: seq<Id>)
    ensures SamePeople(g, ApproveEdits(g, ids))
  {
    if ids != [] {
      ApproveEditsKeepPeople(g, ids[..|ids| - 1]);
      ApproveEditKeepsPeople(ApproveEdits(g, ids[..|ids| - 1]), ids[|ids| - 1]);
    }
  }

  /** The admin action on any selection, in any order and with repetitions: every
      selected request of a known profile is applied once, to the profile as it was,
      and is gone; nothing else changes. */
  lemma {:induction false} SelectedEdits(g: Registry, ids: seq<Id>)
    ensures var h := ApproveEdits(g, ids);
      && h.profiles.Keys == g.profiles.Keys
      && (forall i :: i in h.edits ==> i in g.edits && h.edits[i] == g.edits[i])
      && (forall i :: i in g.edits ==> (i !in h.edits <==> i in ids && i in g.profiles))
      && (forall i :: i in g.profiles ==>
            h.profiles[i] == if i in ids && i in g.edits then EditedByAdmin(g.profiles[i], g.edits[i]) else g.profiles[i])
  {
    hide EditedByAdmin;
    if ids != [] {
      var init, last := ids[..|ids| - 1], ids[|ids| - 1];
      assert forall i :: i in ids <==> i in init || i == last;
      SelectedEdits(g, init);
    }
  }

  /** Filing edits, and approving them by either route, changes nobody's national code
      or phone, whatever code and phone the requests carry. */
  lemma EditKeepsPeople(g: Registry, id: Id, ids: seq<Id>, q: EditRequest)
    ensures KeepsPeople(g, FileEdit(g, id, q)) && KeepsPeople(g, ApproveEditByView(g, id)) && KeepsPeople(g, ApproveEdits(g, ids))
  {
    hide People, Sound, ApproveEditByView, ApproveEdits, EditClashes;
    ApproveEditKeepsPeople(g, id);
    ApproveEditsKeepPeople(g, ids);
    SamePeopleKept(g, FileEdit(g, id, q));
    SamePeopleKept(g, ApproveEditByView(g, id));
    SamePeopleKept(g, ApproveEdits(g, ids));
  }

  /** A rejected request is gone; every other request, and every profile and edit, stays. */
  lemma RejectedIs(g: Registry, id: Id)
    ensures var h := Reject(g, id);
      && id !in h.pending && (forall i :: i in g.pending && i != id ==> i in h.pending && h.pending[i] == g.pending[i])
      && h.pending.Keys <= g.pending.Keys && h.(pending := g.pending) == g
  {
  }

  lemma RejectKeepsSound(g: Registry, id: Id)
    requires Sound(g)
    ensures Sound(Reject(g, id))
  {
  }

  lemma StepKeepsSound(g: Registry, s: Step)
    requires Sound(g)
    ensures Sound(Do(g, s))
  {
    hide Sound, People, RegisterPerson, ApproveEach, ApproveByView, Reject;
    match s
    case Register(rawCode, rawPhone, role, coach, details) => RegisterSound(g, rawCode, rawPhone, role, coach, details);
    case Select(ids, page) => ApproveEachSound(g, ids, page);
    case View(id) => ViewSound(g, id);
    case Refuse(id) => RejectKeepsSound(g, id);
    case AskEdit(id, q) => SamePeopleKept(g, FileEdit(g, id, q));
    case ViewEdit(id) =>
      ApproveEditKeepsPeople(g, id);
      SamePeopleKept(g, ApproveEditByView(g, id));
    case SelectEdits(ids) =>
      ApproveEditsKeepPeople(g, ids);
      SamePeopleKept(g, ApproveEdits(g, ids));
  }

  /** In every state of every run nobody is in the tables twice. */
  lemma {:induction false} RunKeepsSound(g: Registry, steps: seq<Step>)
    requires Sound(g)
    ensures Sound(DoAll(g, steps))
  {
    if steps != [] {
      RunKeepsSound(g, steps[..|steps| - 1]);
      StepKeepsSound(DoAll(g, steps[..|steps| - 1]), steps[|steps| - 1]);
    }
  }
}
