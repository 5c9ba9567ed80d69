/** Approved profiles and the edit requests their owners file: rows with the same
    columns, and the two ways an approved edit is copied into the profile. */
module Profiles {
  import opened Common

  datatype Role = PlayerOnly | CoachOnly | RefereeOnly | CoachAndReferee

  /** The columns an edit request shares with a profile. */
  datatype Field = NationalCode | Phone | RoleName | IsCoach | IsReferee | CoachKey | Plain(column: Column)

  datatype Column =
    | FirstName | LastName | FatherName | BirthDate | Gender | Address | Province | County | City
    | TkdBoard | TkdBoardName | ProfileImage | BeltGrade | BeltCertificateNumber | BeltCertificateDate
    | CoachName | ClubNames | CoachLevel | CoachLevelInternational | Kyorogi | Poomseh | Hanmadang
    | KyorogiLevel | KyorogiLevelInternational | PoomsehLevel | PoomsehLevelInternational
    | HanmadangLevel | HanmadangLevelInternational | ConfirmInfo | Club | CoachingClubs

  datatype Value = Text(text: string) | Flag(flag: bool) | RoleValue(role: Role) | Key(key: Option<Id>) | Keys(keys: set<Id>)

  /** The plain columns; a missing one is blank. */
  type Details = map<Column, Value>

  /** A `UserProfile`, with the username of its account. */
  datatype Profile = Profile(
    nationalCode: string,
    phone: string,
    username: string,
    role: Role,
    isCoach: bool,
    isReferee: bool,
    coach: Option<Id>,
    details: Details)

  /** A `PendingEditProfile`: it has a national code and a phone of its own. */
  datatype EditRequest = EditRequest(
    nationalCode: string,
    phone: string,
    role: Role,
    isCoach: bool,
    isReferee: bool,
    coach: Option<Id>,
    details: Details)

  function DetailOf(d: Details, c: Column): Value {
    if c in d then d[c] else Text("")
  }

  /** `getattr(pending, field)` */
  function EditValue(q: EditRequest, f: Field): Value {
    match f
    case NationalCode => Text(q.nationalCode)
    case Phone => Text(q.phone)
    case RoleName => RoleValue(q.role)
    case IsCoach => Flag(q.isCoach)
    case IsReferee => Flag(q.isReferee)
    case CoachKey => Key(q.coach)
    case Plain(c) => DetailOf(q.details, c)
  }

  function ProfileValue(p: Profile, f: Field): Value {
    match f
    case NationalCode => Text(p.nationalCode)
    case Phone => Text(p.phone)
    case RoleName => RoleValue(p.role)
    case IsCoach => Flag(p.isCoach)
    case IsReferee => Flag(p.isReferee)
    case CoachKey => Key(p.coach)
    case Plain(c) => DetailOf(p.details, c)
  }

  /** `setattr(user, field, getattr(pending, field))` */
  function CopyField(p: Profile, q: EditRequest, f: Field): Profile {
    match f
    case NationalCode => p.(nationalCode := q.nationalCode)
    case Phone => p.(phone := q.phone)
    case RoleName => p.(role := q.role)
    case IsCoach => p.(isCoach := q.isCoach)
    case IsReferee => p.(isReferee := q.isReferee)
    case CoachKey => p.(coach := q.coach)
    case Plain(c) => p.(details := p.details[c := DetailOf(q.details, c)])
  }

  /** A column that Python finds true. */
  predicate IsSet(q: EditRequest, f: Field) {
    EditValue(q, f) !in {Text(""), Key(None), Keys({})}
  }

  // ---------- the two routes ----------

  function SimpleFields(): seq<Field> {
    [Plain(FirstName), Plain(LastName), Plain(FatherName), Plain(BirthDate), Plain(Gender),
     Plain(Address), Plain(Province), Plain(County), Plain(City),
     Plain(BeltGrade), Plain(BeltCertificateNumber), Plain(BeltCertificateDate),
     Plain(CoachLevel), Plain(CoachLevelInternational),
     Plain(Kyorogi), Plain(KyorogiLevel), Plain(KyorogiLevelInternational),
     Plain(Poomseh), Plain(PoomsehLevel), Plain(PoomsehLevelInternational),
     Plain(Hanmadang), Plain(HanmadangLevel), Plain(HanmadangLevelInternational),
     IsCoach, IsReferee, Plain(TkdBoardName), Plain(ClubNames), Plain(ConfirmInfo), RoleName]
  }

  function DiffFields(): seq<Field> {
    [Plain(FirstName), Plain(LastName), Plain(FatherName),
     Plain(BirthDate), Plain(Gender),
     Plain(Province), Plain(County), Plain(City), Plain(Address),
     RoleName, IsCoach, IsReferee,
     Plain(CoachLevel), Plain(CoachLevelInternational),
     Plain(Kyorogi), Plain(KyorogiLevel), Plain(KyorogiLevelInternational),
     Plain(Poomseh), Plain(PoomsehLevel), Plain(PoomsehLevelInternational),
     Plain(Hanmadang), Plain(HanmadangLevel), Plain(HanmadangLevelInternational),
     Plain(BeltGrade), Plain(BeltCertificateNumber), Plain(BeltCertificateDate),
     Plain(TkdBoard), Plain(Club), CoachKey,
     Plain(ProfileImage)]
  }

  /** A loop over a list of columns; `skip` are passed over. */
  function Copied(p: Profile, q: EditRequest, fields: seq<Field>, skip: set<Field>): Profile {
    if fields == [] then p
    else
      var before, f := Copied(p, q, fields[..|fields| - 1], skip), fields[|fields| - 1];
      if f in skip then before else CopyField(before, q, f)
  }

  function CopyIf(p: Profile, q: EditRequest, f: Field, copies: bool): Profile {
    if copies then CopyField(p, q, f) else p
  }

  /** `approve_edited_profile`: after its loop the keys and the picture are copied only
      when set. */
  function EditedByView(p: Profile, q: EditRequest): Profile {
    var a := Copied(p, q, SimpleFields(), {});
    var b := CopyIf(a, q, Plain(TkdBoard), IsSet(q, Plain(TkdBoard)));
    var c := CopyIf(CopyIf(b, q, CoachKey, IsSet(q, CoachKey)), q, Plain(CoachName), IsSet(q, CoachKey));
    var d := CopyIf(c, q, Plain(Club), IsSet(q, Plain(Club)));
    var e := CopyIf(d, q, Plain(ProfileImage), IsSet(q, Plain(ProfileImage)));
    CopyIf(e, q, Plain(CoachingClubs), IsSet(q, Plain(CoachingClubs)))
  }

  /** `PendingEditsAdmin.approve`, one request: its loop passes the picture over; the
      coaching clubs are copied always, the picture when set. */
  function EditedByAdmin(p: Profile, q: EditRequest): Profile {
    var a := Copied(p, q, DiffFields(), {Plain(ProfileImage)});
    CopyIf(CopyField(a, q, Plain(CoachingClubs)), q, Plain(ProfileImage), IsSet(q, Plain(ProfileImage)))
  }

  // ---------- what they copy ----------

  lemma EveryColumn(c: Column)
    ensures c in {FirstName, LastName, FatherName, BirthDate, Gender, Address, Province, County, City,
                  TkdBoard, TkdBoardName, ProfileImage, BeltGrade, BeltCertificateNumber, BeltCertificateDate,
                  CoachName, ClubNames, CoachLevel, CoachLevelInternational, Kyorogi, Poomseh, Hanmadang,
                  KyorogiLevel, KyorogiLevelInternational, PoomsehLevel, PoomsehLevelInternational,
                  HanmadangLevel, HanmadangLevelInternational, ConfirmInfo, Club, CoachingClubs}
  {
  }

  lemma SimpleFieldsListed(f: Field)
    ensures f in SimpleFields() <==>
            f == Plain(FirstName) || f == Plain(LastName) || f == Plain(FatherName) || f == Plain(BirthDate)
            || f == Plain(Gender) || f == Plain(Address) || f == Plain(Province) || f == Plain(County)
            || f == Plain(City) || f == Plain(BeltGrade) || f == Plain(BeltCertificateNumber)
            || f == Plain(BeltCertificateDate) || f == Plain(CoachLevel) || f == Plain(CoachLevelInternational)
            || f == Plain(Kyorogi) || f == Plain(KyorogiLevel) || f == Plain(KyorogiLevelInternational)
            || f == Plain(Poomseh) || f == Plain(PoomsehLevel) || f == Plain(PoomsehLevelInternational)
            || f == Plain(Hanmadang) || f == Plain(HanmadangLevel) || f == Plain(HanmadangLevelInternational)
            || f == IsCoach || f == IsReferee || f == Plain(TkdBoardName) || f == Plain(ClubNames)
            || f == Plain(ConfirmInfo) || f == RoleName
  {
  }

  /** The view's list holds all columns but these. */
  lemma SimpleFieldsAre(f: Field)
    ensures f in SimpleFields() <==>
            f !in {NationalCode, Phone, CoachKey, Plain(CoachName), Plain(TkdBoard), Plain(Club), Plain(CoachingClubs), Plain(ProfileImage)}
  {
    SimpleFieldsListed(f);
    hide SimpleFields;
    if f.Plain? {
      EveryColumn(f.column);
    }
  }

  lemma DiffFieldsListed(f: Field)
    ensures f in DiffFields() <==>
            f == Plain(FirstName) || f == Plain(LastName) || f == Plain(FatherName) || f == Plain(BirthDate)
            || f == Plain(Gender) || f == Plain(Province) || f == Plain(County) || f == Plain(City)
            || f == Plain(Address) || f == RoleName || f == IsCoach || f == IsReferee || f == Plain(CoachLevel)
            || f == Plain(CoachLevelInternational) || f == Plain(Kyorogi) || f == Plain(KyorogiLevel)
            || f == Plain(KyorogiLevelInternational) || f == Plain(Poomseh) || f == Plain(PoomsehLevel)
            || f == Plain(PoomsehLevelInternational) || f == Plain(Hanmadang) || f == Plain(HanmadangLevel)
            || f == Plain(HanmadangLevelInternational) || f == Plain(BeltGrade) || f == Plain(BeltCertificateNumber)
            || f == Plain(BeltCertificateDate) || f == Plain(TkdBoard) || f == Plain(Club) || f == CoachKey
            || f == Plain(ProfileImage)
  {
  }

  /** The admin's list holds all columns but these. */
  lemma DiffFieldsAre(f: Field)
    ensures f in DiffFields() <==>
            f !in {NationalCode, Phone, Plain(CoachName), Plain(TkdBoardName), Plain(ClubNames), Plain(ConfirmInfo), Plain(CoachingClubs)}
  {
    DiffFieldsListed(f);
    hide DiffFields;
    if f.Plain? {
      EveryColumn(f.column);
    }
  }

  predicate ViewCopies(q: EditRequest, f: Field) {
    || f in SimpleFields()
    || (f in {Plain(TkdBoard), CoachKey, Plain(Club), Plain(ProfileImage), Plain(CoachingClubs)} && IsSet(q, f))
    || (f == Plain(CoachName) && IsSet(q, CoachKey))
  }

  predicate AdminCopies(q: EditRequest, f: Field) {
    || (f in DiffFields() && f != Plain(ProfileImage))
    || f == Plain(CoachingClubs)
    || (f == Plain(ProfileImage) && IsSet(q, f))
  }

  lemma CopyFieldValue(p: Profile, q: EditRequest, f: Field, g: Field)
    ensures ProfileValue(CopyField(p, q, f), g) == if g == f then EditValue(q, f) else ProfileValue(p, g)
    ensures CopyField(p, q, f).username == p.username
  {
  }

  lemma {:induction false} CopiedValue(p: Profile, q: EditRequest, fields: seq<Field>, skip: set<Field>, g: Field)
    ensures ProfileValue(Copied(p, q, fields, skip), g)
            == if g in fields && g !in skip then EditValue(q, g) else ProfileValue(p, g)
    ensures Copied(p, q, fields, skip).username == p.username
  {
    hide ProfileValue, EditValue, CopyField;
    if fields != [] {
      var init, f := fields[..|fields| - 1], fields[|fields| - 1];
      assert g in fields <==> g in init || g == f;
      CopiedValue(p, q, init, skip, g);
      CopyFieldValue(Copied(p, q, init, skip), q, f, g);
    }
  }

  lemma CopyIfValue(p: Profile, q: EditRequest, f: Field, copies: bool, g: Field)
    ensures ProfileValue(CopyIf(p, q, f, copies), g) == if copies && g == f then EditValue(q, f) else ProfileValue(p, g)
    ensures CopyIf(p, q, f, copies).username == p.username
  {
    CopyFieldValue(p, q, f, g);
  }

  /** Every column of the profile after the view has approved an edit. */
  lemma EditedByViewValue(p: Profile, q: EditRequest, g: Field)
    ensures ProfileValue(EditedByView(p, q), g) == if ViewCopies(q, g) then EditValue(q, g) else ProfileValue(p, g)
    ensures EditedByView(p, q).username == p.username
  {
    hide ProfileValue, EditValue, CopyField, IsSet, Copied, CopyIf, SimpleFields, DiffFields;
    var a := Copied(p, q, SimpleFields(), {});
    CopiedValue(p, q, SimpleFields(), {}, g);
    var b := CopyIf(a, q, Plain(TkdBoard), IsSet(q, Plain(TkdBoard)));
    CopyIfValue(a, q, Plain(TkdBoard), IsSet(q, Plain(TkdBoard)), g);
    var c0 := CopyIf(b, q, CoachKey, IsSet(q, CoachKey));
    CopyIfValue(b, q, CoachKey, IsSet(q, CoachKey), g);
    var c := CopyIf(c0, q, Plain(CoachName), IsSet(q, CoachKey));
    CopyIfValue(c0, q, Plain(CoachName), IsSet(q, CoachKey), g);
    var d := CopyIf(c, q, Plain(Club), IsSet(q, Plain(Club)));
    CopyIfValue(c, q, Plain(Club), IsSet(q, Plain(Club)), g);
    var e := CopyIf(d, q, Plain(ProfileImage), IsSet(q, Plain(ProfileImage)));
    CopyIfValue(d, q, Plain(ProfileImage), IsSet(q, Plain(ProfileImage)), g);
    CopyIfValue(e, q, Plain(CoachingClubs), IsSet(q, Plain(CoachingClubs)), g);
  }

  /** Every column after the admin action. */
  lemma EditedByAdminValue(p: Profile, q: EditRequest, g: Field)
    ensures ProfileValue(EditedByAdmin(p, q), g) == if AdminCopies(q, g) then EditValue(q, g) else ProfileValue(p, g)
    ensures EditedByAdmin(p, q).username == p.username
  {
    hide ProfileValue, EditValue, CopyField, IsSet, Copied, CopyIf, SimpleFields, DiffFields;
    var a := Copied(p, q, DiffFields(), {Plain(ProfileImage)});
    CopiedValue(p, q, DiffFields(), {Plain(ProfileImage)}, g);
    CopyFieldValue(a, q, Plain(CoachingClubs), g);
    CopyIfValue(CopyField(a, q, Plain(CoachingClubs)), q, Plain(ProfileImage), IsSet(q, Plain(ProfileImage)), g);
  }

  /** Neither route touches national code, phone or account, although the request has
      a code and a phone that may differ. */
  lemma EditKeepsIdentity(p: Profile, q: EditRequest)
    ensures SameIdentity(EditedByView(p, q), p) && SameIdentity(EditedByAdmin(p, q), p)
  {
    hide EditedByView, EditedByAdmin, SimpleFields, DiffFields, IsSet;
    forall f | f in {NationalCode, Phone}
      ensures ProfileValue(EditedByView(p, q), f) == ProfileValue(p, f) == ProfileValue(EditedByAdmin(p, q), f)
    {
      SimpleFieldsAre(f);
      DiffFieldsAre(f);
      EditedByViewValue(p, q, f);
      EditedByAdminValue(p, q, f);
    }
    EditedByViewValue(p, q, Phone);
    EditedByAdminValue(p, q, Phone);
    assert ProfileValue(EditedByView(p, q), NationalCode) == ProfileValue(p, NationalCode) == ProfileValue(EditedByAdmin(p, q), NationalCode);
    assert ProfileValue(EditedByView(p, q), Phone) == ProfileValue(p, Phone) == ProfileValue(EditedByAdmin(p, q), Phone);
  }

  predicate SameIdentity(x: Profile, y: Profile) {
    x.nationalCode == y.nationalCode && x.phone == y.phone && x.username == y.username
  }

  /** Where the routes differ: the admin copies an empty board, coach, club or list of
      coaching clubs and the view does not; the view copies the board's name, the club
      names and the confirmation, and with a coach the coach's name, and the admin
      does not. */
  predicate CopiedByOne(q: EditRequest, f: Field) {
    || (f in {Plain(TkdBoard), CoachKey, Plain(Club), Plain(CoachingClubs)} && !IsSet(q, f))
    || f in {Plain(TkdBoardName), Plain(ClubNames), Plain(ConfirmInfo)}
    || (f == Plain(CoachName) && IsSet(q, CoachKey))
  }

  lemma CopiedByOneIff(q: EditRequest, f: Field)
    ensures CopiedByOne(q, f) <==> ViewCopies(q, f) != AdminCopies(q, f)
  {
    hide IsSet, SimpleFields, DiffFields;
    SimpleFieldsAre(f);
    DiffFieldsAre(f);
  }

  /** A concrete request that names no board, for a profile that has one: the view
      keeps the board, the admin action clears it. */
  lemma RoutesDifferOnBoard(p: Profile, q: EditRequest)
    requires p.details == map[TkdBoard := Key(Some(3))]
    requires q == EditRequest("", "", p.role, p.isCoach, p.isReferee, p.coach, map[TkdBoard := Key(None)])
    ensures ProfileValue(EditedByView(p, q), Plain(TkdBoard)) == Key(Some(3))
    ensures ProfileValue(EditedByAdmin(p, q), Plain(TkdBoard)) == Key(None)
  {
    hide EditedByView, EditedByAdmin, SimpleFields, DiffFields;
    EditedByViewValue(p, q, Plain(TkdBoard));
    EditedByAdminValue(p, q, Plain(TkdBoard));
    SimpleFieldsAre(Plain(TkdBoard));
    DiffFieldsAre(Plain(TkdBoard));
  }

  /** For every profile and every request whose board, coach, club and coaching clubs are
      empty and that has no picture: the view keeps all of them, the admin action clears
      all but the picture. */
  lemma EmptyColumns(p: Profile, q: EditRequest)
    requires q.coach.None? && EditValue(q, Plain(TkdBoard)) == EditValue(q, Plain(Club)) == Key(None)
    requires EditValue(q, Plain(CoachingClubs)) == Keys({}) && EditValue(q, Plain(ProfileImage)) == Text("")
    ensures var v, a := EditedByView(p, q), EditedByAdmin(p, q);
      && (forall f :: f in {CoachKey, Plain(TkdBoard), Plain(Club), Plain(CoachingClubs), Plain(ProfileImage), Plain(CoachName)} ==>
            ProfileValue(v, f) == ProfileValue(p, f))
      && a.coach == None && ProfileValue(a, Plain(TkdBoard)) == ProfileValue(a, Plain(Club)) == Key(None)
      && ProfileValue(a, Plain(CoachingClubs)) == Keys({})
      && ProfileValue(a, Plain(ProfileImage)) == ProfileValue(p, Plain(ProfileImage))
  {
    hide EditedByView, EditedByAdmin, SimpleFields, DiffFields;
    forall f | f in {CoachKey, Plain(TkdBoard), Plain(Club), Plain(CoachingClubs), Plain(ProfileImage), Plain(CoachName)}
      ensures ProfileValue(EditedByView(p, q), f) == ProfileValue(p, f)
    {
      EditedByViewValue(p, q, f);
      SimpleFieldsAre(f);
    }
    EditedByAdminValue(p, q, CoachKey);
    EditedByAdminValue(p, q, Plain(TkdBoard));
    EditedByAdminValue(p, q, Plain(Club));
    EditedByAdminValue(p, q, Plain(CoachingClubs));
    EditedByAdminValue(p, q, Plain(ProfileImage));
    DiffFieldsAre(CoachKey);
    DiffFieldsAre(Plain(TkdBoard));
    DiffFieldsAre(Plain(Club));
    assert ProfileValue(EditedByAdmin(p, q), CoachKey) == Key(EditedByAdmin(p, q).coach);
  }

  /** Both routes leave the same profile exactly when the request agrees with the
      profile on those columns. */
  lemma EditRoutesAgreeIff(p: Profile, q: EditRequest)
    ensures (forall f :: ProfileValue(EditedByView(p, q), f) == ProfileValue(EditedByAdmin(p, q), f))
            <==> forall f :: CopiedByOne(q, f) ==> EditValue(q, f) == ProfileValue(p, f)
  {
    hide EditedByView, EditedByAdmin, ViewCopies, AdminCopies, CopiedByOne, EditValue, ProfileValue;
    forall f
      ensures ProfileValue(EditedByView(p, q), f) == ProfileValue(EditedByAdmin(p, q), f)
              <==> (CopiedByOne(q, f) ==> EditValue(q, f) == ProfileValue(p, f))
    {
      EditedByViewValue(p, q, f);
      EditedByAdminValue(p, q, f);
      CopiedByOneIff(q, f);
    }
  }
}
