/** The ranking book as a value: enrollments, the once-per-enrollment awards, the
    medal ledger, the cached standings, and the callbacks waiting for commit.
    Each function below is one step of competitions/models.py. */
module RankingBook {
  import opened Common
  import opened Points

  // ---------- rows ----------

  datatype Status = BlankStatus | PendingPayment | Paid | Confirmed | Accepted | Completed | Canceled

  datatype Enrollment = Enrollment(
    competition: Id,
    player: Id,
    coach: Option<Id>,
    coachName: string,
    club: Option<Id>,
    clubName: string,
    board: Option<Id>,
    boardName: string,
    beltGroup: Option<Id>,
    weightCategory: Option<Id>,
    declaredWeight: real,
    insuranceNumber: string,
    insuranceIssueDate: string,
    discountCode: Option<string>,
    discountAmount: nat,
    payableAmount: int,
    status: Status,
    isPaid: bool,
    paidAmount: int,
    bankRefCode: string)

  /** What the award step falls back on: a profile's own coach, club and board. */
  datatype ProfileInfo = ProfileInfo(name: string, coach: Option<Id>, club: Option<Id>, board: Option<Id>)

  datatype Award = Award(
    enrollment: Id,
    player: Id,
    coach: Option<Id>,
    club: Option<Id>,
    board: Option<Id>,
    pointsPlayer: int,
    pointsCoach: int,
    pointsClub: int,
    pointsBoard: int)

  datatype Medal = Gold | Silver | Bronze

  /** A `RankingTransaction` row. */
  datatype Transaction = Transaction(result: Id, competition: Id, medal: Medal, posting: Posting)

  /** A `KyorugiResult` row: the medal places of one weight category. */
  datatype ResultRow = ResultRow(
    competition: Id,
    weightCategory: Id,
    gold: Option<Id>,
    silver: Option<Id>,
    bronze1: Option<Id>,
    bronze2: Option<Id>)

  /** An award request queued until commit; it holds the row as it was saved. */
  datatype Callback = Callback(enrollment: Id, row: Enrollment)

  datatype Book = Book(
    standings: Standings,
    info: map<Id, ProfileInfo>,
    clubBoard: map<Id, Option<Id>>,
    enrollments: seq<Enrollment>,
    awards: seq<Award>,
    ledger: seq<Transaction>,
    results: seq<ResultRow>,
    queue: seq<Callback>)

  // ---------- awards for a paid enrollment ----------

  function InfoOf(b: Book, player: Id): ProfileInfo {
    if player in b.info then b.info[player] else ProfileInfo("", None, None, None)
  }

  function OrElse<T>(x: Option<T>, y: Option<T>): Option<T> {
    if x.Some? then x else y
  }

  function BoardOfClub(b: Book, club: Option<Id>): Option<Id> {
    if club.Some? && club.value in b.clubBoard then b.clubBoard[club.value] else None
  }

  /** The award row for an enrollment: its own coach, club and board, else the
      player's; a board is also looked for at the club. */
  function AwardFor(b: Book, e: Id, row: Enrollment): Award {
    var info := InfoOf(b, row.player);
    var coach := OrElse(row.coach, info.coach);
    var club := OrElse(row.club, info.club);
    var board := OrElse(row.board, OrElse(BoardOfClub(b, club), info.board));
    Award(e, row.player, coach, club, board,
          100,
          if coach.Some? then 75 else 0,
          if club.Some? then 50 else 0,
          if board.Some? then 50 else 0)
  }

  function PostingTo(role: Role, subject: Option<Id>, points: int): seq<Posting> {
    if subject.Some? then [Posting(role, subject.value, points)] else []
  }

  function PostingsOfAward(a: Award): seq<Posting> {
    [Posting(PlayerRole, a.player, a.pointsPlayer)]
    + PostingTo(CoachRole, a.coach, a.pointsCoach)
    + PostingTo(ClubRole, a.club, a.pointsClub)
    + PostingTo(BoardRole, a.board, a.pointsBoard)
  }

  function PostingsOfAwards(aws: seq<Award>): seq<Posting> {
    if aws == [] then [] else PostingsOfAwards(aws[..|aws| - 1]) + PostingsOfAward(aws[|aws| - 1])
  }

  predicate HasAward(b: Book, e: Id) {
    exists k :: 0 <= k < |b.awards| && b.awards[k].enrollment == e
  }

  /** `_award_points_after_payment`: an award row is made, and points given, only
      when the enrollment has none. */
  function AwardPoints(b: Book, e: Id, row: Enrollment): Book {
    if HasAward(b, e) then b else
      var a := AwardFor(b, e, row);
      b.(awards := b.awards + [a], standings := Shifted(b.standings, PostingsOfAward(a)))
  }

  /** The post-save hook: a paid row without an award asks for one after commit. */
  function AfterSave(b: Book, e: Id): Book {
    if e < |b.enrollments| && b.enrollments[e].isPaid && !HasAward(b, e)
    then b.(queue := b.queue + [Callback(e, b.enrollments[e])])
    else b
  }

  function SaveRow(b: Book, e: Id, row: Enrollment): Book
    requires e < |b.enrollments|
  {
    AfterSave(b.(enrollments := b.enrollments[e := row]), e)
  }

  /** Inserting an enrollment; its id is its position in the table. */
  function CreateEnrollment(b: Book, row: Enrollment): Book {
    AfterSave(b.(enrollments := b.enrollments + [row]), |b.enrollments|)
  }

  function PaidRow(row: Enrollment, amount: int, ref: string): Enrollment {
    row.(isPaid := true,
         paidAmount := amount,
         bankRefCode := if ref != "" then ref else row.bankRefCode,
         status := if row.status in {PendingPayment, Canceled, BlankStatus} then Paid else row.status)
  }

  /** `Enrollment.mark_paid`: save, then award directly. */
  function MarkPaid(b: Book, e: Id, amount: int, ref: string): Book {
    if e >= |b.enrollments| || b.enrollments[e].isPaid then b else
      var row := PaidRow(b.enrollments[e], amount, ref);
      AwardPoints(SaveRow(b, e, row), e, row)
  }

  /** The row as `PaymentIntent` leaves it; an amount is written only for a single
      target, and only over zero. */
  function SettledRow(row: Enrollment, amount: Option<int>, ref: string): Enrollment {
    row.(isPaid := true,
         paidAmount := if amount.Some? && row.paidAmount == 0 then amount.value else row.paidAmount,
         status := Paid,
         bankRefCode := if row.bankRefCode == "" then ref else row.bankRefCode)
  }

  predicate SettleChanges(row: Enrollment, amount: Option<int>) {
    !row.isPaid || (amount.Some? && row.paidAmount == 0) || row.status != Paid || row.bankRefCode == ""
  }

  /** `_mark_enrollment_paid` inside `PaymentIntent._apply_success_to_targets`. */
  function SettleEnrollment(b: Book, e: Id, amount: Option<int>, ref: string): Book {
    if e >= |b.enrollments| || !SettleChanges(b.enrollments[e], amount) then b
    else SaveRow(b, e, SettledRow(b.enrollments[e], amount, ref))
  }

  /** One queued callback runs after commit, first queued first. */
  function RunCallback(b: Book): Book {
    if b.queue == [] then b
    else AwardPoints(b.(queue := b.queue[1..]), b.queue[0].enrollment, b.queue[0].row)
  }

  /** Commit: the whole queue runs. */
  function Commit(b: Book): (r: Book)
    ensures r.queue == []
    decreases |b.queue|
  {
    if b.queue == [] then b else Commit(RunCallback(b))
  }

  // ---------- the medal ledger ----------

  datatype Place = Place(medal: Medal, points: int, player: Id, coach: Option<Id>, club: Option<Id>, board: Option<Id>)

  /** What a saved result says about points: who held which place, with which
      coach, club and board at that moment. */
  datatype Snapshot = Snapshot(competition: Id, places: seq<Place>)

  datatype MedalSlot = MedalSlot(medal: Medal, points: int, enrollment: Option<Id>)

  function MedalMap(row: ResultRow): (slots: seq<MedalSlot>)
    ensures |slots| == 4
  {
    [MedalSlot(Gold, 300, row.gold), MedalSlot(Silver, 200, row.silver),
     MedalSlot(Bronze, 100, row.bronze1), MedalSlot(Bronze, 100, row.bronze2)]
  }

  function PlaceOf(slot: MedalSlot, enrollments: seq<Enrollment>): seq<Place> {
    if slot.enrollment.Some? && slot.enrollment.value < |enrollments| then
      var en := enrollments[slot.enrollment.value];
      [Place(slot.medal, slot.points, en.player, en.coach, en.club, en.board)]
    else []
  }

  function PlacesOf(slots: seq<MedalSlot>, enrollments: seq<Enrollment>): seq<Place> {
    if slots == [] then []
    else PlacesOf(slots[..|slots| - 1], enrollments) + PlaceOf(slots[|slots| - 1], enrollments)
  }

  function SnapshotOf(row: ResultRow, enrollments: seq<Enrollment>): Snapshot {
    Snapshot(row.competition, PlacesOf(MedalMap(row), enrollments))
  }

  function CoachShare(points: int): int { points * 30 / 100 }

  function OrganisationShare(points: int): int { points * 20 / 100 }

  function LedgerEntry(r: Id, comp: Id, medal: Medal, role: Role, subject: Option<Id>, points: int): seq<Transaction> {
    if subject.Some? && points != 0 then [Transaction(r, comp, medal, Posting(role, subject.value, points))] else []
  }

  function RowsOfPlace(r: Id, comp: Id, p: Place): seq<Transaction> {
    [Transaction(r, comp, p.medal, Posting(PlayerRole, p.player, p.points))]
    + LedgerEntry(r, comp, p.medal, CoachRole, p.coach, CoachShare(p.points))
    + LedgerEntry(r, comp, p.medal, ClubRole, p.club, OrganisationShare(p.points))
    + LedgerEntry(r, comp, p.medal, BoardRole, p.board, OrganisationShare(p.points))
  }

  function RowsOfPlaces(r: Id, comp: Id, places: seq<Place>): seq<Transaction> {
    if places == [] then []
    else RowsOfPlaces(r, comp, places[..|places| - 1]) + RowsOfPlace(r, comp, places[|places| - 1])
  }

  function RowsOfSnapshot(r: Id, s: Snapshot): seq<Transaction> {
    RowsOfPlaces(r, s.competition, s.places)
  }

  function Postings(txs: seq<Transaction>): (ps: seq<Posting>)
    ensures |ps| == |txs|
  {
    if txs == [] then [] else Postings(txs[..|txs| - 1]) + [txs[|txs| - 1].posting]
  }

  /** The ledger rows of one result, in table order. */
  function RowsOf(txs: seq<Transaction>, r: Id): seq<Transaction> {
    if txs == [] then [] else
      var last := txs[|txs| - 1];
      RowsOf(txs[..|txs| - 1], r) + (if last.result == r then [last] else [])
  }

  /** The ledger without the rows of one result. */
  function Without(txs: seq<Transaction>, r: Id): seq<Transaction> {
    if txs == [] then [] else
      var last := txs[|txs| - 1];
      Without(txs[..|txs| - 1], r) + (if last.result != r then [last] else [])
  }

  /** `_rollback_result_points` */
  function RollBack(b: Book, r: Id): Book {
    b.(standings := Shifted(b.standings, Negated(Postings(RowsOf(b.ledger, r)))),
       ledger := Without(b.ledger, r))
  }

  /** `_apply_result_points` */
  function Apply(b: Book, r: Id, row: ResultRow): Book {
    var rows := RowsOfSnapshot(r, SnapshotOf(row, b.enrollments));
    b.(standings := Shifted(b.standings, Postings(rows)), ledger := b.ledger + rows)
  }

  // ---------- saving a result ----------

  function Chosen(row: ResultRow): seq<Id> {
    (if row.gold.Some? then [row.gold.value] else [])
    + (if row.silver.Some? then [row.silver.value] else [])
    + (if row.bronze1.Some? then [row.bronze1.value] else [])
    + (if row.bronze2.Some? then [row.bronze2.value] else [])
  }

  /** `KyorugiResult.clean`, the foreign keys and the unique pair: what
      `full_clean` accepts. */
  predicate CleanResult(b: Book, r: Id, row: ResultRow) {
    && r <= |b.results|
    && (forall i, j :: 0 <= i < j < |Chosen(row)| ==> Chosen(row)[i] != Chosen(row)[j])
    && (forall i :: 0 <= i < |Chosen(row)| ==>
          && Chosen(row)[i] < |b.enrollments|
          && b.enrollments[Chosen(row)[i]].competition == row.competition
          && b.enrollments[Chosen(row)[i]].weightCategory == Some(row.weightCategory))
    && (forall k :: 0 <= k < |b.results| && k != r ==>
          b.results[k].competition != row.competition || b.results[k].weightCategory != row.weightCategory)
  }

  function PutResult(b: Book, r: Id, row: ResultRow): Book
    requires r <= |b.results|
  {
    b.(results := if r == |b.results| then b.results + [row] else b.results[r := row])
  }

  /** `KyorugiResult.save`: an invalid row changes nothing; a valid one is stored,
      its old points rolled back and the new ones applied. */
  function SaveResult(b: Book, r: Id, row: ResultRow): Book {
    if CleanResult(b, r, row) then Apply(RollBack(PutResult(b, r, row), r), r, row) else b
  }
}
