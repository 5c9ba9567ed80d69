/** What single steps of the ranking book do, told in the rows themselves: whom an
    award names, which results are accepted, which ledger rows a result leaves, and
    what a payment writes. */
module RankingFacts {
  import opened Common
  import opened Points
  import opened RankingBook
  import opened RankingLaws
  import opened RankingRuns

  // ---------- awards ----------

  /** An enrollment without an award gets exactly one row. It names the enrollment's own
      coach, else the player's; the club likewise; the enrollment's own board, else that
      of the award's club, else the player's. Whoever is named gets 1.00, 0.75, 0.50 or
      0.50. */
  lemma AwardNames(b: Book, e: Id, row: Enrollment)
    requires forall k :: 0 <= k < |b.awards| ==> b.awards[k].enrollment != e
    ensures var c := AwardPoints(b, e, row);
      && |c.awards| == |b.awards| + 1 && c.awards[..|b.awards|] == b.awards
      && var a := c.awards[|b.awards|];
         && a.enrollment == e && a.player == row.player
         && (row.coach.Some? ==> a.coach == row.coach)
         && (row.club.Some? ==> a.club == row.club)
         && (row.board.Some? ==> a.board == row.board)
         && (row.coach.None? ==> a.coach == if row.player in b.info then b.info[row.player].coach else None)
         && (row.club.None? ==> a.club == if row.player in b.info then b.info[row.player].club else None)
         && (row.board.None? && a.club.Some? && a.club.value in b.clubBoard && b.clubBoard[a.club.value].Some? ==>
               a.board == b.clubBoard[a.club.value])
         && (row.board.None? && (a.club.None? || a.club.value !in b.clubBoard || b.clubBoard[a.club.value].None?) ==>
               a.board == if row.player in b.info then b.info[row.player].board else None)
         && a.pointsPlayer == 100
         && a.pointsCoach == (if a.coach.Some? then 75 else 0)
         && a.pointsClub == (if a.club.Some? then 50 else 0)
         && a.pointsBoard == (if a.board.Some? then 50 else 0)
  {
  }

  /** What that award moves: the cached columns of those it names, nothing else. */
  lemma AwardMoves(b: Book, e: Id, row: Enrollment)
    requires forall k :: 0 <= k < |b.awards| ==> b.awards[k].enrollment != e
    ensures var c := AwardPoints(b, e, row); var a := c.awards[|b.awards|];
      && c == b.(awards := c.awards, standings := c.standings)
      && c.standings.profiles.Keys == b.standings.profiles.Keys
      && c.standings.clubs.Keys == b.standings.clubs.Keys && c.standings.boards.Keys == b.standings.boards.Keys
      && (forall i :: i in b.standings.profiles ==>
            && c.standings.profiles[i].competition == b.standings.profiles[i].competition + When(row.player == i, 100)
            && c.standings.profiles[i].total
               == b.standings.profiles[i].total + When(row.player == i, 100) + When(a.coach == Some(i), 75))
      && (forall i :: i in b.standings.clubs ==> c.standings.clubs[i] == b.standings.clubs[i] + When(a.club == Some(i), 50))
      && (forall i :: i in b.standings.boards ==> c.standings.boards[i] == b.standings.boards[i] + When(a.board == Some(i), 50))
  {
    hide AwardFor, PostingsOfAward, Credits;
    forall i ensures
      var ps := PostingsOfAward(AwardFor(b, e, row)); var a := AwardFor(b, e, row);
      && Credits(ps, ProfileCompetition(i)) == When(row.player == i, 100)
      && Credits(ps, ProfileTotal(i)) == When(row.player == i, 100) + When(a.coach == Some(i), 75)
      && Credits(ps, ClubTotal(i)) == When(a.club == Some(i), 50)
      && Credits(ps, BoardTotal(i)) == When(a.board == Some(i), 50)
    {
      AwardWorth(b, e, row, i);
    }
  }

  /** An enrollment that has its award gets nothing more. */
  lemma NoSecondAward(b: Book, e: Id, row: Enrollment, k: nat)
    requires k < |b.awards| && b.awards[k].enrollment == e
    ensures AwardPoints(b, e, row) == b
  {
  }

  // ---------- saving an enrollment ----------

  /** A save stores the row and queues a copy of it exactly when it is paid and has no
      award; an insert likewise. */
  lemma SaveQueues(b: Book, e: Id, row: Enrollment)
    ensures var asks := row.isPaid && forall k :: 0 <= k < |b.awards| ==> b.awards[k].enrollment != e;
      e < |b.enrollments| ==>
        SaveRow(b, e, row) == b.(enrollments := b.enrollments[e := row],
                                 queue := if asks then b.queue + [Callback(e, row)] else b.queue)
    ensures var n := |b.enrollments|;
      var asks := row.isPaid && forall k :: 0 <= k < |b.awards| ==> b.awards[k].enrollment != n;
      CreateEnrollment(b, row) == b.(enrollments := b.enrollments + [row],
                                     queue := if asks then b.queue + [Callback(n, row)] else b.queue)
  {
  }

  /** The callback that runs is the oldest, and it awards the row as it was queued. */
  lemma CallbackAwardsQueuedRow(b: Book)
    requires b.queue != [] && forall k :: 0 <= k < |b.awards| ==> b.awards[k].enrollment != b.queue[0].enrollment
    ensures var c := RunCallback(b); var row := b.queue[0].row;
      && c.queue == b.queue[1..] && |c.awards| == |b.awards| + 1
      && var a := c.awards[|b.awards|];
         && a.enrollment == b.queue[0].enrollment && a.player == row.player
         && (row.coach.Some? ==> a.coach == row.coach)
         && (row.club.Some? ==> a.club == row.club)
         && (row.board.Some? ==> a.board == row.board)
  {
    AwardNames(b.(queue := b.queue[1..]), b.queue[0].enrollment, b.queue[0].row);
  }

  /** `mark_paid`: the row is paid this amount, takes the reference unless it is empty,
      and becomes `paid` from blank, pending or canceled only; nothing else of it
      changes, and no other row. A paid row stays as it is. */
  lemma MarkPaidWrites(b: Book, e: Id, amount: int, ref: string)
    requires e < |b.enrollments|
    ensures var was, c := b.enrollments[e], MarkPaid(b, e, amount, ref);
      && (was.isPaid ==> c == b)
      && (!was.isPaid ==>
            && |c.enrollments| == |b.enrollments|
            && (forall k :: 0 <= k < |b.enrollments| && k != e ==> c.enrollments[k] == b.enrollments[k])
            && var now := c.enrollments[e];
               && now.isPaid && now.paidAmount == amount
               && (ref != "" ==> now.bankRefCode == ref) && (ref == "" ==> now.bankRefCode == was.bankRefCode)
               && (was.status == BlankStatus || was.status == PendingPayment || was.status == Canceled ==> now.status == Paid)
               && (was.status == Paid || was.status == Confirmed || was.status == Accepted || was.status == Completed ==>
                     now.status == was.status)
               && now.(isPaid := was.isPaid, paidAmount := was.paidAmount, bankRefCode := was.bankRefCode, status := was.status) == was)
  {
    hide AwardFor, PostingsOfAward, Shifted;
  }

  /** An intent's target: paid, `paid`, the intent's amount only for a single target and
      only over zero, the reference only over none; nothing else changes. */
  lemma SettleWrites(b: Book, e: Id, amount: Option<int>, ref: string)
    requires e < |b.enrollments|
    ensures var was, c := b.enrollments[e], SettleEnrollment(b, e, amount, ref);
      && |c.enrollments| == |b.enrollments|
      && (forall k :: 0 <= k < |b.enrollments| && k != e ==> c.enrollments[k] == b.enrollments[k])
      && var now := c.enrollments[e];
         && now.isPaid && now.status == Paid
         && (amount.Some? && was.paidAmount == 0 ==> now.paidAmount == amount.value)
         && (amount.None? || was.paidAmount != 0 ==> now.paidAmount == was.paidAmount)
         && (was.bankRefCode == "" ==> now.bankRefCode == ref) && (was.bankRefCode != "" ==> now.bankRefCode == was.bankRefCode)
         && now.(isPaid := was.isPaid, paidAmount := was.paidAmount, bankRefCode := was.bankRefCode, status := was.status) == was
  {
    hide HasAward;
  }

  /** Edits of profiles and clubs change what the next awards fall back on, and nothing
      that was awarded. */
  lemma EditsWrite(b: Book, i: Id, info: ProfileInfo, board: Option<Id>)
    ensures var c := Step(b, EditProfile(i, info));
      && c.(info := b.info) == b && InfoOf(c, i) == info && forall j :: j != i ==> InfoOf(c, j) == InfoOf(b, j)
    ensures var c := Step(b, EditClub(i, board));
      && c.(clubBoard := b.clubBoard) == b && BoardOfClub(c, Some(i)) == board
      && forall j :: j != i ==> BoardOfClub(c, Some(j)) == BoardOfClub(b, Some(j))
  {
  }

  // ---------- which results are accepted ----------

  /** A medal goes to an existing enrollment of this competition and weight. */
  predicate MedalFits(b: Book, row: ResultRow, medal: Option<Id>) {
    medal.Some? ==>
      && medal.value < |b.enrollments|
      && b.enrollments[medal.value].competition == row.competition
      && b.enrollments[medal.value].weightCategory == Some(row.weightCategory)
  }

  predicate Apart(x: Option<Id>, y: Option<Id>) {
    x.Some? && y.Some? ==> x.value != y.value
  }

  predicate MedalsFit(b: Book, row: ResultRow) {
    && MedalFits(b, row, row.gold) && MedalFits(b, row, row.silver)
    && MedalFits(b, row, row.bronze1) && MedalFits(b, row, row.bronze2)
    && Apart(row.gold, row.silver) && Apart(row.gold, row.bronze1) && Apart(row.gold, row.bronze2)
    && Apart(row.silver, row.bronze1) && Apart(row.silver, row.bronze2) && Apart(row.bronze1, row.bronze2)
  }

  /** No other result has the row's competition and weight. */
  predicate PairFree(b: Book, r: Id, row: ResultRow) {
    forall k :: 0 <= k < |b.results| && k != r ==>
      !(b.results[k].competition == row.competition && b.results[k].weightCategory == row.weightCategory)
  }

  predicate Distinct(xs: seq<Id>) {
    forall i, j :: 0 <= i < j < |xs| ==> xs[i] != xs[j]
  }

  function Listed(medal: Option<Id>): seq<Id> {
    if medal.Some? then [medal.value] else []
  }

  lemma DistinctListed(xs: seq<Id>, medal: Option<Id>)
    ensures Distinct(xs + Listed(medal)) <==> Distinct(xs) && (medal.Some? ==> medal.value !in xs)
    ensures forall x :: x in xs + Listed(medal) <==> x in xs || medal == Some(x)
  {
    var all := xs + Listed(medal);
    assert medal.None? ==> all == xs;
    assert forall i :: 0 <= i < |xs| ==> all[i] == xs[i];
    assert medal.Some? ==> all[|xs|] == medal.value;
  }

  lemma ChosenMedals(b: Book, row: ResultRow)
    ensures MedalsFit(b, row) <==>
            && Distinct(Chosen(row))
            && (forall i :: 0 <= i < |Chosen(row)| ==>
                  && Chosen(row)[i] < |b.enrollments|
                  && b.enrollments[Chosen(row)[i]].competition == row.competition
                  && b.enrollments[Chosen(row)[i]].weightCategory == Some(row.weightCategory))
  {
    hide Distinct, Listed;
    var g := [] + Listed(row.gold);
    var s := g + Listed(row.silver);
    var p := s + Listed(row.bronze1);
    var all := p + Listed(row.bronze2);
    assert all == Chosen(row) by { ChosenIs(row); }
    assert Distinct([]) by { NoneTwice(); }
    DistinctListed([], row.gold);
    DistinctListed(g, row.silver);
    DistinctListed(s, row.bronze1);
    DistinctListed(p, row.bronze2);
    ChosenFit(b, row);
  }

  lemma NoneTwice()
    ensures Distinct([])
  {
  }

  lemma ChosenIs(row: ResultRow)
    ensures Chosen(row) == [] + Listed(row.gold) + Listed(row.silver) + Listed(row.bronze1) + Listed(row.bronze2)
  {
    assert [] + Listed(row.gold) == Listed(row.gold);
  }

  lemma ChosenFit(b: Book, row: ResultRow)
    requires forall x :: x in Chosen(row) <==> row.gold == Some(x) || row.silver == Some(x) || row.bronze1 == Some(x) || row.bronze2 == Some(x)
    ensures (forall i :: 0 <= i < |Chosen(row)| ==> MedalFits(b, row, Some(Chosen(row)[i])))
            <==> MedalFits(b, row, row.gold) && MedalFits(b, row, row.silver) && MedalFits(b, row, row.bronze1) && MedalFits(b, row, row.bronze2)
  {
    hide Chosen;
    assert (forall i :: 0 <= i < |Chosen(row)| ==> MedalFits(b, row, Some(Chosen(row)[i])))
      <==> (forall x :: x in Chosen(row) ==> MedalFits(b, row, Some(x)));
    if forall x :: x in Chosen(row) ==> MedalFits(b, row, Some(x)) {
      assert row.gold.Some? ==> row.gold.value in Chosen(row);
      assert row.silver.Some? ==> row.silver.value in Chosen(row);
      assert row.bronze1.Some? ==> row.bronze1.value in Chosen(row);
      assert row.bronze2.Some? ==> row.bronze2.value in Chosen(row);
    }
  }

  /** A save, of a new result or of a stored one, is accepted exactly when its medals
      are distinct existing enrollments of its competition and weight and no other
      result has that pair; then the row is stored and no other changes. A refused save
      changes nothing. */
  lemma SaveAcceptedIff(b: Book, r: Id, row: ResultRow)
    requires r <= |b.results|
    ensures var c := SaveResult(b, r, row);
      && (MedalsFit(b, row) && PairFree(b, r, row) ==>
            && c.results == (if r < |b.results| then b.results[r := row] else b.results + [row])
            && c == b.(results := c.results, ledger := c.ledger, standings := c.standings))
      && (!(MedalsFit(b, row) && PairFree(b, r, row)) ==> c == b)
  {
    hide Shifted, RowsOfSnapshot, SnapshotOf, RowsOf, Without, Postings, Negated, Chosen;
    ChosenMedals(b, row);
  }

  /** The tables allow at most one result for a competition and weight, in every state
      of every run. */
  ghost predicate PairsUnique(b: Book) {
    forall j, k :: 0 <= j < k < |b.results| ==>
      !(b.results[j].competition == b.results[k].competition && b.results[j].weightCategory == b.results[k].weightCategory)
  }

  lemma SaveKeepsPairs(b: Book, r: Id, row: ResultRow)
    requires PairsUnique(b)
    ensures PairsUnique(SaveResult(b, r, row))
  {
    hide SaveResult, MedalsFit;
    if r <= |b.results| {
      SaveAcceptedIff(b, r, row);
    } else {
      assert SaveResult(b, r, row) == b by { BeyondTable(b, r, row); }
    }
  }

  lemma BeyondTable(b: Book, r: Id, row: ResultRow)
    requires r > |b.results|
    ensures SaveResult(b, r, row) == b
  {
  }

  lemma OtherStepsKeepResults(b: Book, ev: Event)
    requires !ev.SaveMedals?
    ensures Step(b, ev).results == b.results
  {
    hide HasAward, AwardFor, Shifted;
  }

  lemma {:induction false} ResultPairsStayUnique(b0: Book, evs: seq<Event>)
    requires PairsUnique(b0)
    ensures PairsUnique(Run(b0, evs))
  {
    hide Step;
    if evs != [] {
      var b, ev := Run(b0, evs[..|evs| - 1]), evs[|evs| - 1];
      ResultPairsStayUnique(b0, evs[..|evs| - 1]);
      match ev {
        case SaveMedals(r, row) =>
          SaveKeepsPairs(b, r, row);
          assert Step(b, ev) == SaveResult(b, r, row) by { SaveMedalsStep(b, r, row); }
        case _ => OtherStepsKeepResults(b, ev);
      }
    }
  }

  lemma SaveMedalsStep(b: Book, r: Id, row: ResultRow)
    ensures Step(b, SaveMedals(r, row)) == SaveResult(b, r, row)
  {
  }

  // ---------- the ledger rows of a result ----------

  /** A ledger row that one medal gives: to the player, and to the coach, club and board
      the enrollment has at that moment. */
  predicate RowOfMedal(b: Book, holder: Option<Id>, medal: Medal, player: int, coach: int, organisation: int, t: Transaction) {
    && holder.Some? && holder.value < |b.enrollments| && t.medal == medal
    && var en := b.enrollments[holder.value];
       || t.posting == Posting(PlayerRole, en.player, player)
       || (en.coach.Some? && t.posting == Posting(CoachRole, en.coach.value, coach))
       || (en.club.Some? && t.posting == Posting(ClubRole, en.club.value, organisation))
       || (en.board.Some? && t.posting == Posting(BoardRole, en.board.value, organisation))
  }

  /** A row that a result leaves: gold gives 3.00, 0.90 and 0.60, silver 2.00, 0.60 and
      0.40, either bronze 1.00, 0.30 and 0.20. */
  predicate RowOfResult(b: Book, r: Id, row: ResultRow, t: Transaction) {
    && t.result == r && t.competition == row.competition
    && (|| RowOfMedal(b, row.gold, Gold, 300, 90, 60, t)
        || RowOfMedal(b, row.silver, Silver, 200, 60, 40, t)
        || RowOfMedal(b, row.bronze1, Bronze, 100, 30, 20, t)
        || RowOfMedal(b, row.bronze2, Bronze, 100, 30, 20, t))
  }

  lemma {:induction false} RowsOfHolds(txs: seq<Transaction>, r: Id, t: Transaction)
    ensures t in RowsOf(txs, r) <==> t in txs && t.result == r
    ensures t in Without(txs, r) <==> t in txs && t.result != r
  {
    if txs != [] {
      RowsOfHolds(txs[..|txs| - 1], r, t);
      assert txs == txs[..|txs| - 1] + [txs[|txs| - 1]];
    }
  }

  /** The rows one slot gives. */
  predicate InSlot(r: Id, comp: Id, slot: MedalSlot, enrollments: seq<Enrollment>, t: Transaction) {
    PlaceOf(slot, enrollments) != [] && t in RowsOfPlace(r, comp, PlaceOf(slot, enrollments)[0])
  }

  predicate InSomeSlot(r: Id, comp: Id, slots: seq<MedalSlot>, enrollments: seq<Enrollment>, t: Transaction) {
    exists k :: 0 <= k < |slots| && InSlot(r, comp, slots[k], enrollments, t)
  }

  lemma InLastSlot(r: Id, comp: Id, slots: seq<MedalSlot>, enrollments: seq<Enrollment>, t: Transaction)
    requires slots != []
    ensures InSomeSlot(r, comp, slots, enrollments, t) <==>
            InSomeSlot(r, comp, slots[..|slots| - 1], enrollments, t) || InSlot(r, comp, slots[|slots| - 1], enrollments, t)
  {
    hide InSlot;
    if InSomeSlot(r, comp, slots[..|slots| - 1], enrollments, t) {
      var k :| 0 <= k < |slots| - 1 && InSlot(r, comp, slots[..|slots| - 1][k], enrollments, t);
      assert InSlot(r, comp, slots[k], enrollments, t);
    }
    if k :| 0 <= k < |slots| && InSlot(r, comp, slots[k], enrollments, t) {
      assert k < |slots| - 1 ==> InSlot(r, comp, slots[..|slots| - 1][k], enrollments, t);
    }
  }

  lemma RowsOfSlot(r: Id, comp: Id, slot: MedalSlot, enrollments: seq<Enrollment>, t: Transaction)
    ensures t in RowsOfPlaces(r, comp, PlaceOf(slot, enrollments)) <==> InSlot(r, comp, slot, enrollments, t)
  {
    hide RowsOfPlace;
    var here := PlaceOf(slot, enrollments);
    if here != [] {
      assert here[..0] == [] && RowsOfPlaces(r, comp, here) == [] + RowsOfPlace(r, comp, here[0]);
    }
  }

  lemma {:induction false} RowsAreOfSlots(r: Id, comp: Id, slots: seq<MedalSlot>, enrollments: seq<Enrollment>, t: Transaction)
    ensures t in RowsOfPlaces(r, comp, PlacesOf(slots, enrollments)) <==> InSomeSlot(r, comp, slots, enrollments, t)
  {
    hide RowsOfPlaces, PlaceOf, InSlot, InSomeSlot;
    if slots == [] {
      NoSlotNoRow(r, comp, enrollments, t);
    } else {
      var init, last := slots[..|slots| - 1], slots[|slots| - 1];
      RowsAreOfSlots(r, comp, init, enrollments, t);
      InLastSlot(r, comp, slots, enrollments, t);
      RowsOfSlot(r, comp, last, enrollments, t);
      AtMostOnePlace(last, enrollments);
      RowsOfPlacesAppend(r, comp, PlacesOf(init, enrollments), PlaceOf(last, enrollments));
    }
  }

  lemma NoSlotNoRow(r: Id, comp: Id, enrollments: seq<Enrollment>, t: Transaction)
    ensures RowsOfPlaces(r, comp, PlacesOf([], enrollments)) == [] && !InSomeSlot(r, comp, [], enrollments, t)
  {
  }

  lemma AtMostOnePlace(slot: MedalSlot, enrollments: seq<Enrollment>)
    ensures |PlaceOf(slot, enrollments)| <= 1
  {
  }

  lemma SlotIsMedal(b: Book, r: Id, row: ResultRow, slot: MedalSlot, t: Transaction)
    requires slot.points in {300, 200, 100}
    ensures InSlot(r, row.competition, slot, b.enrollments, t) <==>
            && t.result == r && t.competition == row.competition
            && RowOfMedal(b, slot.enrollment, slot.medal, slot.points, slot.points * 3 / 10, slot.points / 5, t)
  {
  }

  /** After an accepted save the ledger rows of the result are exactly its medals' rows,
      and the rows of every other result are what they were. */
  lemma SavedLedger(b: Book, r: Id, row: ResultRow, t: Transaction)
    requires r <= |b.results| && MedalsFit(b, row) && PairFree(b, r, row)
    ensures t in SaveResult(b, r, row).ledger <==>
            if t.result == r then RowOfResult(b, r, row, t) else t in b.ledger
  {
    hide Shifted, RowOfMedal, InSlot, SaveResult, RowsOf, Without, PlacesOf, RowsOfPlaces;
    ChosenMedals(b, row);
    SavedRows(b, r, row);
    var after := SaveResult(b, r, row).ledger;
    var slots := MedalMap(row);
    RowsAreOfSlots(r, row.competition, slots, b.enrollments, t);
    SlotIsMedal(b, r, row, slots[0], t);
    SlotIsMedal(b, r, row, slots[1], t);
    SlotIsMedal(b, r, row, slots[2], t);
    SlotIsMedal(b, r, row, slots[3], t);
    RowsOfHolds(after, r, t);
    RowsOfHolds(b.ledger, r, t);
  }
}
