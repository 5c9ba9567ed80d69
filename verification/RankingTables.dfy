/** The ranking tables as the program updates them: rows changed in place, ledger
    rows rolled back and re-applied in loops. Every method is tied to the step of
    the book it carries out. */
module RankingTables {
  import opened Common
  import opened Points
  import opened RankingBook
  import opened RankingLaws

  class RankingDb {
    var profiles: map<Id, Standing>
    var clubs: map<Id, int>
    var boards: map<Id, int>
    var info: map<Id, ProfileInfo>
    var clubBoard: map<Id, Option<Id>>
    var enrollments: seq<Enrollment>
    var awards: seq<Award>
    var ledger: seq<Transaction>
    var results: seq<ResultRow>
    var queue: seq<Callback>

    /** The tables together. */
    function TheBook(): Book
      reads this
    {
      Book(Standings(profiles, clubs, boards), info, clubBoard, enrollments, awards, ledger, results, queue)
    }

    constructor (b: Book)
      ensures TheBook() == b
    {
      profiles, clubs, boards := b.standings.profiles, b.standings.clubs, b.standings.boards;
      info, clubBoard := b.info, b.clubBoard;
      enrollments, awards, ledger, results, queue := b.enrollments, b.awards, b.ledger, b.results, b.queue;
    }

    /** Back to a savepoint: what leaving `transaction.atomic` by an exception does. */
    method Restore(b: Book)
      modifies this
      ensures TheBook() == b
    {
      profiles, clubs, boards := b.standings.profiles, b.standings.clubs, b.standings.boards;
      info, clubBoard := b.info, b.clubBoard;
      enrollments, awards, ledger, results, queue := b.enrollments, b.awards, b.ledger, b.results, b.queue;
    }

    // ---------- one update statement ----------

    /** `filter(pk=...).update(... + points)` on the row a role lives in; a missing
        row is not updated. */
    method AddPoints(role: Role, pk: Id, points: int)
      modifies this`profiles, this`clubs, this`boards
      ensures TheBook() == old(TheBook()).(standings := Shifted(old(TheBook()).standings, [Posting(role, pk, points)]))
    {
      OneUpdate(TheBook().standings, Posting(role, pk, points));
      match role {
        case PlayerRole =>
          if pk in profiles {
            profiles := profiles[pk := Standing(profiles[pk].competition + points, profiles[pk].total + points)];
          }
        case CoachRole =>
          if pk in profiles {
            profiles := profiles[pk := profiles[pk].(total := profiles[pk].total + points)];
          }
        case ClubRole =>
          if pk in clubs { clubs := clubs[pk := clubs[pk] + points]; }
        case BoardRole =>
          if pk in boards { boards := boards[pk := boards[pk] + points]; }
      }
    }

    // ---------- awards ----------

    /** `_award_points_after_payment` */
    method AwardPointsAfterPayment(e: Id, row: Enrollment)
      modifies this
      ensures TheBook() == AwardPoints(old(TheBook()), e, row)
    {
      if HasAward(TheBook(), e) {
        return;
      }
      ghost var start := TheBook().standings;
      var award := AwardFor(TheBook(), e, row);
      awards := awards + [award];
      AddPoints(PlayerRole, award.player, award.pointsPlayer);
      ghost var done := [Posting(PlayerRole, award.player, award.pointsPlayer)];
      if award.coach.Some? {
        AddPoints(CoachRole, award.coach.value, award.pointsCoach);
      }
      done := Extend(start, done, CoachRole, award.coach, award.pointsCoach);
      if award.club.Some? {
        AddPoints(ClubRole, award.club.value, award.pointsClub);
      }
      done := Extend(start, done, ClubRole, award.club, award.pointsClub);
      if award.board.Some? {
        AddPoints(BoardRole, award.board.value, award.pointsBoard);
      }
      done := Extend(start, done, BoardRole, award.board, award.pointsBoard);
      assert done == PostingsOfAward(award);
    }

    /** `award_on_manual_paid`, run after every save of an enrollment. */
    method AwardOnManualPaid(e: Id)
      requires e < |enrollments|
      modifies this`queue
      ensures TheBook() == AfterSave(old(TheBook()), e)
    {
      if enrollments[e].isPaid && !HasAward(TheBook(), e) {
        queue := queue + [Callback(e, enrollments[e])];
      }
    }

    method SaveEnrollment(e: Id, row: Enrollment)
      requires e < |enrollments|
      modifies this
      ensures TheBook() == SaveRow(old(TheBook()), e, row)
    {
      enrollments := enrollments[e := row];
      AwardOnManualPaid(e);
    }

    method Create(row: Enrollment) returns (e: Id)
      modifies this
      ensures e == old(|enrollments|)
      ensures TheBook() == CreateEnrollment(old(TheBook()), row)
    {
      e := |enrollments|;
      enrollments := enrollments + [row];
      AwardOnManualPaid(e);
    }

    /** `Enrollment.mark_paid` */
    method MarkEnrollmentPaid(e: Id, amount: int, ref: string)
      requires e < |enrollments|
      modifies this
      ensures TheBook() == MarkPaid(old(TheBook()), e, amount, ref)
    {
      var current := enrollments[e];
      if current.isPaid {
        return;
      }
      current := current.(isPaid := true, paidAmount := amount);
      if ref != "" {
        current := current.(bankRefCode := ref);
      }
      if current.status in {PendingPayment, Canceled, BlankStatus} {
        current := current.(status := Paid);
      }
      assert current == PaidRow(enrollments[e], amount, ref);
      SaveEnrollment(e, current);
      AwardPointsAfterPayment(e, current);
    }

    /** `_mark_enrollment_paid` of a payment intent's target. */
    method SettleTargetRow(e: Id, amount: Option<int>, ref: string)
      requires e < |enrollments|
      modifies this
      ensures TheBook() == SettleEnrollment(old(TheBook()), e, amount, ref)
    {
      var row, changed := enrollments[e], false;
      if !row.isPaid {
        row, changed := row.(isPaid := true), true;
      }
      if amount.Some? && row.paidAmount == 0 {
        row, changed := row.(paidAmount := amount.value), true;
      }
      if row.status != Paid {
        row, changed := row.(status := Paid), true;
      }
      if row.bankRefCode == "" {
        row, changed := row.(bankRefCode := ref), true;
      }
      if changed {
        SaveEnrollment(e, row);
      }
    }

    /** Commit runs the queued callbacks in the order they were queued. */
    method RunCommitQueue()
      modifies this
      ensures TheBook() == Commit(old(TheBook()))
    {
      while queue != []
        invariant Commit(TheBook()) == Commit(old(TheBook()))
        decreases |queue|
      {
        var c := queue[0];
        queue := queue[1..];
        ghost var rest := queue;
        AwardPointsAfterPayment(c.enrollment, c.row);
        assert queue == rest;
      }
    }

    // ---------- the medal ledger ----------

    /** One turn of the rollback loop: a row worth nothing is skipped. */
    method SubtractPoints(p: Posting)
      modifies this`profiles, this`clubs, this`boards
      ensures TheBook() == old(TheBook()).(
        standings := Shifted(old(TheBook()).standings, [p.(points := -p.points)]))
    {
      if p.points == 0 {
        ShiftedByZero(TheBook().standings, p.(points := -p.points));
        return;
      }
      AddPoints(p.role, p.subject, -p.points);
    }

    /** `_rollback_result_points` */
    method RollbackResultPoints(r: Id)
      modifies this
      ensures TheBook() == RollBack(old(TheBook()), r)
    {
      hide Shifted, Negated, Postings, Without;
      ghost var before := TheBook();
      var txs := RowsOf(ledger, r);
      if txs == [] {
        RollBackNothing(before, r);
        return;
      }
      var k := 0;
      ghost var back: seq<Posting> := [];
      ShiftedNothing(before.standings);
      while k < |txs|
        invariant 0 <= k <= |txs|
        invariant back == Negated(Postings(txs[..k]))
        invariant TheBook() == before.(standings := Shifted(before.standings, back))
      {
        var p := txs[k].posting;
        NegatedSnoc(txs, k);
        ShiftedTwice(before.standings, back, [p.(points := -p.points)]);
        back := back + [p.(points := -p.points)];
        SubtractPoints(p);
        k := k + 1;
      }
      assert txs[..k] == txs;
      ledger := Without(ledger, r);
    }

    /** `_apply_result_points` */
    method ApplyResultPoints(r: Id, row: ResultRow)
      modifies this
      ensures TheBook() == Apply(old(TheBook()), r, row)
    {
      hide Shifted, PlacesOf, RowsOfPlaces;
      ghost var before := TheBook();
      var slots := MedalMap(row);
      var txBulk: seq<Transaction> := [];
      var k := 0;
      NoSlots(r, row.competition, slots, enrollments);
      ShiftedNothing(before.standings);
      while k < |slots|
        invariant 0 <= k <= |slots|
        invariant txBulk == RowsOfPlaces(r, row.competition, PlacesOf(slots[..k], before.enrollments))
        invariant TheBook() == before.(standings := Shifted(before.standings, Postings(txBulk)))
      {
        NextSlot(r, row.competition, slots, k, before.enrollments);
        var slot := slots[k];
        if slot.enrollment.Some? && slot.enrollment.value < |enrollments| {
          var en := enrollments[slot.enrollment.value];
          var place := Place(slot.medal, slot.points, en.player, en.coach, en.club, en.board);
          txBulk := ApplyPlace(r, row.competition, place, before.standings, txBulk);
        }
        k := k + 1;
      }
      assert slots[..k] == slots;
      ledger := ledger + txBulk;
    }

    /** One turn of the loop over `medal_map`: four ledger rows at most, and the
        update statements for the same four subjects. */
    method ApplyPlace(r: Id, comp: Id, place: Place, ghost start: Standings, bulk: seq<Transaction>)
      returns (txBulk: seq<Transaction>)
      requires place.points != 0
      requires TheBook().standings == Shifted(start, Postings(bulk))
      modifies this`profiles, this`clubs, this`boards
      ensures txBulk == bulk + RowsOfPlace(r, comp, place)
      ensures TheBook() == old(TheBook()).(standings := Shifted(start, Postings(txBulk)))
    {
      hide Shifted, Postings, CoachShare, OrganisationShare;
      var coachPoints := CoachShare(place.points);
      var clubPoints := OrganisationShare(place.points);
      var boardPoints := OrganisationShare(place.points);
      txBulk := AddEntry(r, comp, place.medal, PlayerRole, Some(place.player), place.points, start, bulk);
      txBulk := AddEntry(r, comp, place.medal, CoachRole, place.coach, coachPoints, start, txBulk);
      txBulk := AddEntry(r, comp, place.medal, ClubRole, place.club, clubPoints, start, txBulk);
      txBulk := AddEntry(r, comp, place.medal, BoardRole, place.board, boardPoints, start, txBulk);
    }

    method AddEntry(r: Id, comp: Id, medal: Medal, role: Role, subject: Option<Id>, points: int,
                    ghost start: Standings, bulk: seq<Transaction>)
      returns (txBulk: seq<Transaction>)
      requires TheBook().standings == Shifted(start, Postings(bulk))
      modifies this`profiles, this`clubs, this`boards
      ensures txBulk == bulk + LedgerEntry(r, comp, medal, role, subject, points)
      ensures TheBook() == old(TheBook()).(standings := Shifted(start, Postings(txBulk)))
    {
      txBulk := bulk;
      if subject.Some? && points != 0 {
        var p := Posting(role, subject.value, points);
        txBulk := txBulk + [Transaction(r, comp, medal, p)];
        AddPoints(role, subject.value, points);
        assert txBulk[..|txBulk| - 1] == bulk;
        ShiftedTwice(start, Postings(bulk), [p]);
      }
    }

    /** `KyorugiResult.save` on row `r` (a new row when `r` is the next id). */
    method SaveKyorugiResult(r: Id, row: ResultRow) returns (accepted: bool)
      modifies this
      ensures accepted == CleanResult(old(TheBook()), r, row)
      ensures TheBook() == SaveResult(old(TheBook()), r, row)
    {
      accepted := CleanResult(TheBook(), r, row);
      if accepted {
        results := if r == |results| then results + [row] else results[r := row];
        RollbackResultPoints(r);
        ApplyResultPoints(r, row);
      }
    }
  }

  // ---------- the rows of a result, slot by slot ----------

  lemma NoSlots(r: Id, comp: Id, slots: seq<MedalSlot>, enrollments: seq<Enrollment>)
    ensures RowsOfPlaces(r, comp, PlacesOf(slots[..0], enrollments)) == []
  {
  }

  lemma NextSlot(r: Id, comp: Id, slots: seq<MedalSlot>, k: nat, enrollments: seq<Enrollment>)
    requires k < |slots|
    ensures var here := PlaceOf(slots[k], enrollments);
      RowsOfPlaces(r, comp, PlacesOf(slots[..k + 1], enrollments)) ==
      if here == [] then RowsOfPlaces(r, comp, PlacesOf(slots[..k], enrollments))
      else RowsOfPlaces(r, comp, PlacesOf(slots[..k], enrollments)) + RowsOfPlace(r, comp, here[0])
  {
    var places, here := PlacesOf(slots[..k], enrollments), PlaceOf(slots[k], enrollments);
    assert slots[..k + 1][..k] == slots[..k];
    if here == [] {
      assert places + here == places;
    } else {
      assert (places + here)[..|places + here| - 1] == places;
    }
  }

  // ---------- helpers about single postings ----------

  lemma ShiftedByOne(s: Standings, p: Posting)
    ensures forall a :: Credits([p], a) == Amount(p, a)
  {
  }

  lemma ShiftedByZero(s: Standings, p: Posting)
    requires p.points == 0
    ensures Shifted(s, [p]) == s
  {
    ShiftedByOne(s, p);
    ShiftedAlike(s, [p], []);
    ShiftedNothing(s);
  }

  lemma RollBackNothing(b: Book, r: Id)
    requires RowsOf(b.ledger, r) == []
    ensures RollBack(b, r) == b
  {
    WithoutAbsent(b.ledger, r);
    ShiftedNothing(b.standings);
  }

  lemma NegatedSnoc(txs: seq<Transaction>, k: nat)
    requires k < |txs|
    ensures var p := txs[k].posting;
      Negated(Postings(txs[..k + 1])) == Negated(Postings(txs[..k])) + [p.(points := -p.points)]
  {
    assert txs[..k + 1][..k] == txs[..k];
    assert (Postings(txs[..k]) + [txs[k].posting])[..k] == Postings(txs[..k]);
  }

  function Bumped(m: map<Id, int>, pk: Id, points: int): map<Id, int> {
    if pk in m then m[pk := m[pk] + points] else m
  }

  /** One update statement is the shift by one posting: the other tables and the
      other rows stay as they are. */
  lemma OneUpdate(s: Standings, p: Posting)
    ensures var t := Shifted(s, [p]);
      && t.profiles == (
        if p.subject !in s.profiles || p.role == ClubRole || p.role == BoardRole then s.profiles
        else
          var row := s.profiles[p.subject];
          s.profiles[p.subject := Standing(
            if p.role == PlayerRole then row.competition + p.points else row.competition, row.total + p.points)])
      && t.clubs == (if p.role == ClubRole then Bumped(s.clubs, p.subject, p.points) else s.clubs)
      && t.boards == (if p.role == BoardRole then Bumped(s.boards, p.subject, p.points) else s.boards)
  {
    ShiftedByOne(s, p);
  }

  /** The postings so far, extended by an optional one. */
  ghost method Extend(start: Standings, done: seq<Posting>, role: Role, subject: Option<Id>, points: int)
    returns (more: seq<Posting>)
    ensures more == done + PostingTo(role, subject, points)
    ensures subject.Some? ==> Shifted(Shifted(start, done), [Posting(role, subject.value, points)]) == Shifted(start, more)
    ensures subject.None? ==> more == done
  {
    more := done + PostingTo(role, subject, points);
    if subject.Some? {
      ShiftedTwice(start, done, [Posting(role, subject.value, points)]);
    }
  }
}
