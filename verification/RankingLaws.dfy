/** Laws of the ranking book: what an award and a medal are worth, how the ledger
    splits by result, and that rolling back undoes applying. */
module RankingLaws {
  import opened Common
  import opened Points
  import opened RankingBook

  // ---------- what points are worth ----------

  function When(c: bool, points: int): int { if c then points else 0 }

  /** An award gives the player 1.00 in both columns, the coach 0.75, and club and
      board 0.50; one profile in both roles gets both. */
  lemma AwardWorth(b: Book, e: Id, row: Enrollment, i: Id)
    ensures var a := AwardFor(b, e, row); var ps := PostingsOfAward(a);
      && a.enrollment == e
      && Credits(ps, ProfileCompetition(i)) == When(row.player == i, 100)
      && Credits(ps, ProfileTotal(i)) == When(row.player == i, 100) + When(a.coach == Some(i), 75)
      && Credits(ps, ClubTotal(i)) == When(a.club == Some(i), 50)
      && Credits(ps, BoardTotal(i)) == When(a.board == Some(i), 50)
  {
    var a := AwardFor(b, e, row);
    forall acc ensures Credits(PostingsOfAward(a), acc) ==
        Amount(Posting(PlayerRole, a.player, a.pointsPlayer), acc)
        + Credits(PostingTo(CoachRole, a.coach, a.pointsCoach), acc)
        + Credits(PostingTo(ClubRole, a.club, a.pointsClub), acc)
        + Credits(PostingTo(BoardRole, a.board, a.pointsBoard), acc)
    {
      var p := [Posting(PlayerRole, a.player, a.pointsPlayer)];
      var c, k := PostingTo(CoachRole, a.coach, a.pointsCoach), PostingTo(ClubRole, a.club, a.pointsClub);
      CreditsAppend(p, c, acc);
      CreditsAppend(p + c, k, acc);
      CreditsAppend(p + c + k, PostingTo(BoardRole, a.board, a.pointsBoard), acc);
      CreditsSnoc([], p[0], acc);
      assert [] + p == p;
    }
    CreditsOfPostingTo(CoachRole, a.coach, a.pointsCoach);
    CreditsOfPostingTo(ClubRole, a.club, a.pointsClub);
    CreditsOfPostingTo(BoardRole, a.board, a.pointsBoard);
  }

  lemma CreditsOfPostingTo(role: Role, subject: Option<Id>, points: int)
    ensures forall acc :: Credits(PostingTo(role, subject, points), acc) ==
                          (if subject.Some? then Amount(Posting(role, subject.value, points), acc) else 0)
  {
  }

  /** What one medal slot of a result gives to a cached column. */
  function SlotCredit(b: Book, slot: Option<Id>, player: int, coach: int, organisation: int, acc: Account): int {
    if slot.None? || slot.value >= |b.enrollments| then 0 else
      var en := b.enrollments[slot.value];
      match acc
      case ProfileCompetition(i) => When(en.player == i, player)
      case ProfileTotal(i) => When(en.player == i, player) + When(en.coach == Some(i), coach)
      case ClubTotal(i) => When(en.club == Some(i), organisation)
      case BoardTotal(i) => When(en.board == Some(i), organisation)
  }

  /** A result gives 3.00, 2.00, 1.00 and 1.00 to its players, 30% of that to each
      one's coach and 20% to each one's club and board. */
  lemma ResultWorth(b: Book, r: Id, row: ResultRow, acc: Account)
    ensures LedgerCredits(RowsOfSnapshot(r, SnapshotOf(row, b.enrollments)), acc) ==
            SlotCredit(b, row.gold, 300, 90, 60, acc) + SlotCredit(b, row.silver, 200, 60, 40, acc)
            + SlotCredit(b, row.bronze1, 100, 30, 20, acc) + SlotCredit(b, row.bronze2, 100, 30, 20, acc)
  {
    SlotsWorth(b, r, row.competition, MedalMap(row), acc);
    FourSlots(b, MedalMap(row)[0], MedalMap(row)[1], MedalMap(row)[2], MedalMap(row)[3], acc);
    assert CoachShare(300) == 90 && CoachShare(200) == 60 && CoachShare(100) == 30;
    assert OrganisationShare(300) == 60 && OrganisationShare(200) == 40 && OrganisationShare(100) == 20;
  }

  function CreditOfSlot(b: Book, s: MedalSlot, acc: Account): int {
    SlotCredit(b, s.enrollment, s.points, CoachShare(s.points), OrganisationShare(s.points), acc)
  }

  function SlotsCredit(b: Book, slots: seq<MedalSlot>, acc: Account): int {
    if slots == [] then 0
    else SlotsCredit(b, slots[..|slots| - 1], acc) + CreditOfSlot(b, slots[|slots| - 1], acc)
  }

  lemma FourSlots(b: Book, s0: MedalSlot, s1: MedalSlot, s2: MedalSlot, s3: MedalSlot, acc: Account)
    ensures SlotsCredit(b, [s0, s1, s2, s3], acc) ==
            CreditOfSlot(b, s0, acc) + CreditOfSlot(b, s1, acc) + CreditOfSlot(b, s2, acc) + CreditOfSlot(b, s3, acc)
  {
    SlotsCreditSnoc(b, [], s0, acc);
    SlotsCreditSnoc(b, [s0], s1, acc);
    SlotsCreditSnoc(b, [s0, s1], s2, acc);
    SlotsCreditSnoc(b, [s0, s1, s2], s3, acc);
    assert [] + [s0] == [s0] && [s0] + [s1] == [s0, s1];
    assert [s0, s1] + [s2] == [s0, s1, s2] && [s0, s1, s2] + [s3] == [s0, s1, s2, s3];
  }

  lemma SlotsCreditSnoc(b: Book, slots: seq<MedalSlot>, s: MedalSlot, acc: Account)
    ensures SlotsCredit(b, slots + [s], acc) == SlotsCredit(b, slots, acc) + CreditOfSlot(b, s, acc)
  {
  }

  lemma {:induction false} SlotsWorth(b: Book, r: Id, comp: Id, slots: seq<MedalSlot>, acc: Account)
    ensures LedgerCredits(RowsOfPlaces(r, comp, PlacesOf(slots, b.enrollments)), acc) == SlotsCredit(b, slots, acc)
  {
    if slots != [] {
      var init, last := slots[..|slots| - 1], slots[|slots| - 1];
      var before, here := PlacesOf(init, b.enrollments), PlaceOf(last, b.enrollments);
      SlotsWorth(b, r, comp, init, acc);
      RowsOfPlacesAppend(r, comp, before, here);
      LedgerCreditsAppend(RowsOfPlaces(r, comp, before), RowsOfPlaces(r, comp, here), acc);
      SlotWorth(b, r, comp, last, acc);
    }
  }

  lemma RowsOfPlacesAppend(r: Id, comp: Id, places: seq<Place>, more: seq<Place>)
    requires |more| <= 1
    ensures RowsOfPlaces(r, comp, places + more) == RowsOfPlaces(r, comp, places) + RowsOfPlaces(r, comp, more)
  {
    if more == [] {
      assert places + more == places;
    } else {
      assert (places + more)[..|places + more| - 1] == places && more[..0] == [];
      assert RowsOfPlaces(r, comp, more) == [] + RowsOfPlace(r, comp, more[0]);
    }
  }

  lemma SlotWorth(b: Book, r: Id, comp: Id, slot: MedalSlot, acc: Account)
    ensures LedgerCredits(RowsOfPlaces(r, comp, PlaceOf(slot, b.enrollments)), acc) ==
            CreditOfSlot(b, slot, acc)
  {
    hide RowsOfPlace;
    var here := PlaceOf(slot, b.enrollments);
    if here != [] {
      assert here[..0] == [] && [] + RowsOfPlace(r, comp, here[0]) == RowsOfPlace(r, comp, here[0]);
      PlaceWorth(r, comp, here[0], acc);
    }
  }

  lemma PlaceWorth(r: Id, comp: Id, p: Place, acc: Account)
    ensures LedgerCredits(RowsOfPlace(r, comp, p), acc) ==
            match acc
            case ProfileCompetition(i) => When(p.player == i, p.points)
            case ProfileTotal(i) => When(p.player == i, p.points) + When(p.coach == Some(i), CoachShare(p.points))
            case ClubTotal(i) => When(p.club == Some(i), OrganisationShare(p.points))
            case BoardTotal(i) => When(p.board == Some(i), OrganisationShare(p.points))
  {
    hide Credits, Postings;
    var t := [Transaction(r, comp, p.medal, Posting(PlayerRole, p.player, p.points))];
    var c := LedgerEntry(r, comp, p.medal, CoachRole, p.coach, CoachShare(p.points));
    var k := LedgerEntry(r, comp, p.medal, ClubRole, p.club, OrganisationShare(p.points));
    var d := LedgerEntry(r, comp, p.medal, BoardRole, p.board, OrganisationShare(p.points));
    LedgerCreditsAppend(t, c, acc);
    LedgerCreditsAppend(t + c, k, acc);
    LedgerCreditsAppend(t + c + k, d, acc);
    LedgerCreditsOne(t[0], acc);
    EntryWorth(r, comp, p.medal, CoachRole, p.coach, CoachShare(p.points), acc);
    EntryWorth(r, comp, p.medal, ClubRole, p.club, OrganisationShare(p.points), acc);
    EntryWorth(r, comp, p.medal, BoardRole, p.board, OrganisationShare(p.points), acc);
  }

  lemma EntryWorth(r: Id, comp: Id, medal: Medal, role: Role, subject: Option<Id>, points: int, acc: Account)
    ensures LedgerCredits(LedgerEntry(r, comp, medal, role, subject, points), acc) ==
            (if subject.Some? then Amount(Posting(role, subject.value, points), acc) else 0)
  {
    if subject.Some? {
      LedgerCreditsOne(Transaction(r, comp, medal, Posting(role, subject.value, points)), acc);
    }
  }

  // ---------- credits of ledger rows ----------

  function LedgerCredits(txs: seq<Transaction>, acc: Account): int {
    Credits(Postings(txs), acc)
  }

  lemma {:induction false} PostingsAppend(xs: seq<Transaction>, ys: seq<Transaction>)
    ensures Postings(xs + ys) == Postings(xs) + Postings(ys)
  {
    if ys == [] {
      assert xs + ys == xs;
    } else {
      var init, last := ys[..|ys| - 1], ys[|ys| - 1];
      assert (xs + ys)[..|xs + ys| - 1] == xs + init;
      PostingsAppend(xs, init);
    }
  }

  lemma LedgerCreditsAppend(xs: seq<Transaction>, ys: seq<Transaction>, acc: Account)
    ensures LedgerCredits(xs + ys, acc) == LedgerCredits(xs, acc) + LedgerCredits(ys, acc)
  {
    PostingsAppend(xs, ys);
    CreditsAppend(Postings(xs), Postings(ys), acc);
  }

  lemma LedgerCreditsOne(t: Transaction, acc: Account)
    ensures LedgerCredits([t], acc) == Amount(t.posting, acc)
  {
    assert [t][..0] == [] && Postings([t]) == [t.posting];
    CreditsSnoc([], t.posting, acc);
    assert [] + [t.posting] == [t.posting];
  }

  // ---------- the ledger by result ----------

  lemma {:induction false} RowsOfAppend(xs: seq<Transaction>, ys: seq<Transaction>, r: Id)
    ensures RowsOf(xs + ys, r) == RowsOf(xs, r) + RowsOf(ys, r)
    ensures Without(xs + ys, r) == Without(xs, r) + Without(ys, r)
  {
    if ys == [] {
      assert xs + ys == xs;
    } else {
      assert (xs + ys)[..|xs + ys| - 1] == xs + ys[..|ys| - 1];
      RowsOfAppend(xs, ys[..|ys| - 1], r);
    }
  }

  /** Deleting one result's rows leaves every other result's rows alone. */
  lemma {:induction false} RowsOfWithout(txs: seq<Transaction>, r: Id, q: Id)
    ensures RowsOf(Without(txs, r), q) == if q == r then [] else RowsOf(txs, q)
  {
    if txs != [] {
      var init, last := txs[..|txs| - 1], txs[|txs| - 1];
      RowsOfWithout(init, r, q);
      RowsOfAppend(Without(init, r), if last.result != r then [last] else [], q);
      assert [last][..0] == [];
    }
  }

  predicate AllOf(txs: seq<Transaction>, r: Id) {
    forall k :: 0 <= k < |txs| ==> txs[k].result == r
  }

  lemma {:induction false} RowsOfUniform(txs: seq<Transaction>, r: Id, q: Id)
    requires AllOf(txs, r)
    ensures RowsOf(txs, q) == if q == r then txs else []
    ensures Without(txs, q) == if q == r then [] else txs
  {
    if txs != [] {
      var init, last := txs[..|txs| - 1], txs[|txs| - 1];
      assert txs == init + [last];
      assert AllOf(init, r);
      RowsOfUniform(init, r, q);
      assert RowsOf(txs, q) == RowsOf(init, q) + (if last.result == q then [last] else []);
      assert Without(txs, q) == Without(init, q) + (if last.result != q then [last] else []);
    }
  }

  lemma {:induction false} WithoutAbsent(txs: seq<Transaction>, r: Id)
    requires RowsOf(txs, r) == []
    ensures Without(txs, r) == txs
  {
    if txs != [] {
      WithoutAbsent(txs[..|txs| - 1], r);
    }
  }

  lemma {:induction false} SnapshotRowsUniform(r: Id, comp: Id, places: seq<Place>)
    ensures AllOf(RowsOfPlaces(r, comp, places), r)
  {
    if places != [] {
      SnapshotRowsUniform(r, comp, places[..|places| - 1]);
    }
  }

  lemma {:induction false} LedgerSplits(txs: seq<Transaction>, r: Id, acc: Account)
    ensures LedgerCredits(txs, acc) == LedgerCredits(RowsOf(txs, r), acc) + LedgerCredits(Without(txs, r), acc)
  {
    if txs != [] {
      var init, last := txs[..|txs| - 1], txs[|txs| - 1];
      assert txs == init + [last];
      LedgerSplits(init, r, acc);
      LedgerCreditsAppend(init, [last], acc);
      var hit := if last.result == r then [last] else [];
      var miss := if last.result != r then [last] else [];
      assert RowsOf(txs, r) == RowsOf(init, r) + hit && Without(txs, r) == Without(init, r) + miss;
      LedgerCreditsAppend(RowsOf(init, r), hit, acc);
      LedgerCreditsAppend(Without(init, r), miss, acc);
    }
  }

  /** Two ledgers holding the same rows result by result credit every column
      alike, whatever the order of the results in them. */
  lemma {:induction false} SameRowsSameCredits(xs: seq<Transaction>, ys: seq<Transaction>, acc: Account)
    requires forall r :: RowsOf(xs, r) == RowsOf(ys, r)
    ensures LedgerCredits(xs, acc) == LedgerCredits(ys, acc)
    decreases |xs|
  {
    if xs == [] {
      if ys != [] {
        RowsOfLast(ys);
      }
    } else {
      var r := xs[|xs| - 1].result;
      LedgerSplits(xs, r, acc);
      LedgerSplits(ys, r, acc);
      forall q ensures RowsOf(Without(xs, r), q) == RowsOf(Without(ys, r), q) {
        RowsOfWithout(xs, r, q);
        RowsOfWithout(ys, r, q);
      }
      WithoutShrinks(xs[..|xs| - 1], r);
      SameRowsSameCredits(Without(xs, r), Without(ys, r), acc);
    }
  }

  lemma RowsOfLast(txs: seq<Transaction>)
    requires txs != []
    ensures RowsOf(txs, txs[|txs| - 1].result) != []
  {
  }

  lemma {:induction false} WithoutShrinks(txs: seq<Transaction>, r: Id)
    ensures |Without(txs, r)| <= |txs|
  {
    if txs != [] {
      WithoutShrinks(txs[..|txs| - 1], r);
    }
  }

  // ---------- rolling back and applying ----------

  /** Rolling back undoes an apply exactly: ledger and every cached column. */
  lemma RollBackUndoesApply(b: Book, r: Id, row: ResultRow)
    requires RowsOf(b.ledger, r) == []
    ensures RollBack(Apply(b, r, row), r) == b
  {
    var rows := RowsOfSnapshot(r, SnapshotOf(row, b.enrollments));
    AppliedRows(b, r, row);
    WithoutAbsent(b.ledger, r);
    RowsOfAppend(b.ledger, rows, r);
    assert [] + rows == rows && b.ledger + [] == b.ledger;
    ShiftedBack(b.standings, Postings(rows));
  }

  lemma AppliedRows(b: Book, r: Id, row: ResultRow)
    ensures var rows := RowsOfSnapshot(r, SnapshotOf(row, b.enrollments));
      && RowsOf(rows, r) == rows && Without(rows, r) == []
      && forall q :: q != r ==> RowsOf(rows, q) == []
  {
    var s := SnapshotOf(row, b.enrollments);
    var rows := RowsOfSnapshot(r, s);
    SnapshotRowsUniform(r, s.competition, s.places);
    RowsOfUniform(rows, r, r);
    forall q | q != r ensures RowsOf(rows, q) == [] {
      RowsOfUniform(rows, r, q);
    }
  }

  lemma ShiftedBack(s: Standings, ps: seq<Posting>)
    ensures Shifted(Shifted(s, ps), Negated(ps)) == s
  {
    ShiftedTwice(s, ps, Negated(ps));
    forall acc ensures Credits(ps + Negated(ps), acc) == Credits([], acc) {
      CreditsAppend(ps, Negated(ps), acc);
      CreditsNegated(ps, acc);
    }
    ShiftedAlike(s, ps + Negated(ps), []);
    ShiftedNothing(s);
  }

  /** The ledger after an accepted save: the result's rows are those of the
      snapshot just taken, every other result's rows are untouched. */
  lemma SavedRows(b: Book, r: Id, row: ResultRow)
    requires CleanResult(b, r, row)
    ensures var b' := SaveResult(b, r, row);
      && RowsOf(b'.ledger, r) == RowsOfSnapshot(r, SnapshotOf(row, b.enrollments))
      && (forall q :: q != r ==> RowsOf(b'.ledger, q) == RowsOf(b.ledger, q))
      && b'.ledger == Without(b.ledger, r) + RowsOfSnapshot(r, SnapshotOf(row, b.enrollments))
  {
    var rows := RowsOfSnapshot(r, SnapshotOf(row, b.enrollments));
    AppliedRows(b, r, row);
    forall q ensures RowsOf(Without(b.ledger, r) + rows, q) == (if q == r then [] else RowsOf(b.ledger, q)) + RowsOf(rows, q) {
      RowsOfAppend(Without(b.ledger, r), rows, q);
      RowsOfWithout(b.ledger, r, q);
    }
    assert [] + rows == rows;
  }

  /** Saving the same result twice is saving it once. */
  lemma SaveTwice(b: Book, r: Id, row: ResultRow)
    ensures SaveResult(SaveResult(b, r, row), r, row) == SaveResult(b, r, row)
  {
    if CleanResult(b, r, row) {
      var once := SaveResult(b, r, row);
      var put := PutResult(b, r, row);
      var clear := RollBack(put, r);
      assert once == Apply(clear, r, row);
      assert CleanResult(once, r, row);
      assert PutResult(once, r, row) == once;
      RowsOfWithout(b.ledger, r, r);
      RollBackUndoesApply(clear, r, row);
    }
  }
}
