/** Whole runs of the ranking book: any interleaving of payments, edits, commit
    callbacks and result saves. */
module RankingRuns {
  import opened Common
  import opened Points
  import opened RankingBook
  import opened RankingLaws

  datatype Event =
    | NewEnrollment(row: Enrollment)
    | PayEnrollment(e: Id, amount: int, ref: string)
    | SettleTarget(e: Id, settled: Option<int>, ref: string)
    | PlainSave(e: Id, row: Enrollment)
    | EditProfile(profile: Id, info: ProfileInfo)
    | EditClub(clubRow: Id, clubBoard: Option<Id>)
    | CommitCallback
    | SaveMedals(r: Id, medals: ResultRow)

  /** Any other save of an enrollment, whatever it changes; the post-save hook runs. */
  function PlainlySaved(b: Book, e: Id, row: Enrollment): Book {
    if e < |b.enrollments| then SaveRow(b, e, row) else b
  }

  function Step(b: Book, ev: Event): Book {
    match ev
    case NewEnrollment(row) => CreateEnrollment(b, row)
    case PayEnrollment(e, amount, ref) => MarkPaid(b, e, amount, ref)
    case SettleTarget(e, amount, ref) => SettleEnrollment(b, e, amount, ref)
    case PlainSave(e, row) => PlainlySaved(b, e, row)
    case EditProfile(i, info) => b.(info := b.info[i := info])
    case EditClub(c, board) => b.(clubBoard := b.clubBoard[c := board])
    case CommitCallback => RunCallback(b)
    case SaveMedals(r, row) => SaveResult(b, r, row)
  }

  function Run(b: Book, evs: seq<Event>): Book {
    if evs == [] then b else Step(Run(b, evs[..|evs| - 1]), evs[|evs| - 1])
  }

  // ---------- the cached totals are the book ----------

  function AllPostings(b: Book): seq<Posting> {
    PostingsOfAwards(b.awards) + Postings(b.ledger)
  }

  /** Every cached column is its starting value plus what awards and ledger say. */
  ghost predicate Balanced(start: Standings, b: Book) {
    b.standings == Shifted(start, AllPostings(b))
  }

  lemma AwardKeepsBalance(start: Standings, b: Book, e: Id, row: Enrollment)
    requires Balanced(start, b)
    ensures Balanced(start, AwardPoints(b, e, row))
  {
    if !HasAward(b, e) {
      var a := AwardFor(b, e, row);
      var ps := PostingsOfAward(a);
      assert (b.awards + [a])[..|b.awards + [a]| - 1] == b.awards;
      ShiftedTwice(start, AllPostings(b), ps);
      forall acc ensures Credits(AllPostings(b) + ps, acc) == Credits(AllPostings(AwardPoints(b, e, row)), acc) {
        CreditsAppend(AllPostings(b), ps, acc);
        CreditsAppend(PostingsOfAwards(b.awards), Postings(b.ledger), acc);
        CreditsAppend(PostingsOfAwards(b.awards), ps, acc);
        CreditsAppend(PostingsOfAwards(b.awards) + ps, Postings(b.ledger), acc);
      }
      ShiftedAlike(start, AllPostings(b) + ps, AllPostings(AwardPoints(b, e, row)));
    }
  }

  lemma SaveResultKeepsBalance(start: Standings, b: Book, r: Id, row: ResultRow)
    requires Balanced(start, b)
    ensures Balanced(start, SaveResult(b, r, row))
  {
    if CleanResult(b, r, row) {
      var gone, added := RowsOf(b.ledger, r), RowsOfSnapshot(r, SnapshotOf(row, b.enrollments));
      var back := Negated(Postings(gone));
      ShiftedTwice(start, AllPostings(b), back);
      ShiftedTwice(start, AllPostings(b) + back, Postings(added));
      var moved, after := AllPostings(b) + back + Postings(added), AllPostings(SaveResult(b, r, row));
      forall acc ensures Credits(moved, acc) == Credits(after, acc) {
        var aws := PostingsOfAwards(b.awards);
        CreditsAppend(AllPostings(b) + back, Postings(added), acc);
        CreditsAppend(AllPostings(b), back, acc);
        CreditsNegated(Postings(gone), acc);
        CreditsAppend(aws, Postings(b.ledger), acc);
        LedgerSplits(b.ledger, r, acc);
        LedgerCreditsAppend(Without(b.ledger, r), added, acc);
        CreditsAppend(aws, Postings(Without(b.ledger, r) + added), acc);
      }
      ShiftedAlike(start, moved, after);
    }
  }

  lemma StepKeepsBalance(start: Standings, b: Book, ev: Event)
    requires Balanced(start, b)
    ensures Balanced(start, Step(b, ev))
  {
    hide Shifted, PostingsOfAwards, Postings, AwardPoints, SaveResult;
    match ev
    case PayEnrollment(e, amount, ref) =>
      if e < |b.enrollments| && !b.enrollments[e].isPaid {
        var row := PaidRow(b.enrollments[e], amount, ref);
        AwardKeepsBalance(start, SaveRow(b, e, row), e, row);
      }
    case CommitCallback =>
      if b.queue != [] {
        AwardKeepsBalance(start, b.(queue := b.queue[1..]), b.queue[0].enrollment, b.queue[0].row);
      }
    case SaveMedals(r, row) => SaveResultKeepsBalance(start, b, r, row);
    case _ =>
  }

  lemma {:induction false} RunKeepsBalance(start: Standings, b: Book, evs: seq<Event>)
    requires Balanced(start, b)
    ensures Balanced(start, Run(b, evs))
  {
    if evs != [] {
      RunKeepsBalance(start, b, evs[..|evs| - 1]);
      StepKeepsBalance(start, Run(b, evs[..|evs| - 1]), evs[|evs| - 1]);
    }
  }

  /** A book nothing has been posted to yet. */
  ghost predicate Fresh(b: Book) {
    b.awards == [] && b.ledger == [] && b.queue == []
  }

  lemma FreshIsBalanced(b: Book)
    requires Fresh(b)
    ensures Balanced(b.standings, b)
  {
  }

  function BookCredit(b: Book, acc: Account): int {
    Credits(PostingsOfAwards(b.awards), acc) + Credits(Postings(b.ledger), acc)
  }

  /** In every state of every run the cached totals are the starting values plus
      the award rows and the ledger rows naming the profile, club or board. */
  lemma TotalsMatchTheBook(b0: Book, evs: seq<Event>)
    requires Fresh(b0)
    ensures var b := Run(b0, evs);
      && b.standings.profiles.Keys == b0.standings.profiles.Keys
      && b.standings.clubs.Keys == b0.standings.clubs.Keys
      && b.standings.boards.Keys == b0.standings.boards.Keys
      && (forall i :: i in b.standings.profiles ==>
            && b.standings.profiles[i].total == b0.standings.profiles[i].total + BookCredit(b, ProfileTotal(i))
            && b.standings.profiles[i].competition
               == b0.standings.profiles[i].competition + BookCredit(b, ProfileCompetition(i)))
      && (forall c :: c in b.standings.clubs ==>
            b.standings.clubs[c] == b0.standings.clubs[c] + BookCredit(b, ClubTotal(c)))
      && (forall d :: d in b.standings.boards ==>
            b.standings.boards[d] == b0.standings.boards[d] + BookCredit(b, BoardTotal(d)))
  {
    var b := Run(b0, evs);
    FreshIsBalanced(b0);
    RunKeepsBalance(b0.standings, b0, evs);
    forall acc ensures Credits(AllPostings(b), acc) == BookCredit(b, acc) {
      CreditsAppend(PostingsOfAwards(b.awards), Postings(b.ledger), acc);
    }
  }

  // ---------- every paid enrollment is awarded exactly once ----------

  ghost predicate AwardedAtMostOnce(b: Book) {
    forall i, j :: 0 <= i < j < |b.awards| ==> b.awards[i].enrollment != b.awards[j].enrollment
  }

  ghost predicate Queued(b: Book, e: Id) {
    exists k :: 0 <= k < |b.queue| && b.queue[k].enrollment == e
  }

  ghost predicate IsPaid(b: Book, e: Id) {
    e < |b.enrollments| && b.enrollments[e].isPaid
  }

  function PaidIds(b: Book): set<Id> {
    set e: Id | e < |b.enrollments| && b.enrollments[e].isPaid
  }

  /** The enrollments that were paid in some state of the run. */
  function EverPaid(b0: Book, evs: seq<Event>): set<Id> {
    if evs == [] then PaidIds(b0) else EverPaid(b0, evs[..|evs| - 1]) + PaidIds(Run(b0, evs))
  }

  /** Of all steps only a plain save can take a payment back. */
  predicate KeepsPaid(b: Book, ev: Event) {
    ev.PlainSave? && ev.e < |b.enrollments| && b.enrollments[ev.e].isPaid ==> ev.row.isPaid
  }

  predicate NeverUnpays(b0: Book, evs: seq<Event>) {
    evs != [] ==>
      NeverUnpays(b0, evs[..|evs| - 1]) && KeepsPaid(Run(b0, evs[..|evs| - 1]), evs[|evs| - 1])
  }

  /** `paid` are the enrollments paid so far: they, and no others, are awarded or
      queued, none of them twice. */
  ghost predicate AwardsSound(b: Book, paid: set<Id>) {
    && AwardedAtMostOnce(b)
    && PaidIds(b) <= paid
    && (forall e: Id :: e in paid ==> HasAward(b, e) || Queued(b, e))
    && (forall k :: 0 <= k < |b.awards| ==> b.awards[k].enrollment in paid)
    && (forall k :: 0 <= k < |b.queue| ==> b.queue[k].enrollment in paid)
  }

  lemma AwardPointsAwards(b: Book, e: Id, row: Enrollment)
    ensures var b' := AwardPoints(b, e, row);
      && HasAward(b', e)
      && (forall x: Id :: HasAward(b, x) ==> HasAward(b', x))
      && b'.enrollments == b.enrollments && b'.queue == b.queue
      && (AwardedAtMostOnce(b) ==> AwardedAtMostOnce(b'))
      && (forall k :: 0 <= k < |b'.awards| ==> b'.awards[k].enrollment == e || k < |b.awards|)
      && b.awards <= b'.awards
  {
    var b' := AwardPoints(b, e, row);
    if !HasAward(b, e) {
      assert b'.awards[|b.awards|].enrollment == e;
      forall x: Id | HasAward(b, x) ensures HasAward(b', x) {
        var k :| 0 <= k < |b.awards| && b.awards[k].enrollment == x;
        assert b'.awards[k].enrollment == x;
      }
    }
  }

  /** The rows change, then the hook runs for one of them: if that one is paid, it is
      awarded or queued. */
  lemma AfterSaveSound(b: Book, m: Book, e: Id, paid: set<Id>)
    requires AwardsSound(b, paid) && m.awards == b.awards && m.queue == b.queue
    requires e < |m.enrollments| && PaidIds(m) <= paid + {e}
    ensures AwardsSound(AfterSave(m, e), paid + PaidIds(m))
  {
    var b' := AfterSave(m, e);
    forall x: Id | x in paid + PaidIds(m) ensures HasAward(b', x) || Queued(b', x) {
      if x in paid && HasAward(b, x) {
        var k :| 0 <= k < |b.awards| && b.awards[k].enrollment == x;
        assert b'.awards[k].enrollment == x;
      } else if x in paid {
        var k :| 0 <= k < |b.queue| && b.queue[k].enrollment == x;
        assert b'.queue[k].enrollment == x;
      } else if !HasAward(m, e) {
        assert b'.queue[|m.queue|].enrollment == e;
      }
    }
  }

  /** A save that leaves the row paid leaves it awarded or queued, whatever else the
      save changed. */
  lemma SaveRowSound(b: Book, e: Id, row: Enrollment, paid: set<Id>)
    requires AwardsSound(b, paid) && e < |b.enrollments|
    ensures var b' := SaveRow(b, e, row);
      AwardsSound(b', paid + PaidIds(b')) && b'.awards == b.awards && b'.enrollments == b.enrollments[e := row]
  {
    var m := b.(enrollments := b.enrollments[e := row]);
    forall x: Id | x in PaidIds(m) ensures x in paid + {e} {
      assert x != e ==> x in PaidIds(b);
    }
    AfterSaveSound(b, m, e, paid);
    assert PaidIds(SaveRow(b, e, row)) == PaidIds(m);
  }

  lemma CreateEnrollmentSound(b: Book, row: Enrollment, paid: set<Id>)
    requires AwardsSound(b, paid)
    ensures var b' := CreateEnrollment(b, row); AwardsSound(b', paid + PaidIds(b'))
  {
    var n, m := |b.enrollments|, b.(enrollments := b.enrollments + [row]);
    forall x: Id | x in PaidIds(m) ensures x in paid + {n} {
      assert x != n ==> x in PaidIds(b);
    }
    AfterSaveSound(b, m, n, paid);
    assert PaidIds(CreateEnrollment(b, row)) == PaidIds(m);
  }

  lemma AwardPointsSound(b: Book, e: Id, row: Enrollment, paid: set<Id>)
    requires AwardsSound(b, paid) && e in paid
    ensures var b' := AwardPoints(b, e, row); AwardsSound(b', paid) && PaidIds(b') == PaidIds(b)
  {
    AwardPointsAwards(b, e, row);
    var b' := AwardPoints(b, e, row);
    forall x: Id | x in paid ensures HasAward(b', x) || Queued(b', x) {
      if !HasAward(b, x) {
        var k :| 0 <= k < |b.queue| && b.queue[k].enrollment == x;
        assert b'.queue[k].enrollment == x;
      }
    }
  }

  lemma RunCallbackSound(b: Book, paid: set<Id>)
    requires AwardsSound(b, paid)
    ensures AwardsSound(RunCallback(b), paid) && PaidIds(RunCallback(b)) == PaidIds(b)
  {
    if b.queue != [] {
      var popped := b.(queue := b.queue[1..]);
      var e, row := b.queue[0].enrollment, b.queue[0].row;
      var b' := RunCallback(b);
      AwardPointsAwards(popped, e, row);
      forall x: Id | x in paid ensures HasAward(b', x) || Queued(b', x) {
        if HasAward(b, x) {
          assert HasAward(popped, x);
        } else {
          var k :| 0 <= k < |b.queue| && b.queue[k].enrollment == x;
          if k > 0 { assert b'.queue[k - 1].enrollment == x; }
        }
      }
    }
  }

  lemma StepKeepsAwardsSound(b: Book, ev: Event, paid: set<Id>)
    requires AwardsSound(b, paid)
    ensures AwardsSound(Step(b, ev), paid + PaidIds(Step(b, ev)))
  {
    hide SaveRow, AwardPoints, CreateEnrollment, CleanResult;
    assert paid + PaidIds(b) == paid;
    match ev
    case NewEnrollment(row) => CreateEnrollmentSound(b, row, paid);
    case PayEnrollment(e, amount, ref) =>
      if e < |b.enrollments| && !b.enrollments[e].isPaid {
        var row := PaidRow(b.enrollments[e], amount, ref);
        SaveRowSound(b, e, row, paid);
        var saved := SaveRow(b, e, row);
        assert e in PaidIds(saved);
        AwardPointsSound(saved, e, row, paid + PaidIds(saved));
      }
    case SettleTarget(e, amount, ref) =>
      if e < |b.enrollments| && SettleChanges(b.enrollments[e], amount) {
        SaveRowSound(b, e, SettledRow(b.enrollments[e], amount, ref), paid);
      }
    case PlainSave(e, row) =>
      if e < |b.enrollments| {
        SaveRowSound(b, e, row, paid);
      }
    case CommitCallback => RunCallbackSound(b, paid);
    case SaveMedals(r, row) => SameAwards(b, SaveResult(b, r, row), paid);
    case EditProfile(_, _) => SameAwards(b, Step(b, ev), paid);
    case EditClub(_, _) => SameAwards(b, Step(b, ev), paid);
  }

  lemma SameAwards(b: Book, c: Book, paid: set<Id>)
    requires AwardsSound(b, paid)
    requires c.awards == b.awards && c.queue == b.queue && c.enrollments == b.enrollments
    ensures AwardsSound(c, paid) && PaidIds(c) == PaidIds(b)
  {
    forall x: Id | x in paid ensures HasAward(c, x) || Queued(c, x) {
      if HasAward(b, x) {
        var k :| 0 <= k < |b.awards| && b.awards[k].enrollment == x;
        assert c.awards[k].enrollment == x;
      } else {
        var k :| 0 <= k < |b.queue| && b.queue[k].enrollment == x;
        assert c.queue[k].enrollment == x;
      }
    }
  }

  lemma {:induction false} RunKeepsAwardsSound(b0: Book, evs: seq<Event>)
    requires AwardsSound(b0, PaidIds(b0))
    ensures AwardsSound(Run(b0, evs), EverPaid(b0, evs))
  {
    if evs != [] {
      RunKeepsAwardsSound(b0, evs[..|evs| - 1]);
      StepKeepsAwardsSound(Run(b0, evs[..|evs| - 1]), evs[|evs| - 1], EverPaid(b0, evs[..|evs| - 1]));
    }
  }

  lemma StepKeepsPaidIds(b: Book, ev: Event)
    requires KeepsPaid(b, ev)
    ensures PaidIds(b) <= PaidIds(Step(b, ev))
  {
    hide HasAward, AwardFor, CleanResult;
    forall x: Id | x in PaidIds(b) ensures x in PaidIds(Step(b, ev)) {
      assert IsPaid(Step(b, ev), x);
    }
  }

  lemma {:induction false} PaidStaysPaid(b0: Book, evs: seq<Event>)
    requires NeverUnpays(b0, evs)
    ensures EverPaid(b0, evs) == PaidIds(Run(b0, evs))
  {
    if evs != [] {
      PaidStaysPaid(b0, evs[..|evs| - 1]);
      StepKeepsPaidIds(Run(b0, evs[..|evs| - 1]), evs[|evs| - 1]);
    }
  }

  ghost predicate AwardedExactlyOnce(b: Book, e: Id) {
    exists k :: 0 <= k < |b.awards| && b.awards[k].enrollment == e
      && forall j :: 0 <= j < |b.awards| && b.awards[j].enrollment == e ==> j == k
  }

  /** However the payments, saves and commit callbacks interleave, no enrollment
      ever has two awards, and once the queue is empty the enrollments with exactly
      one award are those that were paid at some point of the run: the ones paid now,
      unless a plain save took a payment back. */
  lemma ExactlyOneAwardPerPayment(b0: Book, evs: seq<Event>)
    requires Fresh(b0) && forall e :: 0 <= e < |b0.enrollments| ==> !b0.enrollments[e].isPaid
    ensures var b := Run(b0, evs);
      && AwardedAtMostOnce(b)
      && (b.queue == [] ==> forall e: Id :: AwardedExactlyOnce(b, e) <==> e in EverPaid(b0, evs))
      && (forall e: Id :: IsPaid(b, e) ==> e in EverPaid(b0, evs))
      && (NeverUnpays(b0, evs) ==> forall e: Id :: e in EverPaid(b0, evs) ==> IsPaid(b, e))
  {
    var b, paid := Run(b0, evs), EverPaid(b0, evs);
    RunKeepsAwardsSound(b0, evs);
    if NeverUnpays(b0, evs) {
      PaidStaysPaid(b0, evs);
    }
    if b.queue == [] {
      forall e: Id ensures AwardedExactlyOnce(b, e) <==> e in paid {
        if e in paid {
          assert !Queued(b, e) && HasAward(b, e);
          var k :| 0 <= k < |b.awards| && b.awards[k].enrollment == e;
          assert forall j :: 0 <= j < |b.awards| && b.awards[j].enrollment == e ==> j == k;
        }
      }
    }
    forall e: Id | IsPaid(b, e) ensures e in paid {
      assert e in PaidIds(b);
    }
  }

  // ---------- totals depend only on the last saved snapshots ----------

  /** The snapshot each result was last accepted with, read off the run. */
  function LastSaved(b0: Book, evs: seq<Event>): map<Id, Snapshot> {
    if evs == [] then map[] else
      var before, b, ev := LastSaved(b0, evs[..|evs| - 1]), Run(b0, evs[..|evs| - 1]), evs[|evs| - 1];
      if Accepts(b, ev)
      then before[ev.r := SnapshotOf(ev.medals, b.enrollments)]
      else before
  }

  function SnapshotRows(saved: map<Id, Snapshot>, r: Id): seq<Transaction> {
    if r in saved then RowsOfSnapshot(r, saved[r]) else []
  }

  predicate Accepts(b: Book, ev: Event) {
    ev.SaveMedals? && CleanResult(b, ev.r, ev.medals)
  }

  lemma StepLedger(b: Book, ev: Event, r: Id)
    ensures RowsOf(Step(b, ev).ledger, r) ==
            if Accepts(b, ev) && ev.r == r then RowsOfSnapshot(r, SnapshotOf(ev.medals, b.enrollments))
            else RowsOf(b.ledger, r)
  {
    hide RowsOf, RowsOfSnapshot, SnapshotOf, CleanResult, HasAward, Shifted;
    if Accepts(b, ev) {
      SavedRows(b, ev.r, ev.medals);
    } else {
      assert Step(b, ev).ledger == b.ledger;
    }
  }

  lemma {:induction false} LedgerFollowsSnapshots(b0: Book, evs: seq<Event>, r: Id)
    requires b0.ledger == []
    ensures RowsOf(Run(b0, evs).ledger, r) == SnapshotRows(LastSaved(b0, evs), r)
  {
    if evs != [] {
      var b, ev := Run(b0, evs[..|evs| - 1]), evs[|evs| - 1];
      LedgerFollowsSnapshots(b0, evs[..|evs| - 1], r);
      StepLedger(b, ev, r);
    }
  }

  /** Two histories that end with the same snapshots (and whose awards credit
      alike) end with the same cached standings, however often and in whatever
      order results were saved, and whatever they said before. */
  lemma HistoryIndependence(b0: Book, evs: seq<Event>, c0: Book, evs': seq<Event>)
    requires Fresh(b0) && Fresh(c0) && b0.standings == c0.standings
    requires LastSaved(b0, evs) == LastSaved(c0, evs')
    requires forall acc :: Credits(PostingsOfAwards(Run(b0, evs).awards), acc)
                        == Credits(PostingsOfAwards(Run(c0, evs').awards), acc)
    ensures Run(b0, evs).standings == Run(c0, evs').standings
  {
    var b, c := Run(b0, evs), Run(c0, evs');
    FreshIsBalanced(b0);
    FreshIsBalanced(c0);
    RunKeepsBalance(b0.standings, b0, evs);
    RunKeepsBalance(b0.standings, c0, evs');
    forall r ensures RowsOf(b.ledger, r) == RowsOf(c.ledger, r) {
      LedgerFollowsSnapshots(b0, evs, r);
      LedgerFollowsSnapshots(c0, evs', r);
    }
    forall acc ensures Credits(AllPostings(b), acc) == Credits(AllPostings(c), acc) {
      SameRowsSameCredits(b.ledger, c.ledger, acc);
      CreditsAppend(PostingsOfAwards(b.awards), Postings(b.ledger), acc);
      CreditsAppend(PostingsOfAwards(c.awards), Postings(c.ledger), acc);
    }
    ShiftedAlike(b0.standings, AllPostings(b), AllPostings(c));
  }
}
