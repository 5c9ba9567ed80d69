/** What enrolling a group does to the enrollment table, that the two finalisers
    agree, and how payment steps move the ranking book. */
module GroupLaws {
  import opened Common
  import opened Shares
  import opened Discounts
  import opened RankingBook
  import opened RankingRuns
  import opened Payments

  // ---------- commit touches awards and standings only ----------

  lemma {:induction false} CommitKeepsTables(b: Book)
    ensures var c := Commit(b);
      && c.enrollments == b.enrollments && c.ledger == b.ledger && c.results == b.results
      && c.info == b.info && c.clubBoard == b.clubBoard
    decreases |b.queue|
  {
    if b.queue != [] {
      CommitKeepsTables(RunCallback(b));
    }
  }

  // ---------- the rows a finaliser leaves ----------

  function PaidRows(rows: seq<Enrollment>, ref: string): (r: seq<Enrollment>)
    ensures |r| == |rows|
  {
    seq(|rows|, k requires 0 <= k < |rows| => PaidRow(rows[k], rows[k].payableAmount, ref))
  }

  predicate Unpaid(rows: seq<Enrollment>) {
    forall k :: 0 <= k < |rows| ==> !rows[k].isPaid
  }

  lemma PaidRowsSnoc(rows: seq<Enrollment>, ref: string)
    requires rows != []
    ensures var last := rows[|rows| - 1];
      PaidRows(rows, ref) == PaidRows(rows[..|rows| - 1], ref) + [PaidRow(last, last.payableAmount, ref)]
  {
  }

  lemma EnrollOneEffect(b: Book, row: Enrollment, ref: string)
    requires !row.isPaid
    ensures var c := EnrollOne(b, row, ref);
      && c.enrollments == b.enrollments + [PaidRow(row, row.payableAmount, ref)]
      && c.info == b.info
  {
  }

  /** The loop appends every row, paid with its own part, in order. */
  lemma {:induction false} EnrollEachEffect(b: Book, rows: seq<Enrollment>, ref: string)
    requires Unpaid(rows)
    ensures var c := EnrollEach(b, rows, ref);
      c.enrollments == b.enrollments + PaidRows(rows, ref) && c.info == b.info
  {
    hide EnrollOne, PaidRow, PaidRows;
    if rows != [] {
      var init, last := rows[..|rows| - 1], rows[|rows| - 1];
      EnrollEachEffect(b, init, ref);
      EnrollOneEffect(EnrollEach(b, init, ref), last, ref);
      PaidRowsSnoc(rows, ref);
    }
  }

  lemma EnrollNone(b: Book, rows: seq<Enrollment>, ref: string)
    ensures EnrollEach(b, rows[..0], ref) == b
  {
  }

  lemma EnrollEachNext(b: Book, rows: seq<Enrollment>, k: nat, ref: string)
    requires k < |rows|
    ensures EnrollEach(b, rows[..k + 1], ref) == EnrollOne(EnrollEach(b, rows[..k], ref), rows[k], ref)
  {
    assert rows[..k + 1][..k] == rows[..k];
  }

  // ---------- the two finalisers agree ----------

  /** The bank callback and the free path build the same rows exactly when the
      payload carries an amount or the group has none either. Every group that `post`
      makes is such (`PostedGroup`). */
  lemma SameRowsIff(b: Book, g: Group)
    ensures BankRows(b, g) == FreeRows(b, g.competition, g.coach, g.payload)
            <==> g.payload.items == [] || g.payload.payableAmount != 0 || g.totalAmount == 0
  {
    var n := |g.payload.items|;
    var bank, free := EvenSplit(BankAmount(g), n), EvenSplit(g.payload.payableAmount, n);
    if n > 0 {
      EvenSplitIsEven(BankAmount(g), n);
      EvenSplitIsEven(g.payload.payableAmount, n);
      if BankRows(b, g) == FreeRows(b, g.competition, g.coach, g.payload) {
        forall k | 0 <= k < n ensures bank[k] == free[k] {
          assert BankRows(b, g)[k].payableAmount == FreeRows(b, g.competition, g.coach, g.payload)[k].payableAmount;
        }
        assert bank == free;
      }
    }
  }

  /** The payload of a group that `post` makes carries the group's amount. */
  lemma PostedGroup(w: World, req: PostRequest)
    ensures var (v, answer) := PostGroup(w, req);
      && |w.groups| <= |v.groups| <= |w.groups| + 1
      && forall g :: |w.groups| <= g < |v.groups| ==>
           v.groups[g].payload.payableAmount == v.groups[g].totalAmount && v.groups[g].payload.items == req.items
  {
    hide EnrollEach, Commit, FreeRows, FirstEligible;
  }

  predicate SameRowButRef(x: Enrollment, y: Enrollment) {
    x.(bankRefCode := "") == y.(bankRefCode := "")
  }

  /** Equal books, except for the bank references of enrollments. */
  ghost predicate SameButRefs(b: Book, c: Book) {
    && b.standings == c.standings && b.info == c.info && b.clubBoard == c.clubBoard
    && b.awards == c.awards && b.ledger == c.ledger && b.results == c.results
    && |b.enrollments| == |c.enrollments| && |b.queue| == |c.queue|
    && (forall k :: 0 <= k < |b.enrollments| ==> SameRowButRef(b.enrollments[k], c.enrollments[k]))
    && (forall k :: 0 <= k < |b.queue| ==>
          b.queue[k].enrollment == c.queue[k].enrollment && SameRowButRef(b.queue[k].row, c.queue[k].row))
  }

  lemma AwardPointsAgree(b: Book, c: Book, e: Id, x: Enrollment, y: Enrollment)
    requires SameButRefs(b, c) && SameRowButRef(x, y)
    ensures SameButRefs(AwardPoints(b, e, x), AwardPoints(c, e, y))
  {
    assert x.player == x.(bankRefCode := "").player && y.player == y.(bankRefCode := "").player;
    assert x.coach == x.(bankRefCode := "").coach && y.coach == y.(bankRefCode := "").coach;
    assert x.club == x.(bankRefCode := "").club && y.club == y.(bankRefCode := "").club;
    assert x.board == x.(bankRefCode := "").board && y.board == y.(bankRefCode := "").board;
    assert AwardFor(b, e, x) == AwardFor(c, e, y);
    assert HasAward(b, e) <==> HasAward(c, e);
  }

  lemma SaveRowAgree(b: Book, c: Book, e: Id, x: Enrollment, y: Enrollment)
    requires SameButRefs(b, c) && SameRowButRef(x, y) && e < |b.enrollments|
    ensures SameButRefs(SaveRow(b, e, x), SaveRow(c, e, y))
  {
    assert x.isPaid == x.(bankRefCode := "").isPaid && y.isPaid == y.(bankRefCode := "").isPaid;
    assert HasAward(b.(enrollments := b.enrollments[e := x]), e) <==> HasAward(c.(enrollments := c.enrollments[e := y]), e);
  }

  lemma EnrollOneAgree(b: Book, c: Book, row: Enrollment, r: string, q: string)
    requires SameButRefs(b, c) && !row.isPaid
    ensures SameButRefs(EnrollOne(b, row, r), EnrollOne(c, row, q))
  {
    var n := |b.enrollments|;
    var b', c' := CreateEnrollment(b, row), CreateEnrollment(c, row);
    var x, y := PaidRow(row, row.payableAmount, r), PaidRow(row, row.payableAmount, q);
    assert SameButRefs(b', c');
    SaveRowAgree(b', c', n, x, y);
    AwardPointsAgree(SaveRow(b', n, x), SaveRow(c', n, y), n, x, y);
  }

  lemma {:induction false} EnrollEachAgree(b: Book, c: Book, rows: seq<Enrollment>, r: string, q: string)
    requires SameButRefs(b, c) && Unpaid(rows)
    ensures SameButRefs(EnrollEach(b, rows, r), EnrollEach(c, rows, q))
  {
    if rows != [] {
      var init, last := rows[..|rows| - 1], rows[|rows| - 1];
      EnrollEachAgree(b, c, init, r, q);
      EnrollOneAgree(EnrollEach(b, init, r), EnrollEach(c, init, q), last, r, q);
    }
  }

  lemma {:induction false} CommitAgree(b: Book, c: Book)
    requires SameButRefs(b, c)
    ensures SameButRefs(Commit(b), Commit(c))
    decreases |b.queue|
  {
    if b.queue != [] {
      AwardPointsAgree(b.(queue := b.queue[1..]), c.(queue := c.queue[1..]),
                       b.queue[0].enrollment, b.queue[0].row, c.queue[0].row);
      CommitAgree(RunCallback(b), RunCallback(c));
    }
  }

  /** For a group whose payload carries its amount, settling through the bank and
      settling for free leave the same enrollments, awards and standings, apart
      from the bank references. */
  lemma FinalisersAgree(b: Book, g: Group, bankRef: string, freeRef: string)
    requires g.payload.payableAmount != 0 || g.totalAmount == 0
    ensures SameButRefs(Commit(EnrollEach(b, BankRows(b, g), bankRef)),
                        Commit(EnrollEach(b, FreeRows(b, g.competition, g.coach, g.payload), freeRef)))
  {
    var rows := BankRows(b, g);
    SameRowsIff(b, g);
    EnrollEachAgree(b, b, rows, bankRef, freeRef);
    CommitAgree(EnrollEach(b, rows, bankRef), EnrollEach(b, rows, freeRef));
  }

  // ---------- what was paid in ----------

  /** The sum of `paid_amount` over a list of enrollment ids. */
  function PaidTotal(enrollments: seq<Enrollment>, ids: seq<Id>): int {
    if ids == [] then 0
    else
      var e := ids[|ids| - 1];
      PaidTotal(enrollments, ids[..|ids| - 1]) + (if e < |enrollments| then enrollments[e].paidAmount else 0)
  }

  lemma {:induction false} PaidTotalIsSum(enrollments: seq<Enrollment>, ids: seq<Id>, parts: seq<int>)
    requires |ids| == |parts|
    requires forall k :: 0 <= k < |ids| ==> ids[k] < |enrollments| && enrollments[ids[k]].paidAmount == parts[k]
    ensures PaidTotal(enrollments, ids) == Sum(parts)
  {
    if ids != [] {
      PaidTotalIsSum(enrollments, ids[..|ids| - 1], parts[..|parts| - 1]);
    }
  }

  // ---------- payments move the ranking book by ranking steps ----------

  /** Some run of ranking events leads from one book to the other, and takes no
      payment back. */
  ghost predicate Reaches(b: Book, c: Book) {
    exists evs: seq<Event> :: Run(b, evs) == c && NeverUnpays(b, evs)
  }

  lemma ReachesItself(b: Book)
    ensures Reaches(b, b)
  {
    assert Run(b, []) == b;
  }

  lemma ReachesStep(b: Book, c: Book, ev: Event)
    requires Reaches(b, c) && KeepsPaid(c, ev)
    ensures Reaches(b, Step(c, ev))
  {
    var evs :| Run(b, evs) == c && NeverUnpays(b, evs);
    assert (evs + [ev])[..|evs + [ev]| - 1] == evs;
    assert Run(b, evs + [ev]) == Step(c, ev);
  }

  lemma {:induction false} ReachesTransitive(b: Book, c: Book, evs: seq<Event>)
    requires Reaches(b, c) && NeverUnpays(c, evs)
    ensures Reaches(b, Run(c, evs))
  {
    if evs != [] {
      ReachesTransitive(b, c, evs[..|evs| - 1]);
      ReachesStep(b, Run(c, evs[..|evs| - 1]), evs[|evs| - 1]);
    }
  }

  lemma {:induction false} CommitReaches(b: Book, c: Book)
    requires Reaches(b, c)
    ensures Reaches(b, Commit(c))
    decreases |c.queue|
  {
    if c.queue != [] {
      ReachesStep(b, c, CommitCallback);
      CommitReaches(b, RunCallback(c));
    }
  }

  lemma {:induction false} EnrollEachReaches(b: Book, rows: seq<Enrollment>, ref: string)
    ensures Reaches(b, EnrollEach(b, rows, ref))
  {
    if rows == [] {
      ReachesItself(b);
    } else {
      var before, row := EnrollEach(b, rows[..|rows| - 1], ref), rows[|rows| - 1];
      EnrollEachReaches(b, rows[..|rows| - 1], ref);
      ReachesStep(b, before, NewEnrollment(row));
      ReachesStep(b, CreateEnrollment(before, row), PayEnrollment(|before.enrollments|, row.payableAmount, ref));
    }
  }

  lemma {:induction false} SettleAllReaches(b: Book, targets: seq<Id>, ref: string)
    ensures Reaches(b, SettleAll(b, targets, ref))
  {
    if targets == [] {
      ReachesItself(b);
    } else {
      SettleAllReaches(b, targets[..|targets| - 1], ref);
      ReachesStep(b, SettleAll(b, targets[..|targets| - 1], ref), SettleTarget(targets[|targets| - 1], None, ref));
    }
  }

  lemma ApplyToTargetsReaches(b: Book, intent: Intent)
    ensures Reaches(b, ApplyToTargets(b, intent))
  {
    SettleAllReaches(b, intent.enrollments, intent.refId);
    if intent.enrollment.Some? {
      ReachesStep(b, SettleAll(b, intent.enrollments, intent.refId),
                  SettleTarget(intent.enrollment.value, Some(intent.amount), intent.refId));
    }
  }
}
