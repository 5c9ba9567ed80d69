/** The life of one intent: how its status moves, why it becomes paid, and what that
    writes to its targets. */
module IntentStates {
  import opened Common
  import opened Text
  import opened Discounts
  import opened RankingBook
  import opened Payments
  import opened GroupLaws
  import opened PaymentRuns
  import opened PaymentInvariants

  /** The ways an unpaid intent can become paid in one step: nothing to pay, the dummy
      gateway, or a bank record that says so. */
  ghost predicate MayPay(w: World, a: Action, i: Id)
    requires i < |w.intents|
  {
    || (a.Start? && a.i == i && (w.intents[i].amount <= 0 || a.req.gateway == DummyGateway))
    || (a.Result? && exists k: Id :: k < |w.banks| && w.banks[k].isSuccess && w.banks[k].trackingCode == a.tc
                       && (w.intents[i].token == a.tc || w.intents[i].refId == Decimal(k)))
  }

  lemma ResultStatus(w: World, tc: string, fails: bool, i: Id)
    requires i < |w.intents|
    ensures var v := PaymentResult(w, tc, fails).0;
      && |v.intents| == |w.intents|
      && (v.intents[i].status != w.intents[i].status ==> v.intents[i].status in {IntentPaid, Failed})
      && (v.intents[i].status == IntentPaid && w.intents[i].status != IntentPaid ==> MayPay(w, Result(tc, fails), i))
  {
    hide EnrollEach, Commit, SearchMark, BankRows, FindByToken, FindByRef, FindBank, SettleAll;
    var k := FindBank(w.banks, tc, 0);
    if k.Some? && FindIntent(w, tc, k.value).Some? {
      var bank, j := w.banks[k.value], FindIntent(w, tc, k.value).value;
      var ref := PaidRef(bank, w.intents[j], tc);
      MarkIntentPaidMoves(w, j, ref);
      var paid := if w.intents[j].status == IntentPaid then w else Committed(MarkIntentPaid(w, j, ref));
      FinalizeGroupMoves(paid, w.intents[j].description, GroupRef(bank, tc));
      assert w.intents[j].token == tc || w.intents[j].refId == Decimal(k.value);
    }
  }

  lemma DispatchStatus(w: World, i: Id, credentials: bool, bank: BankStart, j: Id)
    requires i < |w.intents| && j < |w.intents| && w.intents[i].status != IntentPaid
    ensures var (v, answer) := Dispatch(w, i, credentials, bank);
      && |v.intents| == |w.intents|
      && (j != i ==> v.intents[j] == w.intents[j])
      && (v.intents[i].status == IntentPaid <==> w.intents[i].amount <= 0 || w.intents[i].gateway == DummyGateway)
      && (v.intents[i].status != w.intents[i].status ==> v.intents[i].status in {Redirected, IntentPaid, Failed})
      && (answer.SentToBank? <==> v.banks != w.banks)
      && (answer.SentToBank? ==>
            && v.intents[i].status == Redirected
            && v.banks == w.banks + [BankRecord(i, v.intents[i].token, w.intents[i].amount, false, "", "")])
  {
    hide Commit, SettleAll;
    MarkIntentPaidMoves(w, i, FirstNonEmpty(w.intents[i].refId, "FREE-0-RIAL"));
    MarkIntentPaidMoves(w, i, FirstNonEmpty(w.intents[i].refId, "DUMMY-REF"));
  }

  /** No step sends an intent back to `initiated`, and one becomes paid only for a
      reason. */
  lemma StatusMoves(w: World, a: Action, i: Id)
    requires i < |w.intents|
    ensures var v := Act(w, a);
      && i < |v.intents|
      && (v.intents[i].status != w.intents[i].status ==>
            w.intents[i].status != IntentPaid && v.intents[i].status in {Redirected, IntentPaid, Failed})
      && (v.intents[i].status == IntentPaid && w.intents[i].status != IntentPaid ==> MayPay(w, a, i))
  {
    ActMoves(w, a);
    match a
    case Start(j, req, bank) =>
      if j < |w.intents| && w.intents[j].status != IntentPaid {
        DispatchStatus(w.(intents := w.intents[j := w.intents[j].(gateway := req.gateway)]), j, req.credentials, bank, i);
      }
    case Result(tc, fails) => ResultStatus(w, tc, fails, i);
    case _ => OtherStatus(w, a, i);
  }

  lemma OtherStatus(w: World, a: Action, i: Id)
    requires i < |w.intents| && !a.Start? && !a.Result?
    ensures i < |Act(w, a).intents| && Act(w, a).intents[i].status == w.intents[i].status
  {
    hide EnrollEach, Commit, FreeRows, FirstEligible;
  }

  /** Over any run an intent that ends up paid was paid by one of its steps, for one
      of the three reasons. */
  lemma {:induction false} PaidForAReason(w: World, acts: seq<Action>, i: Id)
    requires i < |w.intents| && w.intents[i].status != IntentPaid
    ensures i < |ActAll(w, acts).intents|
    ensures ActAll(w, acts).intents[i].status == IntentPaid ==>
      exists m :: 0 <= m < |acts| && i < |ActAll(w, acts[..m]).intents| && MayPay(ActAll(w, acts[..m]), acts[m], i)
  {
    if acts != [] {
      var n := |acts| - 1;
      var before := ActAll(w, acts[..n]);
      PaidForAReason(w, acts[..n], i);
      StatusMoves(before, acts[n], i);
      if before.intents[i].status == IntentPaid {
        var m :| 0 <= m < n && i < |ActAll(w, acts[..n][..m]).intents| && MayPay(ActAll(w, acts[..n][..m]), acts[..n][m], i);
        assert acts[..n][..m] == acts[..m];
      }
    }
  }

  // ---------- what being paid writes to the targets ----------

  lemma SettledOne(b: Book, t: Id, amount: Option<int>, ref: string)
    ensures var c := SettleEnrollment(b, t, amount, ref);
      && |c.enrollments| == |b.enrollments|
      && forall e :: 0 <= e < |b.enrollments| ==>
           c.enrollments[e] == if e == t then SettledRow(b.enrollments[e], amount, ref) else b.enrollments[e]
  {
  }

  lemma {:induction false} SettledRows(b: Book, targets: seq<Id>, ref: string)
    ensures var c := SettleAll(b, targets, ref);
      && |c.enrollments| == |b.enrollments|
      && forall e :: 0 <= e < |b.enrollments| ==>
           c.enrollments[e] == if e in targets then SettledRow(b.enrollments[e], None, ref) else b.enrollments[e]
  {
    hide SettleEnrollment;
    if targets != [] {
      var init, last := targets[..|targets| - 1], targets[|targets| - 1];
      assert forall e :: e in targets <==> e in init || e == last;
      SettledRows(b, init, ref);
      SettledOne(SettleAll(b, init, ref), last, None, ref);
    }
  }

  /** The row takes the reference only if it has none; besides that, its status and what
      says that it is paid, it does not change. */
  predicate PaidWith(was: Enrollment, now: Enrollment, ref: string) {
    && (was.bankRefCode == "" ==> now.bankRefCode == ref)
    && (was.bankRefCode != "" ==> now.bankRefCode == was.bankRefCode)
    && now.(isPaid := was.isPaid, paidAmount := was.paidAmount, bankRefCode := was.bankRefCode, status := was.status) == was
  }

  /** One enrollment before and after an intent is applied to its targets. */
  lemma AppliedRow(b: Book, x: Intent, e: Id)
    requires e < |b.enrollments|
    ensures var c := ApplyToTargets(b, x); var was := b.enrollments[e];
      && |c.enrollments| == |b.enrollments|
      && (e !in TargetsOf(x) ==> c.enrollments[e] == was)
      && (e in TargetsOf(x) ==> c.enrollments[e].isPaid && c.enrollments[e].status == Paid && SameEntry(was, c.enrollments[e]))
      && (e in TargetsOf(x) && x.enrollment != Some(e) ==> c.enrollments[e].paidAmount == was.paidAmount)
      && (x.enrollment == Some(e) ==>
            c.enrollments[e].paidAmount == if was.paidAmount == 0 then x.amount else was.paidAmount)
      && (e in TargetsOf(x) ==> PaidWith(was, c.enrollments[e], x.refId))
  {
    hide SettleAll, SettleEnrollment;
    SettledRows(b, x.enrollments, x.refId);
    if x.enrollment.Some? {
      SettledOne(SettleAll(b, x.enrollments, x.refId), x.enrollment.value, Some(x.amount), x.refId);
    }
  }

  /** Paying an intent: bulk targets are paid and keep their own amounts; a single
      target is paid and takes the intent's amount unless it has one; no other
      enrollment changes. */
  lemma TargetsWritten(w: World, i: Id, ref: string, e: Id)
    requires i < |w.intents| && w.intents[i].status != IntentPaid && e < |w.book.enrollments|
    ensures |Committed(MarkIntentPaid(w, i, ref)).book.enrollments| == |w.book.enrollments|
    ensures var v, x := Committed(MarkIntentPaid(w, i, ref)), w.intents[i];
      var was, now := w.book.enrollments[e], v.book.enrollments[e];
      && (e !in TargetsOf(x) ==> now == was)
      && (e in TargetsOf(x) ==> now.isPaid && now.status == Paid && SameEntry(was, now))
      && (e in TargetsOf(x) && x.enrollment != Some(e) ==> now.paidAmount == was.paidAmount)
      && (x.enrollment == Some(e) ==>
            now.paidAmount == if was.paidAmount == 0 then x.amount else was.paidAmount)
      && (e in TargetsOf(x) ==> PaidWith(was, now, if ref != "" then ref else x.refId))
  {
    hide ApplyToTargets, Commit, SameEntry, PaidWith;
    var x := w.intents[i].(refId := FirstNonEmpty(ref, w.intents[i].refId), status := IntentPaid);
    AppliedRow(w.book, x, e);
    CommitKeepsTables(MarkIntentPaid(w, i, ref).book);
    assert TargetsOf(x) == TargetsOf(w.intents[i]);
  }
}
