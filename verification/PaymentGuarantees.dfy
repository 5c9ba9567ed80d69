/** The guarantees over whole runs, built from the per-step facts. */
module PaymentGuarantees {
  import opened Common
  import opened Text
  import opened Discounts
  import opened RankingBook
  import opened Payments
  import opened PaymentRuns
  import opened PaymentInvariants

  // ---------- prices ----------

  /** What an intent's three amounts must satisfy. */
  predicate Priced(codes: seq<Code>, intent: Intent) {
    && intent.amount + intent.discountAmount == intent.originalAmount
    && 0 <= intent.amount && 0 <= intent.discountAmount
    && (intent.discountCode.None? ==> intent.discountAmount == 0)
    && (intent.discountCode.Some? ==>
          && intent.discountCode.value < |codes|
          && intent.discountAmount == PercentOf(intent.originalAmount, codes[intent.discountCode.value].percent))
  }

  ghost predicate PricesAddUp(w: World) {
    forall i :: 0 <= i < |w.intents| ==> Priced(w.codes, w.intents[i])
  }

  /** An intent made by `create_intent` is free or worth at least 10,000 rials. */
  lemma CreatedAmount(w: World, base: int, competition: Option<Id>, text: string, description: string, gateway: Gateway)
    ensures var (v, answer) := CreateIntent(w, base, competition, text, description, gateway);
      && (answer.Rejected? ==> v == w)
      && (answer.CreatedIntent? ==>
            && answer.id == |w.intents| && |v.intents| == |w.intents| + 1
            && v.intents[answer.id].originalAmount == base && Priced(w.codes, v.intents[answer.id])
            && (v.intents[answer.id].amount == 0 || v.intents[answer.id].amount >= MINIMUM_RIALS))
  {
    QuoteExact(w.codes, competition, base, text);
  }

  lemma PostQuoteExact(w: World, req: PostRequest)
    ensures var q := PostQuote(w, req);
      q.Quote? ==>
        && q.finalAmount + q.discount == req.entryFee * |req.items| && 0 <= q.finalAmount && 0 <= q.discount
        && (q.code.None? ==> q.discount == 0)
        && (q.code.Some? ==>
              && q.code.value < |w.codes|
              && q.discount == PercentOf(req.entryFee * |req.items|, w.codes[q.code.value].percent))
  {
  }

  /** No step makes more than one intent; a new one is priced and has no targets. */
  lemma NewIntents(w: World, a: Action)
    ensures var v := Act(w, a);
      && |w.intents| <= |v.intents|
      && forall i :: |w.intents| <= i < |v.intents| ==>
           && Priced(w.codes, v.intents[i]) && TargetsOf(v.intents[i]) == {}
           && v.intents[i].status == Initiated
  {
    ActMoves(w, a);
    match a
    case Create(base, competition, text, description, gateway) =>
      CreatedAmount(w, base, competition, text, description, gateway);
    case Post(req) => PostQuoteExact(w, req);
    case Start(_, _, _) => SameLength(w, a);
    case Result(_, _) => SameLength(w, a);
    case _ =>
  }

  lemma SameLength(w: World, a: Action)
    requires a.Start? || a.Result?
    ensures |Act(w, a).intents| == |w.intents|
  {
    hide Commit, SettleAll, EnrollEach, FindByToken, FindByRef, SearchMark;
    match a
    case Start(i, req, bank) =>
    case Result(tc, fails) =>
      var k := FindBank(w.banks, tc, 0);
      if k.Some? && FindIntent(w, tc, k.value).Some? {
        var bank, i := w.banks[k.value], FindIntent(w, tc, k.value).value;
        var ref := PaidRef(bank, w.intents[i], tc);
        MarkIntentPaidMoves(w, i, ref);
        var paid := if w.intents[i].status == IntentPaid then w else Committed(MarkIntentPaid(w, i, ref));
        FinalizeGroupMoves(paid, w.intents[i].description, GroupRef(bank, tc));
      }
  }

  lemma ActKeepsPrices(w: World, a: Action)
    requires PricesAddUp(w)
    ensures PricesAddUp(Act(w, a))
  {
    var v := Act(w, a);
    ActMoves(w, a);
    NewIntents(w, a);
    forall i | 0 <= i < |v.intents| ensures Priced(v.codes, v.intents[i]) {
      var x := if i < |w.intents| then w.intents[i] else v.intents[i];
      assert Priced(w.codes, x) && SameTerms(x, v.intents[i]);
      if x.discountCode.Some? {
        assert CodeMoves(w.codes[x.discountCode.value], v.codes[x.discountCode.value]);
      }
    }
  }

  // ---------- nothing small is sent to the bank ----------

  ghost predicate BankAmounts(w: World) {
    && (forall k :: 0 <= k < |w.banks| ==> w.banks[k].amount >= MINIMUM_RIALS)
    && (forall i :: 0 <= i < |w.intents| && w.intents[i].status == Redirected ==> w.intents[i].amount >= MINIMUM_RIALS)
  }

  lemma MarkKeepsBankAmounts(w: World, i: Id, ref: string)
    requires BankAmounts(w) && i < |w.intents|
    ensures BankAmounts(Committed(MarkIntentPaid(w, i, ref)))
  {
  }

  lemma StartKeepsBankAmounts(w: World, i: Id, req: StartRequest, bank: BankStart)
    requires BankAmounts(w)
    ensures BankAmounts(StartPayment(w, i, req, bank).0)
  {
  }

  lemma ResultKeepsBankAmounts(w: World, tc: string, fails: bool)
    requires BankAmounts(w)
    ensures BankAmounts(PaymentResult(w, tc, fails).0)
  {
    hide EnrollEach, Commit, SearchMark, BankRows, FindByToken, FindByRef, FindBank;
    var k := FindBank(w.banks, tc, 0);
    if k.Some? && FindIntent(w, tc, k.value).Some? {
      var bank, i := w.banks[k.value], FindIntent(w, tc, k.value).value;
      var ref := PaidRef(bank, w.intents[i], tc);
      MarkKeepsBankAmounts(w, i, ref);
      var paid := if w.intents[i].status == IntentPaid then w else Committed(MarkIntentPaid(w, i, ref));
      FinalizeGroupMoves(paid, w.intents[i].description, GroupRef(bank, tc));
    }
  }

  lemma ActKeepsBankAmounts(w: World, a: Action)
    requires BankAmounts(w)
    ensures BankAmounts(Act(w, a))
  {
    hide EnrollEach, Commit, SearchMark, BankRows, FreeRows, FindByToken, FindByRef, FindBank;
    match a
    case Start(i, req, bank) => StartKeepsBankAmounts(w, i, req, bank);
    case Result(tc, fails) => ResultKeepsBankAmounts(w, tc, fails);
    case _ =>
  }

  // ---------- the targets of a paid intent are paid ----------

  ghost predicate TargetsExist(w: World) {
    forall i :: 0 <= i < |w.intents| ==> forall e :: e in TargetsOf(w.intents[i]) ==> e < |w.book.enrollments|
  }

  predicate TargetsPaid(b: Book, intent: Intent) {
    forall e :: e in TargetsOf(intent) ==> e < |b.enrollments| && b.enrollments[e].isPaid
  }

  ghost predicate PaidIntentsSettled(w: World) {
    forall i :: 0 <= i < |w.intents| && w.intents[i].status == IntentPaid ==> TargetsPaid(w.book, w.intents[i])
  }

  lemma TargetsStayPaid(b: Book, c: Book, x: Intent, y: Intent, touched: set<Id>)
    requires BookKeeps(b, c, touched) && SameTerms(x, y) && TargetsPaid(b, x)
    ensures TargetsPaid(c, y)
  {
    assert TargetsOf(x) == TargetsOf(y);
  }

  lemma MarkKeepsSettled(w: World, i: Id, ref: string)
    requires i < |w.intents| && TargetsExist(w) && PaidIntentsSettled(w)
    ensures PaidIntentsSettled(Committed(MarkIntentPaid(w, i, ref)))
  {
    var v := Committed(MarkIntentPaid(w, i, ref));
    MarkIntentPaidMoves(w, i, ref);
    forall j | 0 <= j < |v.intents| && v.intents[j].status == IntentPaid ensures TargetsPaid(v.book, v.intents[j]) {
      assert SameTerms(w.intents[j], v.intents[j]);
      if w.intents[j].status == IntentPaid {
        TargetsStayPaid(w.book, v.book, w.intents[j], v.intents[j], TargetsOf(w.intents[i]));
      } else {
        assert TargetsOf(v.intents[j]) == TargetsOf(w.intents[i]);
      }
    }
  }

  /** Steps that only add unpaid intents, or leave statuses alone. */
  lemma NoneNewlyPaid(w: World, v: World, touched: set<Id>)
    requires PaidIntentsSettled(w) && Evolves(w, v) && BookKeeps(w.book, v.book, touched)
    requires forall i :: 0 <= i < |v.intents| && v.intents[i].status == IntentPaid
                         ==> i < |w.intents| && w.intents[i].status == IntentPaid
    ensures PaidIntentsSettled(v)
  {
    forall i | 0 <= i < |v.intents| && v.intents[i].status == IntentPaid ensures TargetsPaid(v.book, v.intents[i]) {
      TargetsStayPaid(w.book, v.book, w.intents[i], v.intents[i], touched);
    }
  }

  lemma ActKeepsSettled(w: World, a: Action)
    requires TargetsExist(w) && PaidIntentsSettled(w)
    ensures TargetsExist(Act(w, a)) && PaidIntentsSettled(Act(w, a))
  {
    var v := Act(w, a);
    ActMoves(w, a);
    NewIntents(w, a);
    assert TargetsExist(v) by {
      forall i | 0 <= i < |w.intents| ensures TargetsOf(v.intents[i]) == TargetsOf(w.intents[i]) {
        assert SameTerms(w.intents[i], v.intents[i]);
      }
    }
    match a
    case Start(i, req, bank) => StartKeepsSettled(w, i, req, bank);
    case Result(tc, fails) => ResultKeepsSettled(w, tc, fails);
    case _ => NoneNewlyPaid(w, v, AllTargets(w));
  }

  /** Foreign keys: the targets and the code of every intent are existing rows. */
  ghost predicate RowsExist(w: World) {
    TargetsExist(w) && forall i :: 0 <= i < |w.intents| && w.intents[i].discountCode.Some? ==> w.intents[i].discountCode.value < |w.codes|
  }

  lemma ActKeepsRowsExist(w: World, a: Action)
    requires RowsExist(w)
    ensures RowsExist(Act(w, a))
  {
    hide Act;
    var v := Act(w, a);
    ActMoves(w, a);
    NewIntents(w, a);
    forall i | 0 <= i < |w.intents| ensures TargetsOf(v.intents[i]) == TargetsOf(w.intents[i]) {
      assert SameTerms(w.intents[i], v.intents[i]);
    }
    forall i | 0 <= i < |v.intents| && v.intents[i].discountCode.Some? ensures v.intents[i].discountCode.value < |v.codes| {
      if i < |w.intents| {
        assert SameTerms(w.intents[i], v.intents[i]);
      } else {
        assert Priced(w.codes, v.intents[i]);
      }
    }
  }

  lemma StartKeepsSettled(w: World, i: Id, req: StartRequest, bank: BankStart)
    requires TargetsExist(w) && PaidIntentsSettled(w)
    ensures PaidIntentsSettled(StartPayment(w, i, req, bank).0)
  {
    hide Commit, SettleAll;
    var v := StartPayment(w, i, req, bank).0;
    if i < |w.intents| && w.intents[i].status != IntentPaid {
      var begun := w.(intents := w.intents[i := w.intents[i].(gateway := req.gateway)]);
      assert TargetsOf(begun.intents[i]) == TargetsOf(w.intents[i]);
      NoneNewlyPaid(w, begun, {});
      MarkKeepsSettled(begun, i, FirstNonEmpty(w.intents[i].refId, "FREE-0-RIAL"));
      MarkKeepsSettled(begun, i, FirstNonEmpty(w.intents[i].refId, "DUMMY-REF"));
      if StartPayment(w, i, req, bank).1 in {BankFailed, SentToBank} {
        StartMoves(w, i, req, bank);
        NoneNewlyPaid(w, v, AllTargets(w));
      }
    }
  }

  lemma ResultKeepsSettled(w: World, tc: string, fails: bool)
    requires TargetsExist(w) && PaidIntentsSettled(w)
    ensures PaidIntentsSettled(PaymentResult(w, tc, fails).0)
  {
    var v := PaymentResult(w, tc, fails).0;
    var k := FindBank(w.banks, tc, 0);
    if k.Some? && FindIntent(w, tc, k.value).Some? {
      var bank, i := w.banks[k.value], FindIntent(w, tc, k.value).value;
      if bank.isSuccess {
        var ref := PaidRef(bank, w.intents[i], tc);
        MarkKeepsSettled(w, i, ref);
        var paid := if w.intents[i].status == IntentPaid then w else Committed(MarkIntentPaid(w, i, ref));
        FinalizeGroupMoves(paid, w.intents[i].description, GroupRef(bank, tc));
        var f := FinalizeGroup(paid, w.intents[i].description, GroupRef(bank, tc));
        if f.Finalised? {
          NoneNewlyPaid(paid, f.world, {});
        }
      } else {
        ResultMoves(w, tc, fails);
        NoneNewlyPaid(w, v, AllTargets(w));
      }
    }
  }

  /** `paid` is absorbing: over any run an intent once paid stays paid, with the same
      amounts and targets, and its targets stay paid. */
  lemma PaidIsAbsorbing(w: World, acts: seq<Action>, i: Id)
    requires TargetsExist(w) && PaidIntentsSettled(w)
    requires i < |w.intents| && w.intents[i].status == IntentPaid
    ensures var v := ActAll(w, acts);
      && i < |v.intents| && v.intents[i].status == IntentPaid
      && SameTerms(w.intents[i], v.intents[i]) && TargetsPaid(v.book, v.intents[i])
  {
    ActAllMoves(w, acts);
    ActAllKeepsSettled(w, acts);
  }

  lemma {:induction false} ActAllKeepsSettled(w: World, acts: seq<Action>)
    requires TargetsExist(w) && PaidIntentsSettled(w)
    ensures TargetsExist(ActAll(w, acts)) && PaidIntentsSettled(ActAll(w, acts))
  {
    if acts != [] {
      ActAllKeepsSettled(w, acts[..|acts| - 1]);
      ActKeepsSettled(ActAll(w, acts[..|acts| - 1]), acts[|acts| - 1]);
    }
  }

  lemma {:induction false} PricesAndBankAmounts(w: World, acts: seq<Action>)
    requires PricesAddUp(w) && BankAmounts(w)
    ensures PricesAddUp(ActAll(w, acts)) && BankAmounts(ActAll(w, acts))
  {
    if acts != [] {
      PricesAndBankAmounts(w, acts[..|acts| - 1]);
      ActKeepsPrices(ActAll(w, acts[..|acts| - 1]), acts[|acts| - 1]);
      ActKeepsBankAmounts(ActAll(w, acts[..|acts| - 1]), acts[|acts| - 1]);
    }
  }
}
