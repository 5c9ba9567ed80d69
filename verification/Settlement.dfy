/** Handling one successful bank record again and again. */
module Settlement {
  import opened Common
  import opened Text
  import opened RankingBook
  import opened Payments
  import opened PaymentInvariants
  import opened GroupGuarantees

  /** The bank knows this tracking code, says it was paid, and an intent is found. */
  predicate Settles(w: World, tc: string) {
    && tc != ""
    && FindBank(w.banks, tc, 0).Some?
    && w.banks[FindBank(w.banks, tc, 0).value].isSuccess
    && FindIntent(w, tc, FindBank(w.banks, tc, 0).value).Some?
  }

  function BankOf(w: World, tc: string): Id
    requires Settles(w, tc)
  {
    FindBank(w.banks, tc, 0).value
  }

  function IntentOf(w: World, tc: string): (i: Id)
    requires Settles(w, tc)
    ensures i < |w.intents|
  {
    FindIntent(w, tc, BankOf(w, tc)).value
  }

  function RefOf(w: World, tc: string): string
    requires Settles(w, tc)
  {
    PaidRef(w.banks[BankOf(w, tc)], w.intents[IntentOf(w, tc)], tc)
  }

  /** The record leads to the same intent after it was marked paid: it was found by
      its token, or is paid already, or keeps the bank id as its reference. */
  predicate FoundAgain(w: World, tc: string)
    requires Settles(w, tc)
  {
    || FindByToken(w.intents, tc, |w.intents|).Some?
    || w.intents[IntentOf(w, tc)].status == IntentPaid
    || RefOf(w, tc) == Decimal(BankOf(w, tc))
  }

  /** The state between the two transactions: intent paid, group not finalised. */
  function PaidWorld(w: World, tc: string): World
    requires Settles(w, tc)
  {
    if w.intents[IntentOf(w, tc)].status == IntentPaid then w
    else Committed(MarkIntentPaid(w, IntentOf(w, tc), RefOf(w, tc)))
  }

  lemma {:induction false} TokensUnchanged(xs: seq<Intent>, ys: seq<Intent>, tc: string, n: nat)
    requires |xs| == |ys| && n <= |xs| && forall k :: 0 <= k < |xs| ==> xs[k].token == ys[k].token
    ensures FindByToken(xs, tc, n) == FindByToken(ys, tc, n)
  {
    if n > 0 {
      TokensUnchanged(xs, ys, tc, n - 1);
    }
  }

  lemma {:induction false} RefKept(xs: seq<Intent>, ys: seq<Intent>, ref: string, n: nat, i: nat)
    requires |xs| == |ys| && n <= |xs| && i < |xs|
    requires FindByRef(xs, ref, n) == Some(i) && ys[i].refId == ref
    requires forall k :: 0 <= k < |xs| && k != i ==> xs[k] == ys[k]
    ensures FindByRef(ys, ref, n) == Some(i)
  {
    if n > 0 && n - 1 != i {
      RefKept(xs, ys, ref, n - 1, i);
    }
  }

  lemma MarkedIntents(w: World, tc: string)
    requires Settles(w, tc)
    ensures var v, i := PaidWorld(w, tc), IntentOf(w, tc);
      && |v.intents| == |w.intents| && v.banks == w.banks && v.groups == w.groups
      && v.intents[i].status == IntentPaid
      && (forall k :: 0 <= k < |w.intents| && k != i ==> v.intents[k] == w.intents[k])
      && SameTerms(w.intents[i], v.intents[i]) && v.intents[i].token == w.intents[i].token
      && (w.intents[i].status != IntentPaid ==> v.intents[i].refId == RefOf(w, tc))
      && v.book.info == w.book.info
  {
    MarkIntentPaidMoves(w, IntentOf(w, tc), RefOf(w, tc));
    assert RefOf(w, tc) != "";
  }

  /** After the intent was marked paid the record still leads to it. */
  lemma LookupSurvives(w: World, tc: string)
    requires Settles(w, tc) && FoundAgain(w, tc)
    ensures Settles(PaidWorld(w, tc), tc) && IntentOf(PaidWorld(w, tc), tc) == IntentOf(w, tc)
    ensures PaidWorld(PaidWorld(w, tc), tc) == PaidWorld(w, tc)
  {
    var v, i := PaidWorld(w, tc), IntentOf(w, tc);
    MarkedIntents(w, tc);
    if v != w {
      TokensUnchanged(w.intents, v.intents, tc, |w.intents|);
      if FindByToken(w.intents, tc, |w.intents|).None? {
        RefKept(w.intents, v.intents, Decimal(BankOf(w, tc)), |w.intents|, i);
      }
    }
  }

  /** What one handling of the record does, in terms of the paid state. */
  lemma HandlingIs(w: World, tc: string, fails: bool)
    requires Settles(w, tc)
    ensures var p, i := PaidWorld(w, tc), IntentOf(w, tc);
      var f := FinalizeGroup(p, w.intents[i].description, GroupRef(w.banks[BankOf(w, tc)], tc));
      PaymentResult(w, tc, fails) ==
        if fails || f.Raised? then (p, ToFrontend(true, Some(i), [])) else (f.world, ToFrontend(true, Some(i), f.ids))
  {
  }

  lemma FinalizeTwice(w: World, description: string, ref: string)
    ensures var f := FinalizeGroup(w, description, ref);
      f.Finalised? ==> FinalizeGroup(f.world, description, ref) == f
  {
    hide EnrollEach, Commit, SearchMark, BankRows;
  }

  /** A failed finalisation, retried, ends exactly as a clean run does; a finished
      one, repeated, changes nothing and answers with the same enrollments. */
  lemma HandleAgain(w: World, tc: string, first: bool)
    requires Settles(w, tc) && FoundAgain(w, tc)
    ensures var v := PaymentResult(w, tc, first).0;
      && Settles(v, tc) && FoundAgain(v, tc)
      && PaymentResult(v, tc, false) == PaymentResult(w, tc, false)
  {
    var p, i := PaidWorld(w, tc), IntentOf(w, tc);
    var bank := w.banks[BankOf(w, tc)];
    var f := FinalizeGroup(p, w.intents[i].description, GroupRef(bank, tc));
    HandlingIs(w, tc, first);
    HandlingIs(w, tc, false);
    MarkedIntents(w, tc);
    LookupSurvives(w, tc);
    HandlingIs(p, tc, false);
    if !first && f.Finalised? {
      var v := f.world;
      FinalizeGroupMoves(p, w.intents[i].description, GroupRef(bank, tc));
      assert v.intents == p.intents && v.banks == p.banks;
      assert FindIntent(v, tc, BankOf(p, tc)) == FindIntent(p, tc, BankOf(p, tc));
      FinalizeTwice(p, w.intents[i].description, GroupRef(bank, tc));
      HandlingIs(v, tc, false);
      assert PaidWorld(v, tc) == v;
    }
  }

  /** Handling a record many times; each handling may fail while finalising. */
  function HandleAll(w: World, tc: string, failures: seq<bool>): World {
    if failures == [] then w else PaymentResult(HandleAll(w, tc, failures[..|failures| - 1]), tc, failures[|failures| - 1]).0
  }

  lemma {:induction false} SettlementIsRetrySafe(w: World, tc: string, failures: seq<bool>)
    requires Settles(w, tc) && FoundAgain(w, tc)
    ensures var v := HandleAll(w, tc, failures);
      && Settles(v, tc) && FoundAgain(v, tc)
      && PaymentResult(v, tc, false) == PaymentResult(w, tc, false)
  {
    if failures != [] {
      var u := HandleAll(w, tc, failures[..|failures| - 1]);
      SettlementIsRetrySafe(w, tc, failures[..|failures| - 1]);
      HandleAgain(u, tc, failures[|failures| - 1]);
    }
  }

  // ---------- when the record does not lead back ----------

  /** The intent found names a group that finalising would settle. */
  predicate WouldSettleGroup(w: World, tc: string, g: Id)
    requires Settles(w, tc)
  {
    && Names(w.intents[IntentOf(w, tc)], g) && g < |w.groups|
    && !w.groups[g].isPaid && w.groups[g].payload.items != []
    && PlayersExist(w.book, w.groups[g].payload.items)
  }

  lemma CleanRunSettles(w: World, tc: string, g: Id)
    requires Settles(w, tc) && WouldSettleGroup(w, tc, g)
    ensures var (v, answer) := PaymentResult(w, tc, false);
      && g < |v.groups| && v.groups[g].isPaid && v.groups[g].payload.enrollmentIds == answer.enrollmentIds
      && |answer.enrollmentIds| == |w.groups[g].payload.items|
  {
    MarkedIntents(w, tc);
    HandlingIs(w, tc, false);
  }

  lemma RefLost(xs: seq<Intent>, ref: string, n: nat, i: nat)
    requires n <= |xs| && i < |xs| && xs[i].refId != ref
    ensures FindByRef(xs, ref, n) != Some(i)
  {
  }

  /** Settlement is not retry-safe for every record. A record of an earlier trip to
      the bank is found only by its id in `ref_id`, and marking the intent paid
      overwrites that. Handling a record again after a failed finalisation ends in the
      state and the answer of a clean handling exactly when the record leads to the
      same intent again. */
  lemma RetryFinishesIff(w: World, tc: string)
    requires Settles(w, tc)
    ensures PaymentResult(PaymentResult(w, tc, true).0, tc, false) == PaymentResult(w, tc, false)
            <==> FoundAgain(w, tc)
  {
    hide FinalizeGroup, MarkIntentPaid, PaymentResult;
    if FoundAgain(w, tc) {
      HandleAgain(w, tc, true);
    } else {
      var p, i := PaidWorld(w, tc), IntentOf(w, tc);
      HandlingIs(w, tc, true);
      HandlingIs(w, tc, false);
      MarkedIntents(w, tc);
      RetryAnswersOther(w, tc);
      assert PaymentResult(p, tc, false).1 != PaymentResult(w, tc, false).1;
    }
  }

  lemma RetryAnswersOther(w: World, tc: string)
    requires Settles(w, tc) && !FoundAgain(w, tc)
    ensures var answer := PaymentResult(PaidWorld(w, tc), tc, false).1;
      answer.ToFrontend? ==> answer.intent != Some(IntentOf(w, tc))
  {
    hide FinalizeGroup, MarkIntentPaid, FindByToken, FindByRef, FindBank;
    var p, i := PaidWorld(w, tc), IntentOf(w, tc);
    MarkedIntents(w, tc);
    TokensUnchanged(w.intents, p.intents, tc, |w.intents|);
    RefLost(p.intents, Decimal(BankOf(w, tc)), |p.intents|, i);
  }
}
