/** What the bank confirmed against what intents were paid by it, over whole runs. */
module BankBooks {
  import opened Common
  import opened Text
  import opened Discounts
  import opened RankingBook
  import opened Payments
  import opened PaymentRuns
  import opened PaymentInvariants
  import opened PaymentGuarantees
  import opened BankRecords

  /** A paid intent that was neither free nor paid by the dummy gateway. */
  predicate PaidByBank(x: Intent) {
    x.status == IntentPaid && x.amount > 0 && x.gateway != DummyGateway
  }

  /** The bank repeats no tracking code and takes no confirmation back. */
  predicate BankKeepsWord(w: World, a: Action) {
    FreshCode(w, a) && (a.Verdict? && a.k < |w.banks| && w.banks[a.k].isSuccess ==> a.success)
  }

  predicate BankReliable(w: World, acts: seq<Action>) {
    acts != [] ==>
      BankReliable(w, acts[..|acts| - 1]) && BankKeepsWord(ActAll(w, acts[..|acts| - 1]), acts[|acts| - 1])
  }

  ghost predicate Confirmed(banks: seq<BankRecord>, i: Id) {
    exists k: Id :: k < |banks| && banks[k].intent == i && banks[k].isSuccess
  }

  /** An intent paid by the bank has a confirmed record; an unpaid intent with a record
      is not meant for the dummy gateway. */
  ghost predicate BooksSound(w: World) {
    && Traced(w) && BankAmounts(w)
    && (forall i: Id :: i < |w.intents| && PaidByBank(w.intents[i]) ==> Confirmed(w.banks, i))
    && (forall k: Id :: k < |w.banks| && w.intents[w.banks[k].intent].status != IntentPaid ==>
          w.intents[w.banks[k].intent].gateway != DummyGateway)
  }

  // ---------- one step ----------

  /** Starting a payment touches one intent, and settles it only when there is nothing
      to pay or by the dummy gateway. */
  lemma StartGateway(w: World, i: Id, req: StartRequest, bank: BankStart, j: Id)
    requires j < |w.intents|
    ensures var (v, answer) := StartPayment(w, i, req, bank);
      && j < |v.intents| && (v.intents[j].status == IntentPaid && w.intents[j].status != IntentPaid ==> !PaidByBank(v.intents[j]))
      && (v.intents[j].status != IntentPaid && w.intents[j].gateway != DummyGateway && w.intents[j].amount > 0 ==>
            v.intents[j].gateway != DummyGateway)
      && (answer.SentToBank? && j == i ==> v.intents[j].gateway != DummyGateway)
  {
    hide ApplyToTargets, Commit, CountUse;
  }

  lemma OtherGateway(w: World, a: Action, j: Id)
    requires j < |w.intents| && !a.Start?
    ensures j < |Act(w, a).intents| && Act(w, a).intents[j].gateway == w.intents[j].gateway
  {
    hide EnrollEach, Commit, FreeRows, FirstEligible;
    match a
    case Result(tc, fails) => ResultGateway(w, tc, fails, j);
    case _ =>
  }

  lemma ResultGateway(w: World, tc: string, fails: bool, j: Id)
    requires j < |w.intents|
    ensures var v := PaymentResult(w, tc, fails).0;
      && j < |v.intents| && v.intents[j].gateway == w.intents[j].gateway
  {
    hide ApplyToTargets, Commit, CountUse, EnrollEach, SearchMark, BankRows, FindBank, FindByToken, FindByRef;
    var k := FindBank(w.banks, tc, 0);
    if k.Some? && FindIntent(w, tc, k.value).Some? {
      var bank, i := w.banks[k.value], FindIntent(w, tc, k.value).value;
      var paid := if w.intents[i].status == IntentPaid then w else Committed(MarkIntentPaid(w, i, PaidRef(bank, w.intents[i], tc)));
      FinalizeGroupMoves(paid, w.intents[i].description, GroupRef(bank, tc));
    }
  }

  lemma ConfirmationsStay(w: World, a: Action)
    requires BankKeepsWord(w, a)
    ensures |w.banks| <= |Act(w, a).banks|
    ensures forall k :: 0 <= k < |w.banks| ==>
              && Act(w, a).banks[k].intent == w.banks[k].intent && Act(w, a).banks[k].trackingCode == w.banks[k].trackingCode
              && (w.banks[k].isSuccess ==> Act(w, a).banks[k].isSuccess)
  {
    hide EnrollEach, Commit, FreeRows, FirstEligible, FindBank, FindIntent, ApplyToTargets, BankRows, SearchMark, CountUse;
  }

  /** A record is handled, confirmed and leading back, for an intent that is not paid
      some other way already. */
  predicate BooksRecord(w: World, a: Action, k: Id) {
    && a.Result? && k < |w.banks| && w.banks[k].isSuccess && a.tc == w.banks[k].trackingCode != ""
    && w.banks[k].intent < |w.intents| && LeadsBack(w, k)
    && (w.intents[w.banks[k].intent].status == IntentPaid ==> PaidByBank(w.intents[w.banks[k].intent]))
  }

  /** Handling such a record leaves its intent paid by the bank. */
  lemma BookedIsPaid(w: World, a: Action, k: Id)
    requires BooksSound(w) && BooksRecord(w, a, k)
    ensures var v, i := Act(w, a), w.banks[k].intent;
      i < |v.intents| && PaidByBank(v.intents[i])
  {
    hide LeadsBack, Traced, PaymentResult;
    ConfirmedPaymentBookedIff(w, k, a.fails);
    ResultMarks(w, a.tc, a.fails);
    OtherGateway(w, a, w.banks[k].intent);
    RecordAmount(w, k);
  }

  lemma RecordAmount(w: World, k: Id)
    requires Traced(w) && BankAmounts(w) && k < |w.banks|
    ensures w.banks[k].intent < |w.intents| && w.intents[w.banks[k].intent].amount == w.banks[k].amount > 0
  {
  }

  /** An intent that the bank pays is paid by handling such a record of its own. */
  lemma PaidIsBooked(w: World, a: Action, i: Id)
    requires BooksSound(w) && i < |w.intents| && w.intents[i].status != IntentPaid
    requires i < |Act(w, a).intents| && PaidByBank(Act(w, a).intents[i])
    ensures exists k: Id :: k < |w.banks| && w.banks[k].intent == i && BooksRecord(w, a, k)
  {
    hide Traced, StartPayment, PaymentResult, LeadsBack, PostGroup, CreateIntent, IssueLink, RecordVerdict, RankingStep;
    PaidByOwnStep(w, a, i);
    if a.Start? {
      StartGateway(w, a.i, a.req, a.bank, i);
    } else {
      var k: Id :| k < |w.banks| && w.banks[k].isSuccess && w.banks[k].trackingCode == a.tc && w.banks[k].intent == i;
      NothingWithoutCode(w, a.fails);
      RecordReachesItsIntentIff(w, k);
      ResultPays(w, k, a.fails, i);
      assert BooksRecord(w, a, k);
    }
  }

  lemma NothingWithoutCode(w: World, fails: bool)
    ensures PaymentResult(w, "", fails).0 == w
  {
  }

  lemma ActKeepsBooks(w: World, a: Action)
    requires BooksSound(w) && BankKeepsWord(w, a)
    ensures BooksSound(Act(w, a))
  {
    hide Act, Traced, BankAmounts, FreshCode, StartPayment;
    var v := Act(w, a);
    ActKeepsTraced(w, a);
    ActKeepsBankAmounts(w, a);
    ConfirmationsStay(w, a);
    forall i: Id | i < |v.intents| && PaidByBank(v.intents[i]) ensures Confirmed(v.banks, i) {
      ActKeepsConfirmed(w, a, i);
    }
    forall k: Id | k < |v.banks| && TracedIntent(v, k) && v.intents[v.banks[k].intent].status != IntentPaid
      ensures v.intents[v.banks[k].intent].gateway != DummyGateway
    {
      ActKeepsGateways(w, a, k);
    }
    forall k: Id | k < |v.banks| ensures TracedIntent(v, k) {
      RecordAmount(v, k);
    }
  }

  predicate TracedIntent(w: World, k: Id)
    requires k < |w.banks|
  {
    w.banks[k].intent < |w.intents|
  }

  lemma ActKeepsConfirmed(w: World, a: Action, i: Id)
    requires BooksSound(w) && BankKeepsWord(w, a)
    requires i < |Act(w, a).intents| && PaidByBank(Act(w, a).intents[i])
    ensures Confirmed(Act(w, a).banks, i)
  {
    hide Act, Traced, BankAmounts, LeadsBack, StartPayment;
    var v := Act(w, a);
    NewIntents(w, a);
    ActMarks(w, a);
    ConfirmationsStay(w, a);
    if w.intents[i].status == IntentPaid {
      var k: Id :| k < |w.banks| && w.banks[k].intent == i && w.banks[k].isSuccess;
      assert v.banks[k].intent == i && v.banks[k].isSuccess;
    } else {
      PaidIsBooked(w, a, i);
      var k: Id :| k < |w.banks| && w.banks[k].intent == i && BooksRecord(w, a, k);
      assert v.banks[k].intent == i && v.banks[k].isSuccess;
    }
  }

  lemma ActKeepsGateways(w: World, a: Action, k: Id)
    requires BooksSound(w) && k < |Act(w, a).banks| && TracedIntent(Act(w, a), k)
    requires Act(w, a).intents[Act(w, a).banks[k].intent].status != IntentPaid
    ensures Act(w, a).intents[Act(w, a).banks[k].intent].gateway != DummyGateway
  {
    hide Act, Traced, BankAmounts, StartPayment;
    var v := Act(w, a);
    ActMarks(w, a);
    var i := v.banks[k].intent;
    if k < |w.banks| {
      RecordAmount(w, k);
      SameRecord(w, a, k);
      if a.Start? {
        StartGateway(w, a.i, a.req, a.bank, i);
        assert v == StartPayment(w, a.i, a.req, a.bank).0 by { StartIs(w, a); }
      } else {
        OtherGateway(w, a, i);
      }
    } else {
      NewRecordIsStart(w, a);
      StartGateway(w, a.i, a.req, a.bank, i);
      StartIs(w, a);
    }
  }

  lemma StartIs(w: World, a: Action)
    requires a.Start?
    ensures Act(w, a) == StartPayment(w, a.i, a.req, a.bank).0
  {
  }

  lemma SameRecord(w: World, a: Action, k: Id)
    requires k < |w.banks|
    ensures k < |Act(w, a).banks| && Act(w, a).banks[k].intent == w.banks[k].intent
  {
    hide Act, StartPayment;
    ActMarks(w, a);
    if a.Start? && StartPayment(w, a.i, a.req, a.bank).1.SentToBank? {
      assert Act(w, a).banks[..|w.banks|][k] == w.banks[k];
    }
  }

  lemma NewRecordIsStart(w: World, a: Action)
    requires |Act(w, a).banks| > |w.banks|
    ensures a.Start? && StartPayment(w, a.i, a.req, a.bank).1.SentToBank?
    ensures |Act(w, a).banks| == |w.banks| + 1 && Act(w, a).banks[|w.banks|].intent == a.i
  {
    hide Act, StartPayment;
    ActMarks(w, a);
    if !(a.Start? && StartPayment(w, a.i, a.req, a.bank).1.SentToBank?) {
      NoNewRecord(w, a);
    }
  }

  // ---------- whole runs ----------

  /** Some step of the run booked record `k`. */
  ghost predicate WasBooked(w: World, acts: seq<Action>, k: Id) {
    exists m: nat :: m < |acts| && BooksRecord(ActAll(w, acts[..m]), acts[m], k)
  }

  lemma WasBookedNext(w: World, acts: seq<Action>, k: Id)
    requires acts != []
    ensures var n := |acts| - 1;
      WasBooked(w, acts, k) <==> WasBooked(w, acts[..n], k) || BooksRecord(ActAll(w, acts[..n]), acts[n], k)
  {
    hide BooksRecord, ActAll;
    var n := |acts| - 1;
    if WasBooked(w, acts[..n], k) {
      var m: nat :| m < n && BooksRecord(ActAll(w, acts[..n][..m]), acts[..n][m], k);
      assert acts[..n][..m] == acts[..m];
    }
    if WasBooked(w, acts, k) {
      var m: nat :| m < |acts| && BooksRecord(ActAll(w, acts[..m]), acts[m], k);
      if m < n { assert acts[..n][..m] == acts[..m] && acts[..n][m] == acts[m]; }
    }
  }

  lemma {:induction false} RunKeepsBooks(w: World, acts: seq<Action>)
    requires BooksSound(w) && BankReliable(w, acts)
    ensures BooksSound(ActAll(w, acts))
  {
    if acts != [] {
      RunKeepsBooks(w, acts[..|acts| - 1]);
      ActKeepsBooks(ActAll(w, acts[..|acts| - 1]), acts[|acts| - 1]);
    }
  }

  /** A record that was booked is confirmed, and its intent is paid by the bank. */
  lemma {:induction false} BookedStays(w: World, acts: seq<Action>, k: Id)
    requires BooksSound(w) && BankReliable(w, acts) && WasBooked(w, acts, k)
    ensures var v := ActAll(w, acts);
      k < |v.banks| && v.banks[k].isSuccess && TracedIntent(v, k) && PaidByBank(v.intents[v.banks[k].intent])
  {
    hide BooksSound, BooksRecord, WasBooked, Act, StartPayment, FreshCode;
    if acts != [] {
      var n := |acts| - 1;
      var u, a := ActAll(w, acts[..n]), acts[n];
      WasBookedNext(w, acts, k);
      RunKeepsBooks(w, acts[..n]);
      ConfirmationsStay(u, a);
      if WasBooked(w, acts[..n], k) {
        BookedStays(w, acts[..n], k);
        ActMarks(u, a);
        assert Act(u, a).banks[k].intent == u.banks[k].intent;
      } else {
        BookedIsPaid(u, a, k);
        ConfirmedByBooking(u, a, k);
      }
    } else {
      assert !WasBooked(w, [], k) by { NothingBooked(w, k); }
    }
  }

  lemma NothingBooked(w: World, k: Id)
    ensures !WasBooked(w, [], k)
  {
  }

  lemma ConfirmedByBooking(w: World, a: Action, k: Id)
    requires BooksRecord(w, a, k)
    ensures k < |w.banks| && w.banks[k].isSuccess
  {
  }

  /** An intent paid by the bank had a record of its own booked. */
  lemma {:induction false} PaidWasBooked(w: World, acts: seq<Action>, i: Id)
    requires w.intents == [] && BooksSound(w) && BankReliable(w, acts)
    requires i < |ActAll(w, acts).intents| && PaidByBank(ActAll(w, acts).intents[i])
    ensures exists k: Id :: k < |ActAll(w, acts).banks| && ActAll(w, acts).banks[k].intent == i && WasBooked(w, acts, k)
  {
    hide BooksSound, BooksRecord, WasBooked, Act, StartPayment, FreshCode;
    if acts != [] {
      var n := |acts| - 1;
      var u, a := ActAll(w, acts[..n]), acts[n];
      RunKeepsBooks(w, acts[..n]);
      NewIntents(u, a);
      ActMarks(u, a);
      ConfirmationsStay(u, a);
      if u.intents[i].status == IntentPaid {
        PaidWasBooked(w, acts[..n], i);
        var k: Id :| k < |u.banks| && u.banks[k].intent == i && WasBooked(w, acts[..n], k);
        WasBookedNext(w, acts, k);
        assert Act(u, a).banks[k].intent == i;
      } else {
        PaidIsBooked(u, a, i);
        var k: Id :| k < |u.banks| && u.banks[k].intent == i && BooksRecord(u, a, k);
        WasBookedNext(w, acts, k);
        assert Act(u, a).banks[k].intent == i;
      }
    }
  }

  // ---------- sums ----------

  function Worth(b: BankRecord): int { if b.isSuccess then b.amount else 0 }

  /** All that the bank confirmed. */
  function ConfirmedTotal(banks: seq<BankRecord>): int {
    if banks == [] then 0 else ConfirmedTotal(banks[..|banks| - 1]) + Worth(banks[|banks| - 1])
  }

  function BookedAmount(x: Intent): int { if PaidByBank(x) then x.amount else 0 }

  /** All that intents were paid by the bank. */
  function BookedTotal(intents: seq<Intent>): int {
    if intents == [] then 0 else BookedTotal(intents[..|intents| - 1]) + BookedAmount(intents[|intents| - 1])
  }

  /** What the bank confirmed for one intent. */
  function ConfirmedTo(banks: seq<BankRecord>, i: Id): int {
    if banks == [] then 0
    else
      var last := banks[|banks| - 1];
      ConfirmedTo(banks[..|banks| - 1], i) + if last.intent == i then Worth(last) else 0
  }

  function ConfirmedToFirst(banks: seq<BankRecord>, n: nat): int {
    if n == 0 then 0 else ConfirmedToFirst(banks, n - 1) + ConfirmedTo(banks, n - 1)
  }

  lemma {:induction false} OneMoreRecord(banks: seq<BankRecord>, n: nat)
    requires banks != []
    ensures var last := banks[|banks| - 1];
      ConfirmedToFirst(banks, n) == ConfirmedToFirst(banks[..|banks| - 1], n) + if last.intent < n then Worth(last) else 0
  {
    if n > 0 {
      OneMoreRecord(banks, n - 1);
    }
  }

  lemma {:induction false} NoRecords(n: nat)
    ensures ConfirmedToFirst([], n) == 0
  {
    if n > 0 {
      NoRecords(n - 1);
    }
  }

  /** Summing by intent is summing by record. */
  lemma {:induction false} SplitByIntent(banks: seq<BankRecord>, n: nat)
    requires forall k :: 0 <= k < |banks| ==> banks[k].intent < n
    ensures ConfirmedToFirst(banks, n) == ConfirmedTotal(banks)
  {
    if banks == [] {
      NoRecords(n);
    } else {
      OneMoreRecord(banks, n);
      SplitByIntent(banks[..|banks| - 1], n);
    }
  }

  lemma {:induction false} NoneConfirmed(banks: seq<BankRecord>, i: Id)
    requires forall k :: 0 <= k < |banks| && banks[k].intent == i ==> !banks[k].isSuccess
    ensures ConfirmedTo(banks, i) == 0
  {
    if banks != [] {
      NoneConfirmed(banks[..|banks| - 1], i);
    }
  }

  lemma {:induction false} OneConfirmed(banks: seq<BankRecord>, i: Id, k: Id)
    requires k < |banks| && banks[k].intent == i && banks[k].isSuccess
    requires forall j :: 0 <= j < |banks| && banks[j].intent == i && banks[j].isSuccess ==> j == k
    ensures ConfirmedTo(banks, i) == banks[k].amount
  {
    var init := banks[..|banks| - 1];
    if k == |init| {
      NoneConfirmed(init, i);
    } else {
      OneConfirmed(init, i, k);
    }
  }

  lemma {:induction false} SomeConfirmed(banks: seq<BankRecord>, i: Id, k: Id)
    requires forall j :: 0 <= j < |banks| ==> banks[j].amount > 0
    requires k < |banks| && banks[k].intent == i && banks[k].isSuccess
    ensures ConfirmedTo(banks, i) >= banks[k].amount
  {
    var init := banks[..|banks| - 1];
    if k == |init| {
      NotNegative(init, i);
    } else {
      SomeConfirmed(init, i, k);
    }
  }

  lemma {:induction false} NotNegative(banks: seq<BankRecord>, i: Id)
    requires forall j :: 0 <= j < |banks| ==> banks[j].amount > 0
    ensures ConfirmedTo(banks, i) >= 0
  {
    if banks != [] {
      NotNegative(banks[..|banks| - 1], i);
    }
  }

  lemma {:induction false} TwoConfirmed(banks: seq<BankRecord>, i: Id, j: Id, k: Id)
    requires forall m :: 0 <= m < |banks| ==> banks[m].amount > 0
    requires j < k < |banks| && banks[j].intent == banks[k].intent == i && banks[j].isSuccess && banks[k].isSuccess
    ensures ConfirmedTo(banks, i) >= banks[j].amount + banks[k].amount
  {
    var init := banks[..|banks| - 1];
    if k == |init| {
      SomeConfirmed(init, i, j);
    } else {
      TwoConfirmed(init, i, j, k);
    }
  }

  /** One intent's account: the bank confirmed at least what the intent was paid, and
      exactly that if it has no second confirmed record and is paid by the bank if it
      has one. */
  ghost predicate InBalance(w: World, i: Id)
    requires i < |w.intents|
  {
    && (Confirmed(w.banks, i) ==> PaidByBank(w.intents[i]))
    && forall j, k :: 0 <= j < k < |w.banks| && w.banks[j].isSuccess && w.banks[k].isSuccess && w.banks[j].intent == i ==> w.banks[k].intent != i
  }

  lemma AccountBalancesIff(w: World, i: Id)
    requires BooksSound(w) && i < |w.intents|
    ensures BookedAmount(w.intents[i]) <= ConfirmedTo(w.banks, i)
    ensures BookedAmount(w.intents[i]) == ConfirmedTo(w.banks, i) <==> InBalance(w, i)
  {
    hide Traced, BankAmounts, ConfirmedTo;
    forall k: Id | k < |w.banks| ensures TracedIntent(w, k) && w.intents[w.banks[k].intent].amount == w.banks[k].amount > 0 {
      RecordAmount(w, k);
    }
    if Confirmed(w.banks, i) {
      var k: Id :| k < |w.banks| && w.banks[k].intent == i && w.banks[k].isSuccess;
      SomeConfirmed(w.banks, i, k);
      if j: Id :| j < |w.banks| && w.banks[j].intent == i && w.banks[j].isSuccess && j != k {
        TwoConfirmed(w.banks, i, if j < k then j else k, if j < k then k else j);
      } else {
        OneConfirmed(w.banks, i, k);
      }
    } else {
      NoneConfirmed(w.banks, i);
    }
  }

  lemma {:induction false} AllBalanceIff(w: World, n: nat)
    requires BooksSound(w) && n <= |w.intents|
    ensures BookedTotal(w.intents[..n]) <= ConfirmedToFirst(w.banks, n)
    ensures BookedTotal(w.intents[..n]) == ConfirmedToFirst(w.banks, n) <==> forall i: Id :: i < n ==> InBalance(w, i)
  {
    hide BooksSound, InBalance, BookedAmount, ConfirmedTo;
    if n > 0 {
      assert w.intents[..n][..n - 1] == w.intents[..n - 1];
      AllBalanceIff(w, n - 1);
      AccountBalancesIff(w, n - 1);
    }
  }

  /** The books balance. In every run from nothing, with a bank that repeats no tracking
      code and takes no confirmation back, intents are paid by the bank no more than it
      confirmed; and exactly as much if and only if no intent has two confirmed records
      and every confirmed record was booked by some step: handled when it led back to
      its intent. */
  lemma BooksBalanceIff(w: World, acts: seq<Action>)
    requires w.intents == [] && w.banks == [] && BankReliable(w, acts)
    ensures var v := ActAll(w, acts);
      && BookedTotal(v.intents) <= ConfirmedTotal(v.banks)
      && (BookedTotal(v.intents) == ConfirmedTotal(v.banks) <==>
            && (forall j, k :: 0 <= j < k < |v.banks| && v.banks[j].isSuccess && v.banks[k].isSuccess ==>
                  v.banks[j].intent != v.banks[k].intent)
            && (forall k: Id :: k < |v.banks| && v.banks[k].isSuccess ==> WasBooked(w, acts, k)))
  {
    hide ActAll, WasBooked, BookedTotal, ConfirmedTotal, ConfirmedToFirst, Traced, BankAmounts, PaidByBank;
    var v := ActAll(w, acts);
    assert BooksSound(w) by { NothingYet(w); }
    RunKeepsBooks(w, acts);
    forall k | 0 <= k < |v.banks| ensures v.banks[k].intent < |v.intents| {
      RecordAmount(v, k);
    }
    SplitByIntent(v.banks, |v.intents|);
    AllBalanceIff(v, |v.intents|);
    assert v.intents[..|v.intents|] == v.intents;
    if BookedTotal(v.intents) == ConfirmedTotal(v.banks) {
      BalanceMeansBooked(w, acts);
    }
    if (forall j, k :: 0 <= j < k < |v.banks| && v.banks[j].isSuccess && v.banks[k].isSuccess ==>
          v.banks[j].intent != v.banks[k].intent)
       && (forall k: Id :: k < |v.banks| && v.banks[k].isSuccess ==> WasBooked(w, acts, k)) {
      forall i: Id | i < |v.intents| ensures InBalance(v, i) {
        if Confirmed(v.banks, i) {
          var k: Id :| k < |v.banks| && v.banks[k].intent == i && v.banks[k].isSuccess;
          BookedStays(w, acts, k);
        }
      }
    }
  }

  lemma NothingYet(w: World)
    requires w.intents == [] && w.banks == []
    ensures BooksSound(w)
  {
  }

  lemma BalanceMeansBooked(w: World, acts: seq<Action>)
    requires w.intents == [] && w.banks == [] && BankReliable(w, acts) && BooksSound(w) && BooksSound(ActAll(w, acts))
    requires forall i: Id :: i < |ActAll(w, acts).intents| ==> InBalance(ActAll(w, acts), i)
    ensures var v := ActAll(w, acts);
      && (forall j, k :: 0 <= j < k < |v.banks| && v.banks[j].isSuccess && v.banks[k].isSuccess ==>
            v.banks[j].intent != v.banks[k].intent)
      && (forall k: Id :: k < |v.banks| && v.banks[k].isSuccess ==> WasBooked(w, acts, k))
  {
    hide ActAll, WasBooked, Traced, BankAmounts, PaidByBank;
    var v := ActAll(w, acts);
    forall k: Id | k < |v.banks| ensures TracedIntent(v, k) {
      RecordAmount(v, k);
    }
    forall j, k | 0 <= j < k < |v.banks| && v.banks[j].isSuccess && v.banks[k].isSuccess
      ensures v.banks[j].intent != v.banks[k].intent
    {
      assert TracedIntent(v, j) && InBalance(v, v.banks[j].intent);
    }
    forall k: Id | k < |v.banks| && v.banks[k].isSuccess ensures WasBooked(w, acts, k) {
      var i := v.banks[k].intent;
      assert TracedIntent(v, k) && InBalance(v, i) && Confirmed(v.banks, i);
      PaidWasBooked(w, acts, i);
      var m: Id :| m < |v.banks| && v.banks[m].intent == i && WasBooked(w, acts, m);
      BookedStays(w, acts, m);
      assert m == k;
    }
  }
}
