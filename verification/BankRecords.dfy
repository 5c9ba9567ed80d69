/** Bank records and the intents they were made for: what every run keeps of them,
    and when the result handler leads a record back to its own intent. */
module BankRecords {
  import opened Common
  import opened Text
  import opened Discounts
  import opened RankingBook
  import opened Payments
  import opened PaymentRuns
  import opened PaymentInvariants
  import opened IntentStates

  // ---------- what one step does to records, tokens and references ----------

  /** Records are only added, and keep their code, amount and intent. */
  ghost predicate RecordsGrow(w: World, v: World) {
    && |w.banks| <= |v.banks|
    && forall k :: 0 <= k < |w.banks| ==>
         && v.banks[k].intent == w.banks[k].intent && v.banks[k].trackingCode == w.banks[k].trackingCode
         && v.banks[k].amount == w.banks[k].amount
  }

  /** How one intent may change: a paid one not at all; else its token and reference
      stay, unless it is paid and gets a reference. */
  predicate KeepsMarks(x: Intent, y: Intent) {
    && (x.status == IntentPaid ==> y == x)
    && x.amount == y.amount && x.token == y.token && (y.refId == x.refId || y.status == IntentPaid)
  }

  ghost predicate MarksKept(w: World, v: World) {
    && RecordsGrow(w, v) && |w.intents| <= |v.intents|
    && (forall i :: 0 <= i < |w.intents| ==> KeepsMarks(w.intents[i], v.intents[i]))
    && (forall i :: |w.intents| <= i < |v.intents| ==> v.intents[i].token == "" && v.intents[i].refId == "")
  }

  /** The step sends intent `i` to the bank: a new record of its own, whose code is
      its token from now on, and whose id is its reference unless it has one. */
  ghost predicate SentOff(w: World, v: World, i: Id) {
    && i < |w.intents| == |v.intents| && w.intents[i].status != IntentPaid
    && |v.banks| == |w.banks| + 1 && v.banks[..|w.banks|] == w.banks
    && (forall j :: 0 <= j < |w.intents| && j != i ==> v.intents[j] == w.intents[j])
    && v.banks[|w.banks|].intent == i && v.banks[|w.banks|].amount == w.intents[i].amount == v.intents[i].amount
    && v.intents[i].token == v.banks[|w.banks|].trackingCode
    && v.intents[i].refId == FirstNonEmpty(w.intents[i].refId, Decimal(|w.banks|))
    && v.intents[i].status == Redirected
  }

  lemma StartMarks(w: World, i: Id, req: StartRequest, bank: BankStart)
    ensures var (v, answer) := StartPayment(w, i, req, bank);
      if answer.SentToBank?
      then SentOff(w, v, i) && bank.Ready? && v.banks[|w.banks|].trackingCode == bank.trackingCode
      else MarksKept(w, v)
  {
    hide ApplyToTargets, Commit, CountUse, Decimal;
  }

  lemma ResultMarks(w: World, tc: string, fails: bool)
    ensures MarksKept(w, PaymentResult(w, tc, fails).0)
  {
    hide ApplyToTargets, Commit, CountUse, EnrollEach, SearchMark, BankRows, FindBank, FindByToken, FindByRef, Decimal;
    var k := FindBank(w.banks, tc, 0);
    if k.Some? && FindIntent(w, tc, k.value).Some? {
      var bank, i := w.banks[k.value], FindIntent(w, tc, k.value).value;
      var ref := PaidRef(bank, w.intents[i], tc);
      var paid := if w.intents[i].status == IntentPaid then w else Committed(MarkIntentPaid(w, i, ref));
      FinalizeGroupMoves(paid, w.intents[i].description, GroupRef(bank, tc));
    }
  }

  /** A step either keeps all marks, or sends one intent to the bank. */
  lemma ActMarks(w: World, a: Action)
    ensures if a.Start? && StartPayment(w, a.i, a.req, a.bank).1.SentToBank?
            then SentOff(w, Act(w, a), a.i) && a.bank.Ready?
                 && Act(w, a).banks[|w.banks|].trackingCode == a.bank.trackingCode
            else MarksKept(w, Act(w, a))
  {
    hide EnrollEach, Commit, FreeRows, FirstEligible;
    match a
    case Start(i, req, bank) => StartMarks(w, i, req, bank);
    case Result(tc, fails) => ResultMarks(w, tc, fails);
    case _ =>
  }

  /** Over any run a paid intent does not change at all, and records only grow. */
  lemma {:induction false} PaidIsFrozen(w: World, acts: seq<Action>)
    ensures var v := ActAll(w, acts);
      && RecordsGrow(w, v) && |w.intents| <= |v.intents|
      && forall i :: 0 <= i < |w.intents| && w.intents[i].status == IntentPaid ==> v.intents[i] == w.intents[i]
  {
    if acts != [] {
      PaidIsFrozen(w, acts[..|acts| - 1]);
      ActMarks(ActAll(w, acts[..|acts| - 1]), acts[|acts| - 1]);
    }
  }

  lemma {:induction false} FindBankStays(xs: seq<BankRecord>, ys: seq<BankRecord>, tc: string, i: nat)
    requires |xs| <= |ys| && forall k :: 0 <= k < |xs| ==> ys[k].trackingCode == xs[k].trackingCode
    requires FindBank(xs, tc, i).Some?
    ensures FindBank(ys, tc, i) == FindBank(xs, tc, i)
    decreases |xs| - i
  {
    if i < |xs| && xs[i].trackingCode != tc {
      FindBankStays(xs, ys, tc, i + 1);
    }
  }

  // ---------- every run with distinct tracking codes ----------

  /** The bank hands out a tracking code only once. */
  predicate FreshCode(w: World, a: Action) {
    a.Start? && a.bank.Ready? ==> forall k :: 0 <= k < |w.banks| ==> w.banks[k].trackingCode != a.bank.trackingCode
  }

  predicate CodesFresh(w: World, acts: seq<Action>) {
    acts != [] ==>
      CodesFresh(w, acts[..|acts| - 1]) && FreshCode(ActAll(w, acts[..|acts| - 1]), acts[|acts| - 1])
  }

  predicate DistinctCodes(banks: seq<BankRecord>) {
    forall j, k :: 0 <= j < k < |banks| ==> banks[j].trackingCode != banks[k].trackingCode
  }

  /** A record of intent `i` with this tracking code. */
  ghost predicate HasRecord(banks: seq<BankRecord>, i: Id, tc: string) {
    exists k: Id :: k < |banks| && banks[k].intent == i && banks[k].trackingCode == tc
  }

  /** A record of intent `i` whose id, as text, is `ref`. */
  ghost predicate HasRecordId(banks: seq<BankRecord>, i: Id, ref: string) {
    exists k: Id :: k < |banks| && banks[k].intent == i && ref == Decimal(k)
  }

  /** Tracking codes are distinct; a record is for the whole amount of its intent; an
      intent's token is from a record of its own, and until it is paid so is its
      reference. */
  ghost predicate Traced(w: World) {
    && DistinctCodes(w.banks)
    && (forall k :: 0 <= k < |w.banks| ==>
          w.banks[k].intent < |w.intents| && w.banks[k].amount == w.intents[w.banks[k].intent].amount)
    && (forall i: Id :: i < |w.intents| && w.intents[i].token != "" ==> HasRecord(w.banks, i, w.intents[i].token))
    && (forall i: Id :: i < |w.intents| && w.intents[i].status != IntentPaid && w.intents[i].refId != "" ==>
          HasRecordId(w.banks, i, w.intents[i].refId))
  }

  lemma RecordStays(w: World, v: World, i: Id, text: string)
    requires RecordsGrow(w, v)
    ensures HasRecord(w.banks, i, text) ==> HasRecord(v.banks, i, text)
    ensures HasRecordId(w.banks, i, text) ==> HasRecordId(v.banks, i, text)
  {
    if HasRecord(w.banks, i, text) {
      var k: Id :| k < |w.banks| && w.banks[k].intent == i && w.banks[k].trackingCode == text;
      assert v.banks[k].intent == i && v.banks[k].trackingCode == text;
    }
    if HasRecordId(w.banks, i, text) {
      var k: Id :| k < |w.banks| && w.banks[k].intent == i && text == Decimal(k);
      assert v.banks[k].intent == i;
    }
  }

  lemma MarksKeptTraced(w: World, v: World)
    requires Traced(w) && MarksKept(w, v) && |v.banks| == |w.banks|
    ensures Traced(v)
  {
    forall i: Id | i < |v.intents| && v.intents[i].token != "" ensures HasRecord(v.banks, i, v.intents[i].token) {
      assert KeepsMarks(w.intents[i], v.intents[i]);
      RecordStays(w, v, i, w.intents[i].token);
    }
    forall i: Id | i < |v.intents| && v.intents[i].status != IntentPaid && v.intents[i].refId != ""
      ensures HasRecordId(v.banks, i, v.intents[i].refId)
    {
      assert KeepsMarks(w.intents[i], v.intents[i]);
      RecordStays(w, v, i, w.intents[i].refId);
    }
  }

  lemma SentOffTraced(w: World, v: World, i: Id)
    requires Traced(w) && SentOff(w, v, i)
    requires forall k :: 0 <= k < |w.banks| ==> w.banks[k].trackingCode != v.banks[|w.banks|].trackingCode
    ensures Traced(v)
  {
    var n := |w.banks|;
    assert RecordsGrow(w, v) by {
      assert forall k :: 0 <= k < n ==> v.banks[k] == v.banks[..n][k];
    }
    forall j: Id | j < |v.intents| && v.intents[j].token != "" ensures HasRecord(v.banks, j, v.intents[j].token) {
      if j == i {
        assert v.banks[n].intent == i;
      } else {
        RecordStays(w, v, j, w.intents[j].token);
      }
    }
    forall j: Id | j < |v.intents| && v.intents[j].status != IntentPaid && v.intents[j].refId != ""
      ensures HasRecordId(v.banks, j, v.intents[j].refId)
    {
      RecordStays(w, v, j, w.intents[j].refId);
      if j == i && w.intents[i].refId == "" {
        assert v.banks[n].intent == i && v.intents[i].refId == Decimal(n);
      }
    }
  }

  lemma ActKeepsTraced(w: World, a: Action)
    requires Traced(w) && FreshCode(w, a)
    ensures Traced(Act(w, a))
  {
    hide Act, StartPayment, Traced;
    ActMarks(w, a);
    if a.Start? && StartPayment(w, a.i, a.req, a.bank).1.SentToBank? {
      SentOffTraced(w, Act(w, a), a.i);
    } else {
      NoNewRecord(w, a);
      MarksKeptTraced(w, Act(w, a));
    }
  }

  lemma NoNewRecord(w: World, a: Action)
    requires !(a.Start? && StartPayment(w, a.i, a.req, a.bank).1.SentToBank?)
    ensures |Act(w, a).banks| == |w.banks|
  {
    hide EnrollEach, Commit, FreeRows, FirstEligible, ApplyToTargets, FindBank, FindIntent, BankRows, ParseGroupId;
  }

  lemma {:induction false} RunKeepsTraced(w: World, acts: seq<Action>)
    requires Traced(w) && CodesFresh(w, acts)
    ensures Traced(ActAll(w, acts))
  {
    if acts != [] {
      RunKeepsTraced(w, acts[..|acts| - 1]);
      ActKeepsTraced(ActAll(w, acts[..|acts| - 1]), acts[|acts| - 1]);
    }
  }

  // ---------- looking an intent up ----------

  lemma {:induction false} FirstWithCode(banks: seq<BankRecord>, k: Id, i: nat)
    requires DistinctCodes(banks) && i <= k < |banks|
    ensures FindBank(banks, banks[k].trackingCode, i) == Some(k)
    decreases k - i
  {
    if i < k {
      FirstWithCode(banks, k, i + 1);
    }
  }

  /** The newest intent with a reference. */
  lemma {:induction false} NewestWithRef(intents: seq<Intent>, ref: string, n: nat, i: Id)
    requires n <= |intents|
    ensures FindByRef(intents, ref, n) == Some(i) <==>
            i < n && intents[i].refId == ref && forall j :: i < j < n ==> intents[j].refId != ref
  {
    if n > 0 {
      NewestWithRef(intents, ref, n - 1, i);
    }
  }

  /** Only the record's own intent can have its tracking code as token. */
  lemma TokenIsOwn(w: World, k: Id)
    requires Traced(w) && k < |w.banks| && w.banks[k].trackingCode != ""
    ensures var tc := w.banks[k].trackingCode;
      FindByToken(w.intents, tc, |w.intents|)
      == if w.intents[w.banks[k].intent].token == tc then Some(w.banks[k].intent) else None
  {
    var tc, i := w.banks[k].trackingCode, w.banks[k].intent;
    forall j: Id | j < |w.intents| && w.intents[j].token == tc ensures j == i {
      assert HasRecord(w.banks, j, tc);
    }
  }

  /** The record's intent can still be found from it: the token is its tracking code,
      or the reference is still its id and no newer intent has that reference. */
  predicate LeadsBack(w: World, k: Id)
    requires k < |w.banks| && w.banks[k].intent < |w.intents|
  {
    var i := w.banks[k].intent;
    || w.intents[i].token == w.banks[k].trackingCode
    || (w.intents[i].refId == Decimal(k) && forall j :: i < j < |w.intents| ==> w.intents[j].refId != Decimal(k))
  }

  /** A record leads to its own intent exactly then. */
  lemma RecordReachesItsIntentIff(w: World, k: Id)
    requires Traced(w) && k < |w.banks| && w.banks[k].trackingCode != ""
    ensures FindBank(w.banks, w.banks[k].trackingCode, 0) == Some(k)
    ensures FindIntent(w, w.banks[k].trackingCode, k) == Some(w.banks[k].intent) <==> LeadsBack(w, k)
  {
    FirstWithCode(w.banks, k, 0);
    TokenIsOwn(w, k);
    NewestWithRef(w.intents, Decimal(k), |w.intents|, w.banks[k].intent);
  }

  /** An unpaid intent is found only by records of its own. */
  lemma UnpaidFoundByOwnRecord(w: World, k: Id)
    requires Traced(w) && k < |w.banks| && w.banks[k].trackingCode != ""
    ensures var found := FindIntent(w, w.banks[k].trackingCode, k);
      found.Some? && w.intents[found.value].status != IntentPaid ==> w.banks[k].intent == found.value
  {
    TokenIsOwn(w, k);
    var found := FindIntent(w, w.banks[k].trackingCode, k);
    if found.Some? && found.value != w.banks[k].intent && w.intents[found.value].status != IntentPaid {
      var i := found.value;
      assert w.intents[i].refId == Decimal(k) != "";
      var m: Id :| m < |w.banks| && w.banks[m].intent == i && Decimal(k) == Decimal(m);
      DecimalInjective(k, m);
    }
  }

  /** What a payment result does to one intent's being paid. */
  lemma ResultPays(w: World, k: Id, fails: bool, j: Id)
    requires Traced(w) && k < |w.banks| && w.banks[k].trackingCode != "" && j < |w.intents|
    ensures var v := PaymentResult(w, w.banks[k].trackingCode, fails).0;
      && j < |v.intents|
      && (v.intents[j].status == IntentPaid <==>
            w.intents[j].status == IntentPaid
            || (w.banks[k].isSuccess && FindIntent(w, w.banks[k].trackingCode, k) == Some(j)))
  {
    hide EnrollEach, Commit, SearchMark, BankRows, FindByToken, FindByRef, ApplyToTargets, CountUse, Decimal, Traced;
    var tc := w.banks[k].trackingCode;
    RecordReachesItsIntentIff(w, k);
    var found := FindIntent(w, tc, k);
    if found.Some? && w.banks[k].isSuccess {
      var bank, i := w.banks[k], found.value;
      var ref := PaidRef(bank, w.intents[i], tc);
      MarkIntentPaidMoves(w, i, ref);
      var paid := if w.intents[i].status == IntentPaid then w else Committed(MarkIntentPaid(w, i, ref));
      FinalizeGroupMoves(paid, w.intents[i].description, GroupRef(bank, tc));
    }
  }

  /** A payment the bank confirmed is booked exactly when the record leads back to
      its intent, and it is never booked to another intent. */
  lemma ConfirmedPaymentBookedIff(w: World, k: Id, fails: bool)
    requires Traced(w) && k < |w.banks| && w.banks[k].trackingCode != "" && w.banks[k].isSuccess
    ensures var v, i := PaymentResult(w, w.banks[k].trackingCode, fails).0, w.banks[k].intent;
      && |v.intents| >= |w.intents|
      && (w.intents[i].status != IntentPaid ==> (v.intents[i].status == IntentPaid <==> LeadsBack(w, k)))
      && forall j :: 0 <= j < |w.intents| && j != i ==> (v.intents[j].status == IntentPaid <==> w.intents[j].status == IntentPaid)
  {
    RecordReachesItsIntentIff(w, k);
    UnpaidFoundByOwnRecord(w, k);
    ResultMarks(w, w.banks[k].trackingCode, fails);
    ResultPays(w, k, fails, w.banks[k].intent);
    forall j | 0 <= j < |w.intents| && j != w.banks[k].intent
      ensures PaymentResult(w, w.banks[k].trackingCode, fails).0.intents[j].status == IntentPaid <==> w.intents[j].status == IntentPaid
    {
      ResultPays(w, k, fails, j);
    }
  }

  // ---------- why an intent became paid ----------

  /** As `MayPay`, with a bank record made for this intent and for its amount. */
  ghost predicate MayPayOwn(w: World, a: Action, i: Id)
    requires i < |w.intents|
  {
    || (a.Start? && a.i == i && (w.intents[i].amount <= 0 || a.req.gateway == DummyGateway))
    || (a.Result? && exists k: Id :: k < |w.banks| && w.banks[k].isSuccess && w.banks[k].trackingCode == a.tc
                       && w.banks[k].intent == i && w.banks[k].amount == w.intents[i].amount)
  }

  lemma PaidByOwnStep(w: World, a: Action, i: Id)
    requires Traced(w) && i < |w.intents| && w.intents[i].status != IntentPaid
    ensures i < |Act(w, a).intents| && (Act(w, a).intents[i].status == IntentPaid ==> MayPayOwn(w, a, i))
  {
    hide Traced, StartPayment, PaymentResult, PostGroup, CreateIntent, IssueLink, RecordVerdict, RankingStep;
    StatusMoves(w, a, i);
    if a.Result? && Act(w, a).intents[i].status == IntentPaid {
      var k: Id :| k < |w.banks| && w.banks[k].isSuccess && w.banks[k].trackingCode == a.tc;
      OwnResult(w, a.tc, a.fails, k, i);
    }
  }

  lemma OwnResult(w: World, tc: string, fails: bool, k: Id, i: Id)
    requires Traced(w) && i < |w.intents| && w.intents[i].status != IntentPaid
    requires k < |w.banks| && w.banks[k].trackingCode == tc
    requires i < |PaymentResult(w, tc, fails).0.intents| && PaymentResult(w, tc, fails).0.intents[i].status == IntentPaid
    ensures w.banks[k].intent == i && w.banks[k].amount == w.intents[i].amount
  {
    if tc != "" {
      ResultPays(w, k, fails, i);
      UnpaidFoundByOwnRecord(w, k);
    }
  }

  /** Over any run in which the bank repeats no tracking code, an intent that ends up
      paid was paid with nothing to pay, by the dummy gateway, or by a successful bank
      record that was made for this very intent and for exactly its amount. */
  lemma {:induction false} PaidByItsOwnRecord(w: World, acts: seq<Action>, i: Id)
    requires Traced(w) && CodesFresh(w, acts)
    requires i < |w.intents| && w.intents[i].status != IntentPaid
    ensures i < |ActAll(w, acts).intents|
    ensures ActAll(w, acts).intents[i].status == IntentPaid ==>
      exists m :: 0 <= m < |acts| && i < |ActAll(w, acts[..m]).intents| && MayPayOwn(ActAll(w, acts[..m]), acts[m], i)
  {
    if acts != [] {
      var n := |acts| - 1;
      var before := ActAll(w, acts[..n]);
      PaidByItsOwnRecord(w, acts[..n], i);
      RunKeepsTraced(w, acts[..n]);
      if before.intents[i].status == IntentPaid {
        var m :| 0 <= m < n && i < |ActAll(w, acts[..n][..m]).intents| && MayPayOwn(ActAll(w, acts[..n][..m]), acts[..n][m], i);
        assert acts[..n][..m] == acts[..m];
        PaidIsFrozen(before, [acts[n]]);
        assert ActAll(before, [acts[n]]) == Act(before, acts[n]) by { assert [acts[n]][..0] == []; }
      } else {
        PaidByOwnStep(before, acts[n], i);
      }
    }
  }

  // ---------- a confirmed payment that is not booked ----------

  const AT_THE_BANK: StartRequest := StartRequest(true, SadadGateway, true, true)

  /** Intent 0 goes to the bank twice. Intent 1 is then paid, and the reference number
      the bank gives for it happens to be "0". At last the bank confirms the first
      trip, whose record has the id 0. */
  function ReferenceTaken(w: World): World {
    var one := CreateIntent(w, 20_000, None, "", "", SadadGateway).0;
    var sent := StartPayment(one, 0, AT_THE_BANK, Ready("trip-1")).0;
    var back := PaymentResult(sent, "trip-1", false).0;
    var again := StartPayment(back, 0, AT_THE_BANK, Ready("trip-2")).0;
    var two := CreateIntent(again, 20_000, None, "", "", SadadGateway).0;
    var other := StartPayment(two, 1, AT_THE_BANK, Ready("trip-3")).0;
    var paid := PaymentResult(RecordVerdict(other, 2, true, "0", ""), "trip-3", false).0;
    RecordVerdict(paid, 0, true, "R", "")
  }

  /** Handling that record changes nothing, and its answer names intent 1: the payment
      of intent 0 is not booked. */
  lemma ConfirmedPaymentMissed(w: World)
    requires w.intents == [] && w.banks == []
    ensures var v := ReferenceTaken(w);
      && |v.banks| == 3 && v.banks[0].isSuccess && v.banks[0].trackingCode == "trip-1"
      && v.banks[0].intent == 0 && v.banks[0].amount == 20_000
      && |v.intents| == 2 && v.intents[0].status == Redirected && !LeadsBack(v, 0)
      && PaymentResult(v, "trip-1", false) == (v, ToFrontend(true, Some(1), []))
  {
    hide Commit, ApplyToTargets;
    var made := Intent(20_000, 20_000, 0, None, "", SadadGateway, Initiated, "", "", "", None, []);
    var twice := made.(token := "trip-2", refId := "0", status := Redirected);
    assert Decimal(0) == "0";
    var again := StartPayment(PaymentResult(StartPayment(CreateIntent(w, 20_000, None, "", "", SadadGateway).0,
      0, AT_THE_BANK, Ready("trip-1")).0, "trip-1", false).0, 0, AT_THE_BANK, Ready("trip-2")).0;
    assert again.intents == [twice];
    assert again.banks == [BankRecord(0, "trip-1", 20_000, false, "", ""), BankRecord(0, "trip-2", 20_000, false, "", "")];
    var other := StartPayment(CreateIntent(again, 20_000, None, "", "", SadadGateway).0, 1, AT_THE_BANK, Ready("trip-3")).0;
    assert other.intents == [twice, made.(token := "trip-3", refId := Decimal(2), status := Redirected)];
    assert other.banks == again.banks + [BankRecord(1, "trip-3", 20_000, false, "", "")];
    var told := RecordVerdict(other, 2, true, "0", "");
    assert FindBank(told.banks, "trip-3", 1) == FindBank(told.banks, "trip-3", 2) == Some(2);
    assert FindByToken(told.intents, "trip-3", 2) == Some(1);
    var v := ReferenceTaken(w);
    assert v.intents == [twice, made.(token := "trip-3", refId := "0", status := IntentPaid)];
    assert FindByToken(v.intents, "trip-1", 2) == None;
    assert FindByRef(v.intents, "0", 2) == Some(1);
  }
}
