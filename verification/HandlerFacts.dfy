/** What each payment handler answers and writes, told in the rows themselves. */
module HandlerFacts {
  import opened Common
  import opened Text
  import opened Shares
  import opened Discounts
  import opened RankingBook
  import opened Payments
  import opened GroupLaws
  import opened PaymentInvariants
  import opened BankRecords
  import opened Settlement

  // ---------- looking rows up ----------

  lemma {:induction false} OldestRecordIff(banks: seq<BankRecord>, tc: string, i: nat, k: Id)
    ensures FindBank(banks, tc, i) == Some(k) <==>
            i <= k < |banks| && banks[k].trackingCode == tc && forall j :: i <= j < k ==> banks[j].trackingCode != tc
    decreases |banks| - i
  {
    if i < |banks| {
      OldestRecordIff(banks, tc, i + 1, k);
    }
  }

  lemma {:induction false} NewestWithToken(intents: seq<Intent>, tc: string, n: nat, i: Id)
    requires n <= |intents|
    ensures FindByToken(intents, tc, n) == Some(i) <==>
            i < n && intents[i].token == tc && forall j :: i < j < n ==> intents[j].token != tc
  {
    if n > 0 {
      NewestWithToken(intents, tc, n - 1, i);
    }
  }

  /** A result finds the newest intent with its tracking code as token; only if there is
      none, the newest whose reference is the record's id. */
  lemma IntentFoundIff(w: World, tc: string, k: Id, i: Id)
    ensures FindIntent(w, tc, k) == Some(i) <==>
            && i < |w.intents|
            && (|| (w.intents[i].token == tc && forall j :: i < j < |w.intents| ==> w.intents[j].token != tc)
                || (&& (forall j :: 0 <= j < |w.intents| ==> w.intents[j].token != tc)
                    && w.intents[i].refId == Decimal(k) && forall j :: i < j < |w.intents| ==> w.intents[j].refId != Decimal(k)))
  {
    hide Decimal;
    NewestWithToken(w.intents, tc, |w.intents|, i);
    NewestWithRef(w.intents, Decimal(k), |w.intents|, i);
    var byToken := FindByToken(w.intents, tc, |w.intents|);
    if byToken.Some? {
      NewestWithToken(w.intents, tc, |w.intents|, byToken.value);
    }
  }

  // ---------- the result of a payment ----------

  /** A tracking code that is empty or unknown, or leads to no intent, changes nothing; a
      record that says no fails its intent unless that is paid, and nothing else. */
  lemma UnsuccessfulResult(w: World, tc: string, fails: bool)
    ensures var (v, answer) := PaymentResult(w, tc, fails);
      && (tc == "" || (forall k :: 0 <= k < |w.banks| ==> w.banks[k].trackingCode != tc) ==> v == w && answer == PlainOk)
      && (tc != "" && FindBank(w.banks, tc, 0).Some? ==>
            var bank, i := w.banks[FindBank(w.banks, tc, 0).value], FindIntent(w, tc, FindBank(w.banks, tc, 0).value);
            && (i.None? ==> v == w && answer == ToFrontend(bank.isSuccess, None, []))
            && (i.Some? && !bank.isSuccess ==>
                  && answer == ToFrontend(false, i, [])
                  && v == if w.intents[i.value].status == IntentPaid then w
                          else w.(intents := w.intents[i.value := w.intents[i.value].(status := Failed)])))
  {
    hide SettleIntent, FindIntent;
  }

  /** Being marked paid changes two columns of the intent: its status, and its reference
      if one is given. */
  lemma MarkWrites(w: World, i: Id, ref: string)
    requires i < |w.intents|
    ensures var v := MarkIntentPaid(w, i, ref);
      && (w.intents[i].status == IntentPaid ==> v == w)
      && (w.intents[i].status != IntentPaid ==>
            && v.intents == w.intents[i := w.intents[i].(status := IntentPaid, refId := if ref == "" then w.intents[i].refId else ref)]
            && v.groups == w.groups && v.banks == w.banks)
  {
    hide ApplyToTargets;
  }

  /** A successful result gives its unpaid intent the first of these as reference that
      is not empty: what the bank's extra information holds, the bank's reference number,
      the reference it had, the tracking code. */
  lemma ResultReference(w: World, tc: string, fails: bool)
    requires Settles(w, tc) && w.intents[IntentOf(w, tc)].status != IntentPaid
    ensures var v, i := PaymentResult(w, tc, fails).0, IntentOf(w, tc); var bank := w.banks[BankOf(w, tc)];
      v.intents == w.intents[i := w.intents[i].(status := IntentPaid, refId :=
        if bank.ref != "" then bank.ref else if bank.reference != "" then bank.reference
        else if w.intents[i].refId != "" then w.intents[i].refId else tc)]
  {
    hide FinalizeGroup, ApplyToTargets, Commit, FindBank, FindIntent, CountUse;
    var p, i := PaidWorld(w, tc), IntentOf(w, tc);
    HandlingIs(w, tc, fails);
    MarkWrites(w, i, RefOf(w, tc));
    FinalizeGroupMoves(p, w.intents[i].description, GroupRef(w.banks[BankOf(w, tc)], tc));
  }

  // ---------- the enrollments of a group ----------

  /** The row of a student of a group, fully. */
  predicate EnrolledAs(row: Enrollment, competition: Id, coach: Id, coachName: string, it: Item, code: Option<string>, part: int, ref: string) {
    && row.competition == competition && row.player == it.player
    && row.coach == Some(coach) && row.coachName == coachName
    && row.club == it.club && row.clubName == it.clubName && row.board == it.board && row.boardName == it.boardName
    && row.beltGroup == it.beltGroup && row.weightCategory == it.weightCategory && row.declaredWeight == it.declaredWeight
    && row.insuranceNumber == it.insuranceNumber && row.insuranceIssueDate == it.insuranceIssueDate
    && row.discountCode == code && row.discountAmount == 0 && row.payableAmount == part
    && row.status == Paid && row.isPaid && row.paidAmount == part && row.bankRefCode == ref
  }

  function NameOf(b: Book, profile: Id): string {
    if profile in b.info then b.info[profile].name else ""
  }

  lemma PaidBankRow(g: Group, name: string, it: Item, part: int, ref: string)
    ensures EnrolledAs(PaidRow(BankRow(g, name, it, part), part, ref), g.competition, g.coach, name, it, g.payload.discountCode, part, ref)
    ensures EnrolledAs(PaidRow(FreeRow(g.competition, g.coach, name, g.payload, it, part), part, ref),
                       g.competition, g.coach, name, it, g.payload.discountCode, part, ref)
  {
  }

  /** New rows after the table's old ones, one a student in order. */
  ghost predicate GroupEnrolled(b: Book, c: Book, competition: Id, coach: Id, items: seq<Item>, code: Option<string>, total: int, ref: string) {
    && |c.enrollments| == |b.enrollments| + |items| && c.enrollments[..|b.enrollments|] == b.enrollments
    && forall k :: 0 <= k < |items| ==>
         EnrolledAs(c.enrollments[|b.enrollments| + k], competition, coach, NameOf(b, coach), items[k], code,
                    EvenSplit(total, |items|)[k], ref)
  }

  lemma BankEnrolls(b: Book, g: Group, ref: string)
    ensures GroupEnrolled(b, Commit(EnrollEach(b, BankRows(b, g), ref)), g.competition, g.coach, g.payload.items, g.payload.discountCode,
                          if g.payload.payableAmount != 0 then g.payload.payableAmount else g.totalAmount, ref)
  {
    hide EnrollEach, Commit, EnrolledAs, EvenSplit, PaidRow;
    var rows := BankRows(b, g);
    EnrollEachEffect(b, rows, ref);
    CommitKeepsTables(EnrollEach(b, rows, ref));
    forall k | 0 <= k < |rows|
      ensures PaidRows(rows, ref)[k] == PaidRow(BankRow(g, NameOf(b, g.coach), g.payload.items[k], EvenSplit(BankAmount(g), |rows|)[k]),
                                                EvenSplit(BankAmount(g), |rows|)[k], ref)
    {
      PaidBankRow(g, NameOf(b, g.coach), g.payload.items[k], EvenSplit(BankAmount(g), |rows|)[k], ref);
    }
    forall k | 0 <= k < |rows|
      ensures EnrolledAs(Commit(EnrollEach(b, rows, ref)).enrollments[|b.enrollments| + k], g.competition, g.coach, NameOf(b, g.coach),
                         g.payload.items[k], g.payload.discountCode, EvenSplit(BankAmount(g), |rows|)[k], ref)
    {
      PaidBankRow(g, NameOf(b, g.coach), g.payload.items[k], EvenSplit(BankAmount(g), |rows|)[k], ref);
      assert Commit(EnrollEach(b, rows, ref)).enrollments[|b.enrollments| + k] == PaidRows(rows, ref)[k];
    }
  }

  lemma FreeEnrolls(b: Book, competition: Id, coach: Id, p: Payload, ref: string)
    ensures GroupEnrolled(b, Commit(EnrollEach(b, FreeRows(b, competition, coach, p), ref)), competition, coach, p.items, p.discountCode,
                          p.payableAmount, ref)
  {
    var g := Group(coach, competition, p, p.payableAmount, false, "");
    hide EnrollEach, Commit, EnrolledAs, EvenSplit, BankRows, FreeRows;
    SameRowsIff(b, g);
    BankEnrolls(b, g, ref);
  }

  /** What the bank callback does about the group its intent's description names: nothing
      if there is none, or it has no students, or is settled already (then its recorded
      ids are returned); an exception if a student has no profile; and else one paid
      enrollment a student, and the group settled with this reference and their ids. */
  lemma FinalisedIs(w: World, description: string, ref: string)
    ensures var f, found := FinalizeGroup(w, description, ref), ParseGroupId(description);
      && (found.None? || found.value >= |w.groups| ==> f == Finalised(w, []))
      && (found.Some? && found.value < |w.groups| ==>
            var n := found.value; var g := w.groups[n];
            && (g.isPaid ==> f == Finalised(w, g.payload.enrollmentIds))
            && (!g.isPaid && g.payload.items == [] ==> f == Finalised(w, []))
            && (!g.isPaid && g.payload.items != [] ==>
                  && (f.Raised? <==> exists k :: 0 <= k < |g.payload.items| && g.payload.items[k].player !in w.book.info)
                  && (f.Finalised? ==>
                        && |f.ids| == |g.payload.items| && (forall k :: 0 <= k < |f.ids| ==> f.ids[k] == |w.book.enrollments| + k)
                        && f.world == w.(book := f.world.book, groups :=
                             w.groups[n := g.(isPaid := true, bankRefCode := ref, payload := g.payload.(enrollmentIds := f.ids))])
                        && GroupEnrolled(w.book, f.world.book, g.competition, g.coach, g.payload.items, g.payload.discountCode,
                             if g.payload.payableAmount != 0 then g.payload.payableAmount else g.totalAmount, ref))))
  {
    hide EnrollEach, Commit, BankRows, SearchMark, GroupEnrolled;
    var found := ParseGroupId(description);
    if found.Some? && found.value < |w.groups| {
      BankEnrolls(w.book, w.groups[found.value], ref);
    }
  }

  /** A result that settles a group gives the group, and every enrollment it makes, the
      first of these as reference that is not empty: what the bank's extra information
      holds, the bank's reference number, the tracking code; and answers with their ids. */
  lemma ResultGroup(w: World, tc: string, g: Id)
    requires Settles(w, tc) && ParseGroupId(w.intents[IntentOf(w, tc)].description) == Some(g)
    requires g < |w.groups| && !w.groups[g].isPaid
    ensures var (v, answer) := PaymentResult(w, tc, false); var n, m := |w.book.enrollments|, |w.groups[g].payload.items|;
      var bank := w.banks[BankOf(w, tc)];
      var ref := if bank.ref != "" then bank.ref else if bank.reference != "" then bank.reference else tc;
      && g < |v.groups|
      && (v.groups[g].isPaid ==>
            && v.groups[g].bankRefCode == ref
            && |v.book.enrollments| == n + m && (forall e :: n <= e < n + m ==> v.book.enrollments[e].bankRefCode == ref)
            && answer.ToFrontend? && answer.ok && answer.intent == Some(IntentOf(w, tc)) && |answer.enrollmentIds| == m
            && forall k :: 0 <= k < m ==> answer.enrollmentIds[k] == n + k)
  {
    hide FinalizeGroup, MarkIntentPaid, FindBank, FindIntent, EvenSplit, SearchMark, Commit, EnrolledAs;
    var p, i := PaidWorld(w, tc), IntentOf(w, tc);
    HandlingIs(w, tc, false);
    MarkedIntents(w, tc);
    MarkIntentPaidMoves(w, i, RefOf(w, tc));
    FinalisedIs(p, w.intents[i].description, GroupRef(w.banks[BankOf(w, tc)], tc));
    var v, group, ref := PaymentResult(w, tc, false).0, w.groups[g], GroupRef(w.banks[BankOf(w, tc)], tc);
    if v.groups[g].isPaid {
      EnrolledWithRef(p.book, v.book, group.competition, group.coach, group.payload.items, group.payload.discountCode,
                      if group.payload.payableAmount != 0 then group.payload.payableAmount else group.totalAmount, ref);
    }
  }

  lemma EnrolledWithRef(b: Book, c: Book, competition: Id, coach: Id, items: seq<Item>, code: Option<string>, total: int, ref: string)
    requires GroupEnrolled(b, c, competition, coach, items, code, total, ref)
    ensures forall e :: |b.enrollments| <= e < |c.enrollments| ==> c.enrollments[e].bankRefCode == ref
  {
    hide EvenSplit;
    forall e | |b.enrollments| <= e < |c.enrollments| ensures c.enrollments[e].bankRefCode == ref {
      var k := e - |b.enrollments|;
      assert EnrolledAs(c.enrollments[|b.enrollments| + k], competition, coach, NameOf(b, coach), items[k], code,
                        EvenSplit(total, |items|)[k], ref);
    }
  }

  // ---------- creating intents and links ----------

  /** `create_intent` accepts at least 10,000 rials, without a code, or with one that is
      quoted and leaves nothing or at least 10,000; the stored intent is new. */
  lemma CreatedIff(w: World, base: int, competition: Option<Id>, text: string, description: string, gateway: Gateway)
    ensures var (v, answer) := CreateIntent(w, base, competition, text, description, gateway); var q := ApplyDiscount(w.codes, competition, base, text);
      && (answer.CreatedIntent? <==> base >= 10_000 && (text == "" || (q.Quote? && (q.finalAmount <= 0 || q.finalAmount >= 10_000))))
      && (answer.Rejected? ==> v == w)
      && (answer.CreatedIntent? ==>
            && answer.id == |w.intents|
            && v == w.(intents := w.intents + [
                 if text == "" then Intent(base, base, 0, None, description, gateway, Initiated, "", "", "", None, [])
                 else Intent(q.finalAmount, base, q.discount, q.code, description, gateway, Initiated, "", "", "", None, [])]))
  {
    hide FirstEligible;
  }

  /** A link token is stored on an unpaid intent, and nothing else changes. */
  lemma LinkWrites(w: World, i: Id, linkToken: string)
    ensures var v := IssueLink(w, i, linkToken);
      && (i < |w.intents| && w.intents[i].status != IntentPaid ==>
            && v == w.(intents := v.intents) && |v.intents| == |w.intents| && v.intents[i].linkToken == linkToken
            && v.intents[i].(linkToken := w.intents[i].linkToken) == w.intents[i]
            && forall j :: 0 <= j < |w.intents| && j != i ==> v.intents[j] == w.intents[j])
      && (i >= |w.intents| || w.intents[i].status == IntentPaid ==> v == w)
  {
  }

  /** The bank's word is stored on its record, and nothing else changes. */
  lemma VerdictWrites(w: World, k: Id, success: bool, ref: string, reference: string)
    ensures var v := RecordVerdict(w, k, success, ref, reference);
      if k >= |w.banks| then v == w
      else v == w.(banks := w.banks[k := BankRecord(w.banks[k].intent, w.banks[k].trackingCode, w.banks[k].amount, success, ref, reference)])
  {
  }

  // ---------- starting a payment ----------

  /** Whether `_begin` lets the request through. */
  predicate LetThrough(w: World, i: Id, req: StartRequest) {
    && (req.enabled || req.gateway == DummyGateway) && i < |w.intents| && w.intents[i].status != IntentPaid
    && !(w.intents[i].status == Redirected && w.intents[i].token != "") && req.callbackAllowed
  }

  /** Why it does not; the first reason is answered, and nothing changes. */
  lemma RefusedStart(w: World, i: Id, req: StartRequest, bank: BankStart)
    requires !LetThrough(w, i, req)
    ensures var (v, answer) := StartPayment(w, i, req, bank);
      && v == w
      && (answer == Disabled <==> !req.enabled && req.gateway != DummyGateway)
      && (answer == NotFound <==> (req.enabled || req.gateway == DummyGateway) && i >= |w.intents|)
      && (answer == AlreadyPaid ==> i < |w.intents| && w.intents[i].status == IntentPaid)
      && (answer == AlreadyRedirected ==> i < |w.intents| && w.intents[i].status == Redirected && w.intents[i].token != "")
      && (answer == CallbackRefused ==> !req.callbackAllowed)
      && answer in {Disabled, NotFound, AlreadyPaid, AlreadyRedirected, CallbackRefused}
  {
  }

  /** A request that is let through stores the gateway. Nothing to pay, or the dummy
      gateway, settles the intent at once; other gateways than Sadad's, missing
      credentials and less than 10,000 rials are refused; a bank error fails the intent;
      and else it is redirected with a new record of its amount, the record's code as
      token, and its id as reference unless it has one. */
  lemma StartedIs(w: World, i: Id, req: StartRequest, bank: BankStart)
    requires LetThrough(w, i, req)
    ensures var (v, answer) := StartPayment(w, i, req, bank); var x := w.intents[i].(gateway := req.gateway); var n := |w.banks|;
      && (answer == FreePaid <==> x.amount <= 0)
      && (answer == DummyPaid <==> x.amount > 0 && req.gateway == DummyGateway)
      && (answer == Unsupported <==> x.amount > 0 && req.gateway in {FakeGateway, OtherGateway})
      && (answer == NoCredentials <==> x.amount > 0 && req.gateway in {SadadGateway, BmiGateway} && !req.credentials)
      && (answer == AmountTooSmall <==> 0 < x.amount < 10_000 && req.gateway in {SadadGateway, BmiGateway} && req.credentials)
      && (answer == BankFailed <==> x.amount >= 10_000 && req.gateway in {SadadGateway, BmiGateway} && req.credentials && bank.BankError?)
      && (answer == SentToBank <==> x.amount >= 10_000 && req.gateway in {SadadGateway, BmiGateway} && req.credentials && bank.Ready?)
      && (answer in {Unsupported, NoCredentials, AmountTooSmall} ==> v == w.(intents := w.intents[i := x]))
      && (answer == BankFailed ==> v == w.(intents := w.intents[i := x.(status := Failed)]))
      && (answer == SentToBank ==>
            v == w.(banks := w.banks + [BankRecord(i, bank.trackingCode, x.amount, false, "", "")],
                    intents := w.intents[i := x.(status := Redirected, token := bank.trackingCode,
                                                 refId := if x.refId != "" then x.refId else Decimal(n))]))
      && (answer == FreePaid ==>
            v.intents == w.intents[i := x.(status := IntentPaid, refId := if x.refId != "" then x.refId else "FREE-0-RIAL")])
      && (answer == DummyPaid ==>
            v.intents == w.intents[i := x.(status := IntentPaid, refId := if x.refId != "" then x.refId else "DUMMY-REF")])
  {
    hide ApplyToTargets, Commit, CountUse, Decimal;
  }

  // ---------- registering students ----------

  /** The price of a registration. */
  function Price(w: World, req: PostRequest): Quote {
    if req.discountText == "" then Quote(req.entryFee * |req.items|, None, 0)
    else ApplyDiscount(w.codes, Some(req.competition), req.entryFee * |req.items|, req.discountText)
  }

  /** A registration that gets as far as its price: the competition is open, a student is
      left, and the fee is nothing or at least 10,000 rials. */
  predicate Priceable(req: PostRequest) {
    req.open && req.items != [] && (req.entryFee == 0 || req.entryFee >= 10_000)
  }

  /** It makes rows exactly if it can be priced, a code that is typed is quoted, and it is
      no preview: a group settled at once if payments are switched off or nothing is to
      pay, and all students have profiles; a group and an intent if there is something to
      pay. Else nothing changes. */
  lemma PostedIff(w: World, req: PostRequest)
    ensures var (v, answer) := PostGroup(w, req); var q := Price(w, req);
      var going := Priceable(req) && q.Quote? && !req.preview;
      && (answer.EnrolledNow? <==> going && (!req.paymentsEnabled || q.finalAmount == 0) && forall k :: 0 <= k < |req.items| ==> req.items[k].player in w.book.info)
      && (answer.PaymentRequired? <==> going && req.paymentsEnabled && q.finalAmount != 0)
      && (answer.Preview? <==> Priceable(req) && q.Quote? && req.preview)
      && (answer.Preview? ==> answer == Preview(req.entryFee * |req.items|, q.discount, q.finalAmount))
      && (answer == BadDiscount <==> Priceable(req) && q.NoQuote?)
      && (answer == RegistrationClosed <==> !req.open)
      && (answer == NothingToRegister <==> req.open && req.items == [])
      && (answer == FeeNotInRials <==> req.open && req.items != [] && 0 < req.entryFee < 10_000)
      && (!answer.EnrolledNow? && !answer.PaymentRequired? ==> v == w)
  {
    hide EnrollEach, Commit, FreeRows, ApplyDiscount;
  }

  /** The text of the code that was quoted. */
  function QuotedText(w: World, q: Quote): Option<string> {
    if q.Quote? && q.code.Some? && q.code.value < |w.codes| then Some(w.codes[q.code.value].code) else None
  }

  /** The rows it makes: the group with its students, price, discount and code; and the
      intent that asks for its price and names it. */
  lemma PostedRows(w: World, req: PostRequest)
    ensures var (v, answer) := PostGroup(w, req); var q, n := Price(w, req), |w.groups|;
      && (answer.PaymentRequired? ==>
            && answer == PaymentRequired(n, |w.intents|)
            && v == w.(
                 groups := w.groups + [Group(req.coach, req.competition,
                   Payload(req.items, req.entryFee * |req.items|, q.discount, q.finalAmount, QuotedText(w, q), []), q.finalAmount, false, "")],
                 intents := w.intents + [Intent(q.finalAmount, req.entryFee * |req.items|, q.discount, q.code,
                   "Group registration GP#" + Decimal(n), req.gateway, Initiated, "", "", "", None, [])]))
      && (answer.EnrolledNow? ==>
            var ref := if q.finalAmount == 0 then "FREE" else "TEST-COACH-GP-" + SixDigits(n);
            && answer.group == n && |answer.ids| == |req.items|
            && (forall k :: 0 <= k < |req.items| ==> answer.ids[k] == |w.book.enrollments| + k)
            && v == w.(book := v.book, groups := w.groups + [Group(req.coach, req.competition,
                 Payload(req.items, req.entryFee * |req.items|, q.discount, q.finalAmount, QuotedText(w, q), answer.ids), q.finalAmount, true, ref)])
            && GroupEnrolled(w.book, v.book, req.competition, req.coach, req.items, QuotedText(w, q), q.finalAmount, ref))
  {
    hide EnrollEach, Commit, FreeRows, ApplyDiscount, GroupEnrolled, Decimal, SixDigits;
    var (v, answer) := PostGroup(w, req);
    var q := Price(w, req);
    assert GroupDescription(|w.groups|) == "Group registration GP#" + Decimal(|w.groups|) by { DescriptionIs(|w.groups|); }
    if answer.EnrolledNow? {
      var ref := if q.finalAmount == 0 then "FREE" else "TEST-COACH-GP-" + SixDigits(|w.groups|);
      FreeEnrolls(w.book, req.competition, req.coach,
                  Payload(req.items, req.entryFee * |req.items|, q.discount, q.finalAmount, QuotedText(w, q), []), ref);
    }
  }

  lemma DescriptionIs(n: nat)
    ensures GroupDescription(n) == "Group registration GP#" + Decimal(n)
  {
    assert "Group registration " + MARK == "Group registration GP#";
  }
}
