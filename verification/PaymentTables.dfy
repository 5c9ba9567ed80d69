/** The payment tables as the handlers update them, each handler tied to its step
    on the tables as values. */
module PaymentTables {
  import opened Common
  import opened Text
  import opened Shares
  import opened Discounts
  import opened RankingBook
  import opened RankingTables
  import opened Payments
  import opened GroupLaws
  import opened PaymentRuns
  import opened PaymentInvariants
  import opened PaymentGuarantees
  import opened BankRecords
  import opened GroupGuarantees

  class PaymentDb {
    const ranking: RankingDb
    var intents: seq<Intent>
    var groups: seq<Group>
    var codes: seq<Code>
    var banks: seq<BankRecord>

    function TheWorld(): World
      reads this, ranking
    {
      World(ranking.TheBook(), intents, groups, codes, banks)
    }

    /** Every intent refers to existing rows; each handler keeps this. */
    ghost predicate Valid()
      reads this, ranking
    {
      RowsExist(TheWorld())
    }

    constructor (ranking: RankingDb, codes: seq<Code>)
      ensures Valid()
      ensures this.ranking == ranking
      ensures TheWorld() == World(ranking.TheBook(), [], [], codes, [])
      ensures GroupsSound(TheWorld()) && Linked(TheWorld()) && Traced(TheWorld())
      ensures PricesAddUp(TheWorld()) && BankAmounts(TheWorld()) && PaidIntentsSettled(TheWorld())
    {
      this.ranking := ranking;
      this.intents, this.groups, this.codes, this.banks := [], [], codes, [];
    }

    // ---------- PaymentIntent ----------

    /** `_apply_success_to_targets` */
    method ApplySuccessToTargets(i: Id)
      requires i < |intents|
      requires forall k :: 0 <= k < |intents[i].enrollments| ==> intents[i].enrollments[k] < |ranking.enrollments|
      requires intents[i].enrollment.Some? ==> intents[i].enrollment.value < |ranking.enrollments|
      modifies ranking
      ensures ranking.TheBook() == ApplyToTargets(old(ranking.TheBook()), intents[i])
    {
      var intent := intents[i];
      ghost var before := ranking.TheBook();
      var k := 0;
      assert intent.enrollments[..0] == [];
      while k < |intent.enrollments|
        invariant 0 <= k <= |intent.enrollments|
        invariant ranking.TheBook() == SettleAll(before, intent.enrollments[..k], intent.refId)
        invariant |ranking.enrollments| == |before.enrollments|
      {
        assert intent.enrollments[..k + 1][..k] == intent.enrollments[..k];
        ranking.SettleTargetRow(intent.enrollments[k], None, intent.refId);
        k := k + 1;
      }
      assert intent.enrollments[..k] == intent.enrollments;
      if intent.enrollment.Some? {
        ranking.SettleTargetRow(intent.enrollment.value, Some(intent.amount), intent.refId);
      }
    }

    /** One intent's targets and code are existing rows. */
    predicate RefersToRows(i: Id)
      reads this, ranking
      requires i < |intents|
    {
      && (forall k :: 0 <= k < |intents[i].enrollments| ==> intents[i].enrollments[k] < |ranking.enrollments|)
      && (intents[i].enrollment.Some? ==> intents[i].enrollment.value < |ranking.enrollments|)
      && (intents[i].discountCode.Some? ==> intents[i].discountCode.value < |codes|)
    }

    /** `PaymentIntent.mark_paid` */
    method MarkPaid(i: Id, ref: string)
      requires i < |intents| && RefersToRows(i)
      modifies this`intents, this`codes, ranking
      ensures TheWorld() == MarkIntentPaid(old(TheWorld()), i, ref)
    {
      hide SettleAll;
      if intents[i].status == IntentPaid {
        return;
      }
      if ref != "" {
        intents := intents[i := intents[i].(refId := ref)];
      }
      intents := intents[i := intents[i].(status := IntentPaid)];
      ApplySuccessToTargets(i);
      var code := intents[i].discountCode;
      if code.Some? {
        var dc := codes[code.value];
        dc := dc.(usedCount := dc.usedCount + 1);
        if dc.maxUses.Some? && dc.maxUses.value != 0 && dc.usedCount >= dc.maxUses.value {
          dc := dc.(active := false);
        }
        codes := codes[code.value := dc];
      }
    }

    // ---------- the two group finalisers ----------

    /** One turn of either loop: look the player up, insert the enrollment, mark it
        paid. A missing profile raises. */
    method EnrollPaid(player: Id, row: Enrollment, ref: string) returns (ok: bool, e: Id)
      requires !row.isPaid
      modifies ranking
      ensures ok == (player in old(ranking.info))
      ensures !ok ==> ranking.TheBook() == old(ranking.TheBook())
      ensures ranking.info == old(ranking.info)
      ensures ok ==>
        && e == old(|ranking.enrollments|) && |ranking.enrollments| == e + 1
        && ranking.TheBook() == EnrollOne(old(ranking.TheBook()), row, ref)
    {
      ok, e := player in ranking.info, 0;
      if ok {
        EnrollOneEffect(ranking.TheBook(), row, ref);
        e := ranking.Create(row);
        ranking.MarkEnrollmentPaid(e, row.payableAmount, ref);
      }
    }

    /** The state of either loop after `k` turns. */
    ghost predicate Enrolled(saved: Book, rows: seq<Enrollment>, ref: string, k: nat, ids: seq<Id>)
      requires k <= |rows|
      reads ranking
    {
      && ranking.info == saved.info && |ranking.enrollments| == |saved.enrollments| + k
      && ranking.TheBook() == EnrollEach(saved, rows[..k], ref)
      && |ids| == k && forall j :: 0 <= j < k ==> ids[j] == |saved.enrollments| + j
    }

    method EnrollNext(player: Id, row: Enrollment, ref: string, ids: seq<Id>,
                      ghost saved: Book, ghost rows: seq<Enrollment>, ghost k: nat)
      returns (ok: bool, more: seq<Id>)
      requires k < |rows| && rows[k] == row && !row.isPaid && Enrolled(saved, rows, ref, k, ids)
      modifies ranking
      ensures ok == (player in saved.info)
      ensures ok ==> Enrolled(saved, rows, ref, k + 1, more)
    {
      EnrollEachNext(saved, rows, k, ref);
      var e;
      ok, e := EnrollPaid(player, row, ref);
      more := ids + [e];
    }

    /** The callback's loop. Leaving `transaction.atomic` by an exception undoes the
        rows made so far. */
    method EnrollByBank(g: Group, ref: string) returns (raised: bool, ids: seq<Id>)
      modifies ranking
      ensures raised == !PlayersExist(old(ranking.TheBook()), g.payload.items)
      ensures raised ==> ranking.TheBook() == old(ranking.TheBook()) && ids == []
      ensures !raised ==>
        && ranking.TheBook() == EnrollEach(old(ranking.TheBook()), BankRows(old(ranking.TheBook()), g), ref)
        && ids == IdsFrom(old(|ranking.enrollments|), |g.payload.items|)
    {
      hide EnrollEach;
      raised, ids := false, [];
      var items, saved := g.payload.items, ranking.TheBook();
      var parts := SplitAmounts(BankAmount(g), |items|);
      var coachName := InfoOf(saved, g.coach).name;
      ghost var rows := BankRows(saved, g);
      var k := 0;
      EnrollNone(saved, rows, ref);
      while k < |items|
        invariant 0 <= k <= |items|
        invariant forall j :: 0 <= j < k ==> items[j].player in saved.info
        invariant Enrolled(saved, rows, ref, k, ids)
      {
        var ok, more := EnrollNext(items[k].player, BankRow(g, coachName, items[k], parts[k]), ref, ids, saved, rows, k);
        if !ok {
          ranking.Restore(saved);
          return true, [];
        }
        ids, k := more, k + 1;
      }
      assert rows[..k] == rows;
      IdsAre(ids, |saved.enrollments|);
    }

    /** `_finalize_group_payment_if_needed` */
    method FinalizeGroupPayment(i: Id, ref: string) returns (raised: bool, ids: seq<Id>)
      requires i < |intents|
      modifies this`groups, ranking
      ensures var f := FinalizeGroup(old(TheWorld()), intents[i].description, ref);
        && raised == f.Raised?
        && (raised ==> TheWorld() == old(TheWorld()) && ids == [])
        && (!raised ==> TheWorld() == f.world && ids == f.ids)
    {
      raised, ids := false, [];
      var found := ParseGroupId(intents[i].description);
      if found.None? || found.value >= |groups| {
        return;
      }
      var g := groups[found.value];
      if g.isPaid {
        return false, g.payload.enrollmentIds;
      }
      if g.payload.items == [] {
        return;
      }
      raised, ids := EnrollByBank(g, ref);
      if !raised {
        groups := groups[found.value := g.(isPaid := true, bankRefCode := ref,
                                           payload := g.payload.(enrollmentIds := ids))];
        ranking.RunCommitQueue();
      }
    }

    /** `_finalize_free_or_test`: the loop inside `post`. */
    method FinalizeFreeOrTest(comp: Id, coach: Id, payload: Payload, ref: string) returns (raised: bool, ids: seq<Id>)
      modifies ranking
      ensures raised == !PlayersExist(old(ranking.TheBook()), payload.items)
      ensures raised ==> ranking.TheBook() == old(ranking.TheBook()) && ids == []
      ensures !raised ==>
        && ranking.TheBook() == EnrollEach(old(ranking.TheBook()), FreeRows(old(ranking.TheBook()), comp, coach, payload), ref)
        && ids == IdsFrom(old(|ranking.enrollments|), |payload.items|)
    {
      hide EnrollEach;
      raised, ids := false, [];
      var items, saved := payload.items, ranking.TheBook();
      var perPerson := SplitAmounts(payload.payableAmount, |items|);
      ghost var rows := FreeRows(saved, comp, coach, payload);
      var k := 0;
      EnrollNone(saved, rows, ref);
      while k < |items|
        invariant 0 <= k <= |items|
        invariant forall j :: 0 <= j < k ==> items[j].player in saved.info
        invariant Enrolled(saved, rows, ref, k, ids)
      {
        var coachName := InfoOf(saved, coach).name;
        var row := FreeRow(comp, coach, coachName, payload, items[k], perPerson[k]);
        var ok, more := EnrollNext(items[k].player, row, ref, ids, saved, rows, k);
        if !ok {
          ranking.Restore(saved);
          return true, [];
        }
        ids, k := more, k + 1;
      }
      assert rows[..k] == rows;
      IdsAre(ids, |saved.enrollments|);
    }

    // ---------- the handlers ----------

    /** `payment_result_redirect`; `fails` stands for an exception while finalising
        that is none of the modelled ones. */
    method PaymentResultRedirect(tc: string, fails: bool) returns (answer: Answer)
      requires Valid()
      modifies this, ranking
      ensures Valid()
      ensures (TheWorld(), answer) == PaymentResult(old(TheWorld()), tc, fails)
    {
      hide RowsExist;
      ActKeepsRowsExist(TheWorld(), Result(tc, fails));
      if tc == "" {
        return PlainOk;
      }
      var k := FindBank(banks, tc, 0);
      if k.None? {
        return PlainOk;
      }
      var bank := banks[k.value];
      var found := FindIntent(TheWorld(), tc, k.value);
      if found.None? {
        return ToFrontend(bank.isSuccess, None, []);
      }
      var i := found.value;
      if !bank.isSuccess {
        if intents[i].status != IntentPaid {
          intents := intents[i := intents[i].(status := Failed)];
        }
        return ToFrontend(false, found, []);
      }
      ghost var description := intents[i].description;
      if intents[i].status != IntentPaid {
        IntentRowsExist(TheWorld(), i);
        MarkPaid(i, PaidRef(bank, intents[i], tc));
        ranking.RunCommitQueue();
      }
      assert intents[i].description == description;
      var ids := [];
      if !fails {
        var raised;
        raised, ids := FinalizeGroupPayment(i, GroupRef(bank, tc));
      }
      answer := ToFrontend(true, found, ids);
    }

    /** `create_intent` */
    method CreatePaymentIntent(base: int, competition: Option<Id>, text: string, description: string, gateway: Gateway)
      returns (created: Created)
      requires Valid()
      modifies this`intents
      ensures Valid()
      ensures (TheWorld(), created) == CreateIntent(old(TheWorld()), base, competition, text, description, gateway)
    {
      hide RowsExist;
      ActKeepsRowsExist(TheWorld(), PaymentRuns.Create(base, competition, text, description, gateway));
      if base < MINIMUM_RIALS {
        return Rejected;
      }
      var finalAmount, code, discount := base, None, 0;
      if text != "" {
        var q := ApplyDiscount(codes, competition, base, text);
        if q.NoQuote? {
          return Rejected;
        }
        finalAmount, code, discount := q.finalAmount, q.code, q.discount;
        if 0 < finalAmount < MINIMUM_RIALS {
          return Rejected;
        }
      }
      created := CreatedIntent(|intents|);
      intents := intents + [Intent(finalAmount, base, discount, code, description, gateway, Initiated, "", "", "", None, [])];
    }

    /** `create_payment_link` */
    method CreatePaymentLink(i: Id, linkToken: string) returns (issued: bool)
      requires Valid() && i < |intents|
      modifies this`intents
      ensures Valid()
      ensures issued == (old(intents[i]).status != IntentPaid)
      ensures TheWorld() == IssueLink(old(TheWorld()), i, linkToken)
    {
      hide RowsExist;
      ActKeepsRowsExist(TheWorld(), Link(i, linkToken));
      issued := intents[i].status != IntentPaid;
      if issued {
        intents := intents[i := intents[i].(linkToken := linkToken)];
      }
    }

    /** `StartPaymentView.post`, with what the bank package answers. */
    method StartPaymentOf(i: Id, req: StartRequest, bank: BankStart) returns (answer: StartAnswer)
      requires Valid()
      modifies this, ranking
      ensures Valid()
      ensures (TheWorld(), answer) == StartPayment(old(TheWorld()), i, req, bank)
    {
      hide RowsExist;
      ActKeepsRowsExist(TheWorld(), Start(i, req, bank));
      if !req.enabled && req.gateway != DummyGateway { return Disabled; }
      if i >= |intents| { return NotFound; }
      if intents[i].status == IntentPaid { return AlreadyPaid; }
      if intents[i].status == Redirected && intents[i].token != "" { return AlreadyRedirected; }
      if !req.callbackAllowed { return CallbackRefused; }
      IntentRowsExist(TheWorld(), i);
      intents := intents[i := intents[i].(gateway := req.gateway)];
      answer := DispatchToGateway(i, req.credentials, bank);
    }

    /** `_dispatch_to_gateway` */
    method DispatchToGateway(i: Id, credentials: bool, bank: BankStart) returns (answer: StartAnswer)
      requires i < |intents| && RefersToRows(i)
      modifies this, ranking
      ensures (TheWorld(), answer) == Dispatch(old(TheWorld()), i, credentials, bank)
    {
      var intent := intents[i];
      if intent.amount <= 0 {
        MarkPaid(i, FirstNonEmpty(intent.refId, "FREE-0-RIAL"));
        ranking.RunCommitQueue();
        return FreePaid;
      }
      if intent.gateway == DummyGateway {
        MarkPaid(i, FirstNonEmpty(intent.refId, "DUMMY-REF"));
        ranking.RunCommitQueue();
        return DummyPaid;
      }
      if intent.gateway != SadadGateway && intent.gateway != BmiGateway { return Unsupported; }
      if !credentials { return NoCredentials; }
      if intent.amount < MINIMUM_RIALS { return AmountTooSmall; }
      if bank.BankError? {
        intents := intents[i := intent.(status := Failed)];
        return BankFailed;
      }
      banks := banks + [BankRecord(i, bank.trackingCode, intent.amount, false, "", "")];
      intent := intent.(token := bank.trackingCode);
      if intent.refId == "" {
        intent := intent.(refId := Decimal(|banks| - 1));
      }
      intents := intents[i := intent.(status := Redirected)];
      answer := SentToBank;
    }

    /** `CoachRegisterStudentsView.post`, after the per-student checks. */
    method RegisterStudents(req: PostRequest) returns (answer: PostAnswer)
      requires Valid()
      modifies this, ranking
      ensures Valid()
      ensures (TheWorld(), answer) == PostGroup(old(TheWorld()), req)
    {
      hide EnrollEach, Commit, ApplyDiscount, FreeRows, RowsExist, CodeText, GroupDescription, TestRef, IdsFrom, PlayersExist;
      ActKeepsRowsExist(TheWorld(), PaymentRuns.Post(req));
      if !req.open { return RegistrationClosed; }
      if req.items == [] { return NothingToRegister; }
      if 0 < req.entryFee < MINIMUM_RIALS { return FeeNotInRials; }
      var raw := req.entryFee * |req.items|;
      var payable, code, discount := raw, None, 0;
      if req.discountText != "" {
        var q := ApplyDiscount(codes, Some(req.competition), raw, req.discountText);
        QuoteExact(codes, Some(req.competition), raw, req.discountText);
        if q.NoQuote? { return BadDiscount; }
        payable, code, discount := q.finalAmount, q.code, q.discount;
      }
      if req.preview { return Preview(raw, discount, payable); }
      var payload := Payload(req.items, raw, discount, payable, CodeText(codes, code), []);
      var g := |groups|;
      groups := groups + [Group(req.coach, req.competition, payload, payable, false, "")];
      if req.paymentsEnabled && payable != 0 {
        var i := |intents|;
        intents := intents + [Intent(payable, raw, 0, None, GroupDescription(g), req.gateway, Initiated, "", "", "", None, [])];
        LastUpdated(old(intents), intents[i], intents[i].(discountCode := code, discountAmount := discount));
        if code.Some? {
          intents := intents[i := intents[i].(discountCode := code, discountAmount := discount)];
        }
        return PaymentRequired(g, i);
      }
      var ref := TestRef(g, payable);
      var raised, ids := FinalizeFreeOrTest(req.competition, req.coach, payload, ref);
      LastUpdated(old(groups), groups[g], groups[g].(isPaid := true, bankRefCode := ref, payload := payload.(enrollmentIds := ids)));
      if raised {
        groups := groups[..g];
        return ServerError;
      }
      groups := groups[g := groups[g].(isPaid := true, bankRefCode := ref, payload := payload.(enrollmentIds := ids))];
      ranking.RunCommitQueue();
      answer := EnrolledNow(g, ids);
    }
  }

  lemma IntentRowsExist(w: World, i: Id)
    requires RowsExist(w) && i < |w.intents|
    ensures forall k :: 0 <= k < |w.intents[i].enrollments| ==> w.intents[i].enrollments[k] < |w.book.enrollments|
    ensures w.intents[i].enrollment.Some? ==> w.intents[i].enrollment.value < |w.book.enrollments|
    ensures w.intents[i].discountCode.Some? ==> w.intents[i].discountCode.value < |w.codes|
  {
    forall k | 0 <= k < |w.intents[i].enrollments| ensures w.intents[i].enrollments[k] < |w.book.enrollments| {
      assert w.intents[i].enrollments[k] in TargetsOf(w.intents[i]);
    }
    if w.intents[i].enrollment.Some? {
      assert w.intents[i].enrollment.value in TargetsOf(w.intents[i]);
    }
  }

  lemma IdsAre(ids: seq<Id>, first: Id)
    requires forall j :: 0 <= j < |ids| ==> ids[j] == first + j
    ensures ids == IdsFrom(first, |ids|)
  {
  }

  lemma LastUpdated<T>(xs: seq<T>, x: T, y: T)
    ensures (xs + [x])[|xs| := y] == xs + [y] && (xs + [x])[..|xs|] == xs
  {
  }
}
