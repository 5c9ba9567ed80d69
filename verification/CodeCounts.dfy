/** Discount codes count the paid intents that carry them. */
module CodeCounts {
  import opened Common
  import opened Text
  import opened RankingBook
  import opened Discounts
  import opened Payments
  import opened PaymentRuns
  import opened PaymentInvariants
  import opened PaymentGuarantees
  import opened BankRecords

  function Carries(intent: Intent, c: Id): nat {
    if intent.status == IntentPaid && intent.discountCode == Some(c) then 1 else 0
  }

  /** How many paid intents carry code `c`. */
  function PaidCarrying(intents: seq<Intent>, c: Id): nat {
    if intents == [] then 0
    else PaidCarrying(intents[..|intents| - 1], c) + Carries(intents[|intents| - 1], c)
  }

  lemma {:induction false} PaidCarryingUpdate(intents: seq<Intent>, i: nat, x: Intent, c: Id)
    requires i < |intents|
    ensures PaidCarrying(intents[i := x], c) == PaidCarrying(intents, c) - Carries(intents[i], c) + Carries(x, c)
  {
    var init := intents[..|intents| - 1];
    var changed := intents[i := x];
    if i < |init| {
      assert changed[..|changed| - 1] == init[i := x];
      PaidCarryingUpdate(init, i, x, c);
    } else {
      assert changed[..|changed| - 1] == init;
    }
  }

  /** Uses and paid intents of a code move together. */
  ghost predicate CountsTogether(w: World, v: World) {
    && |w.codes| == |v.codes|
    && forall c :: 0 <= c < |w.codes| ==>
         v.codes[c].usedCount - w.codes[c].usedCount == PaidCarrying(v.intents, c) - PaidCarrying(w.intents, c)
  }

  lemma MarkCounts(w: World, i: Id, ref: string)
    requires i < |w.intents|
    ensures CountsTogether(w, Committed(MarkIntentPaid(w, i, ref)))
  {
    var x := w.intents[i];
    var y := x.(refId := FirstNonEmpty(ref, x.refId), status := IntentPaid);
    forall c ensures PaidCarrying(w.intents[i := y], c) == PaidCarrying(w.intents, c) - Carries(x, c) + Carries(y, c) {
      PaidCarryingUpdate(w.intents, i, y, c);
    }
  }

  /** Changing an intent without paying it, or a paid one's other fields. */
  lemma UpdateCounts(w: World, i: Id, x: Intent)
    requires i < |w.intents| && x.discountCode == w.intents[i].discountCode
    requires x.status == IntentPaid <==> w.intents[i].status == IntentPaid
    ensures CountsTogether(w, w.(intents := w.intents[i := x]))
  {
    forall c ensures PaidCarrying(w.intents[i := x], c) == PaidCarrying(w.intents, c) {
      PaidCarryingUpdate(w.intents, i, x, c);
    }
  }

  lemma AppendCounts(w: World, x: Intent)
    requires x.status != IntentPaid
    ensures CountsTogether(w, w.(intents := w.intents + [x]))
  {
  }

  lemma StartCounts(w: World, i: Id, req: StartRequest, bank: BankStart)
    ensures CountsTogether(w, StartPayment(w, i, req, bank).0)
  {
    hide MarkIntentPaid, PaidCarrying;
    if i < |w.intents| && w.intents[i].status != IntentPaid {
      var begun := w.(intents := w.intents[i := w.intents[i].(gateway := req.gateway)]);
      var intent := begun.intents[i];
      UpdateCounts(w, i, intent);
      MarkCounts(begun, i, FirstNonEmpty(intent.refId, "FREE-0-RIAL"));
      MarkCounts(begun, i, FirstNonEmpty(intent.refId, "DUMMY-REF"));
      UpdateCounts(begun, i, intent.(status := Failed));
      if bank.Ready? {
        UpdateCounts(begun, i, intent.(token := bank.trackingCode,
                                       refId := FirstNonEmpty(intent.refId, Decimal(|w.banks|)),
                                       status := Redirected));
      }
    }
  }

  lemma ResultCounts(w: World, tc: string, fails: bool)
    ensures CountsTogether(w, PaymentResult(w, tc, fails).0)
  {
    var k := FindBank(w.banks, tc, 0);
    if k.Some? && FindIntent(w, tc, k.value).Some? {
      var bank, i := w.banks[k.value], FindIntent(w, tc, k.value).value;
      if bank.isSuccess {
        var ref := PaidRef(bank, w.intents[i], tc);
        MarkCounts(w, i, ref);
        var paid := if w.intents[i].status == IntentPaid then w else Committed(MarkIntentPaid(w, i, ref));
        FinalizeGroupMoves(paid, w.intents[i].description, GroupRef(bank, tc));
      } else {
        UpdateCounts(w, i, w.intents[i].(status := if w.intents[i].status == IntentPaid then IntentPaid else Failed));
      }
    }
  }

  lemma ActCounts(w: World, a: Action)
    ensures CountsTogether(w, Act(w, a))
  {
    match a
    case Create(_, _, _, _, _) =>
      if |Act(w, a).intents| > |w.intents| {
        AppendCounts(w, Act(w, a).intents[|w.intents|]);
      }
    case Link(i, linkToken) =>
      if i < |w.intents| {
        UpdateCounts(w, i, w.intents[i].(linkToken := linkToken));
      }
    case Start(i, req, bank) => StartCounts(w, i, req, bank);
    case Result(tc, fails) => ResultCounts(w, tc, fails);
    case Post(req) =>
      if |Act(w, a).intents| > |w.intents| {
        AppendCounts(w, Act(w, a).intents[|w.intents|]);
      }
    case _ =>
  }

  /** Over any run a code's counter grows by exactly the number of intents carrying
      it that were paid in the run. */
  lemma {:induction false} UsesCountPaidIntents(w: World, acts: seq<Action>)
    ensures CountsTogether(w, ActAll(w, acts))
  {
    if acts != [] {
      UsesCountPaidIntents(w, acts[..|acts| - 1]);
      ActCounts(ActAll(w, acts[..|acts| - 1]), acts[|acts| - 1]);
    }
  }

  // ---------- one payment ----------

  /** Paying an intent adds one use to its own code and to no other; the code is
      switched off exactly when that use reaches a cap above zero. */
  lemma CodeAfterPayment(w: World, i: Id, ref: string, c: Id)
    requires i < |w.intents| && w.intents[i].status != IntentPaid && c < |w.codes|
    ensures |MarkIntentPaid(w, i, ref).codes| == |w.codes|
    ensures var was, now := w.codes[c], MarkIntentPaid(w, i, ref).codes[c];
      && (w.intents[i].discountCode != Some(c) ==> now == was)
      && (w.intents[i].discountCode == Some(c) ==>
            && now.usedCount == was.usedCount + 1
            && (now.active <==> was.active && (was.maxUses.None? || was.maxUses.value == 0 || was.usedCount + 1 < was.maxUses.value))
            && now.(usedCount := was.usedCount, active := was.active) == was)
  {
  }

  /** A code that is on and, after a run, still has uses left is still on. */
  predicate UsesLeft(c: Code) {
    c.maxUses.Some? && c.maxUses.value > 0 ==> c.usedCount < c.maxUses.value
  }

  lemma MarkKeepsRoomyActive(w: World, i: Id, ref: string, c: Id)
    requires c < |w.codes| && w.codes[c].active
    ensures var v := Committed(MarkIntentPaid(w, i, ref)); c < |v.codes| && (UsesLeft(v.codes[c]) ==> v.codes[c].active)
  {
    hide ApplyToTargets, Commit;
  }

  lemma ActKeepsRoomyActive(w: World, a: Action, c: Id)
    requires c < |w.codes| && w.codes[c].active
    ensures c < |Act(w, a).codes| && (UsesLeft(Act(w, a).codes[c]) ==> Act(w, a).codes[c].active)
  {
    hide EnrollEach, Commit, SearchMark, BankRows, FreeRows, FindByToken, FindByRef, FindBank, ApplyToTargets, UsesLeft, CountUse;
    match a
    case Start(i, req, bank) =>
      if i < |w.intents| {
        var begun := w.(intents := w.intents[i := w.intents[i].(gateway := req.gateway)]);
        MarkKeepsRoomyActive(begun, i, FirstNonEmpty(w.intents[i].refId, "FREE-0-RIAL"), c);
        MarkKeepsRoomyActive(begun, i, FirstNonEmpty(w.intents[i].refId, "DUMMY-REF"), c);
      }
    case Result(tc, fails) =>
      var k := FindBank(w.banks, tc, 0);
      if k.Some? && FindIntent(w, tc, k.value).Some? {
        var bank, i := w.banks[k.value], FindIntent(w, tc, k.value).value;
        var ref := PaidRef(bank, w.intents[i], tc);
        MarkKeepsRoomyActive(w, i, ref, c);
        var paid := if w.intents[i].status == IntentPaid then w else Committed(MarkIntentPaid(w, i, ref));
        FinalizeGroupMoves(paid, w.intents[i].description, GroupRef(bank, tc));
      }
    case _ =>
  }

  lemma {:induction false} UsableCodeStaysOn(w: World, acts: seq<Action>, c: Id)
    requires c < |w.codes| && w.codes[c].active
    ensures var v := ActAll(w, acts); c < |v.codes| && (UsesLeft(v.codes[c]) ==> v.codes[c].active)
  {
    if acts != [] {
      var u := ActAll(w, acts[..|acts| - 1]);
      UsableCodeStaysOn(w, acts[..|acts| - 1], c);
      ActMoves(u, acts[|acts| - 1]);
      assert CodeMoves(u.codes[c], Act(u, acts[|acts| - 1]).codes[c]);
      if u.codes[c].active {
        ActKeepsRoomyActive(u, acts[|acts| - 1], c);
      }
    }
  }

  // ---------- caps ----------

  /** A code at its cap is switched off. */
  ghost predicate CapsClosed(codes: seq<Code>) {
    forall c :: 0 <= c < |codes| && !HasRoom(codes[c]) ==> !codes[c].active
  }

  lemma ActKeepsCapsClosed(w: World, a: Action)
    requires CapsClosed(w.codes)
    ensures CapsClosed(Act(w, a).codes)
  {
    hide EnrollEach, Commit, SearchMark, BankRows, FreeRows, FindByToken, FindByRef, FindBank;
    match a
    case Result(tc, fails) =>
      var k := FindBank(w.banks, tc, 0);
      if k.Some? && FindIntent(w, tc, k.value).Some? {
        var bank, i := w.banks[k.value], FindIntent(w, tc, k.value).value;
        var ref := PaidRef(bank, w.intents[i], tc);
        var paid := if w.intents[i].status == IntentPaid then w else Committed(MarkIntentPaid(w, i, ref));
        FinalizeGroupMoves(paid, w.intents[i].description, GroupRef(bank, tc));
      }
    case _ =>
  }

  lemma {:induction false} ActAllKeepsCapsClosed(w: World, acts: seq<Action>)
    requires CapsClosed(w.codes)
    ensures CapsClosed(ActAll(w, acts).codes)
  {
    if acts != [] {
      ActAllKeepsCapsClosed(w, acts[..|acts| - 1]);
      ActKeepsCapsClosed(ActAll(w, acts[..|acts| - 1]), acts[|acts| - 1]);
    }
  }

  lemma {:induction false} NoNewCarrier(w: World, acts: seq<Action>, c: Id)
    requires c < |w.codes| && !HasRoom(w.codes[c])
    ensures var v := ActAll(w, acts);
      && |w.intents| <= |v.intents| && |w.codes| == |v.codes| && !HasRoom(v.codes[c])
      && forall i :: |w.intents| <= i < |v.intents| ==> v.intents[i].discountCode != Some(c)
  {
    ActAllMoves(w, acts);
    assert CodeMoves(w.codes[c], ActAll(w, acts).codes[c]);
    if acts != [] {
      var u, a := ActAll(w, acts[..|acts| - 1]), acts[|acts| - 1];
      NoNewCarrier(w, acts[..|acts| - 1], c);
      ActMoves(u, a);
      forall i | |w.intents| <= i < |Act(u, a).intents| ensures Act(u, a).intents[i].discountCode != Some(c) {
        if i < |u.intents| {
          assert SameTerms(u.intents[i], Act(u, a).intents[i]);
        } else {
          FreshIntentHasRoom(u, a, i);
        }
      }
    }
  }

  /** A new intent carries only a code that was active and had room. */
  lemma FreshIntentHasRoom(w: World, a: Action, i: Id)
    requires |w.intents| <= i < |Act(w, a).intents|
    ensures var c := Act(w, a).intents[i].discountCode;
      c.Some? ==> c.value < |w.codes| && HasRoom(w.codes[c.value]) && w.codes[c.value].active
  {
    match a
    case Create(base, competition, text, _, _) => QuoteExact(w.codes, competition, base, text);
    case Post(req) => QuoteExact(w.codes, Some(req.competition), req.entryFee * |req.items|, req.discountText);
    case Start(_, _, _) => SameLength(w, a);
    case Result(_, _) => SameLength(w, a);
    case _ =>
  }

  /** Once a code has reached its cap it is inactive for good: no later quote
      returns it and no later intent carries it. */
  lemma CapIsFinal(w: World, acts: seq<Action>, c: Id)
    requires CapsClosed(w.codes) && c < |w.codes| && !HasRoom(w.codes[c])
    ensures var v := ActAll(w, acts);
      && c < |v.codes| && !v.codes[c].active
      && (forall competition, base, text ::
            ApplyDiscount(v.codes, competition, base, text).Quote?
            ==> ApplyDiscount(v.codes, competition, base, text).code != Some(c))
      && forall i :: |w.intents| <= i < |v.intents| ==> v.intents[i].discountCode != Some(c)
  {
    NoNewCarrier(w, acts, c);
    ActAllKeepsCapsClosed(w, acts);
  }

  /** Paying an intent keeps its code within the cap exactly when the code still has
      room at that moment: quotes given earlier are not held back. */
  lemma PaymentWithinCapIff(w: World, i: Id, ref: string)
    requires i < |w.intents| && w.intents[i].status != IntentPaid
    requires w.intents[i].discountCode.Some? && w.intents[i].discountCode.value < |w.codes|
    requires var m := w.codes[w.intents[i].discountCode.value].maxUses; m.Some? && m.value > 0
    ensures var c := w.intents[i].discountCode.value; var after := MarkIntentPaid(w, i, ref).codes[c];
      after.usedCount <= after.maxUses.value <==> HasRoom(w.codes[c])
  {
  }

  /** How many intents carry code `c` and are not paid. */
  function UnpaidCarrying(intents: seq<Intent>, c: Id): nat {
    if intents == [] then 0
    else
      var x := intents[|intents| - 1];
      UnpaidCarrying(intents[..|intents| - 1], c) + if x.status != IntentPaid && x.discountCode == Some(c) then 1 else 0
  }

  /** How many intents carrying code `c` were unpaid before and are paid after. */
  function NewlyPaid(before: seq<Intent>, after: seq<Intent>, c: Id): nat
    requires |before| == |after|
  {
    if before == [] then 0
    else
      var n := |before| - 1;
      NewlyPaid(before[..n], after[..n], c)
      + if before[n].status != IntentPaid && before[n].discountCode == Some(c) && after[n].status == IntentPaid then 1 else 0
  }

  lemma {:induction false} PaidGrows(before: seq<Intent>, after: seq<Intent>, c: Id)
    requires |before| == |after|
    requires forall i :: 0 <= i < |before| ==>
               && after[i].discountCode == before[i].discountCode
               && (before[i].status == IntentPaid ==> after[i].status == IntentPaid)
    ensures PaidCarrying(after, c) == PaidCarrying(before, c) + NewlyPaid(before, after, c)
    ensures NewlyPaid(before, after, c) <= UnpaidCarrying(before, c)
  {
    if before != [] {
      PaidGrows(before[..|before| - 1], after[..|after| - 1], c);
    }
  }

  lemma {:induction false} PaidCarryingOfOld(intents: seq<Intent>, n: nat, c: Id)
    requires n <= |intents| && forall i :: n <= i < |intents| ==> intents[i].discountCode != Some(c)
    ensures PaidCarrying(intents, c) == PaidCarrying(intents[..n], c)
  {
    if n == |intents| {
      assert intents[..n] == intents;
    } else {
      var init := intents[..|intents| - 1];
      PaidCarryingOfOld(init, n, c);
      assert init[..n] == intents[..n];
    }
  }

  /** How far a code can go past its cap: from the state in which the cap is reached
      its counter grows by exactly the intents of that state that carry the code and
      are paid later, so by no more than are unpaid there. */
  lemma OvershootIsUnpaidQuotes(w: World, acts: seq<Action>, c: Id)
    requires c < |w.codes| && !HasRoom(w.codes[c])
    ensures var v := ActAll(w, acts);
      && |w.intents| <= |v.intents| && c < |v.codes|
      && v.codes[c].usedCount == w.codes[c].usedCount + NewlyPaid(w.intents, v.intents[..|w.intents|], c)
      && NewlyPaid(w.intents, v.intents[..|w.intents|], c) <= UnpaidCarrying(w.intents, c)
  {
    var v, n := ActAll(w, acts), |w.intents|;
    NoNewCarrier(w, acts, c);
    UsesCountPaidIntents(w, acts);
    ActAllMoves(w, acts);
    forall i | 0 <= i < n
      ensures v.intents[..n][i].discountCode == w.intents[i].discountCode
      ensures w.intents[i].status == IntentPaid ==> v.intents[..n][i].status == IntentPaid
    {
      assert SameTerms(w.intents[i], v.intents[i]);
    }
    PaidGrows(w.intents, v.intents[..n], c);
    PaidCarryingOfOld(v.intents, n, c);
  }

  const ONCE: Code := Code("A", 10, None, Some(1), 0, true)

  /** Two quotes with a code good for one use, then both paid at the bank. */
  function QuotedTwice(w: World): World {
    var one := CreateIntent(w, 20_000, None, "A", "", SadadGateway).0;
    var two := CreateIntent(one, 20_000, None, "A", "", SadadGateway).0;
    var sent := StartPayment(StartPayment(two, 0, AT_THE_BANK, Ready("trip-1")).0, 1, AT_THE_BANK, Ready("trip-2")).0;
    var told := RecordVerdict(RecordVerdict(sent, 0, true, "R", ""), 1, true, "S", "");
    PaymentResult(PaymentResult(told, "trip-1", false).0, "trip-2", false).0
  }

  lemma BothConfirmed(w: World)
    requires w.intents == [] && w.banks == [] && w.codes == [ONCE]
    ensures var one := CreateIntent(w, 20_000, None, "A", "", SadadGateway).0;
      var two := CreateIntent(one, 20_000, None, "A", "", SadadGateway).0;
      var sent := StartPayment(StartPayment(two, 0, AT_THE_BANK, Ready("trip-1")).0, 1, AT_THE_BANK, Ready("trip-2")).0;
      var told := RecordVerdict(RecordVerdict(sent, 0, true, "R", ""), 1, true, "S", "");
      var x := Intent(18_000, 20_000, 2_000, Some(0), "", SadadGateway, Redirected, "trip-1", Decimal(0), "", None, []);
      told == World(w.book, [x, x.(token := "trip-2", refId := Decimal(1))], w.groups, w.codes,
                    [BankRecord(0, "trip-1", 18_000, true, "R", ""), BankRecord(1, "trip-2", 18_000, true, "S", "")])
  {
    assert FirstEligible(w.codes, None, "A", 0) == Some(0) && PercentOf(20_000, 10) == 2_000;
  }

  /** The cap limits quotes, not payments: a code good for one use is used twice. */
  lemma CapCanBeExceeded(w: World)
    requires w.intents == [] && w.banks == [] && w.codes == [ONCE]
    ensures var v := QuotedTwice(w); |v.codes| == 1 && v.codes[0].usedCount == 2 && v.codes[0].maxUses == Some(1)
  {
    hide Commit, ApplyToTargets, CreateIntent, StartPayment, RecordVerdict, Decimal;
    var one := CreateIntent(w, 20_000, None, "A", "", SadadGateway).0;
    var two := CreateIntent(one, 20_000, None, "A", "", SadadGateway).0;
    var sent := StartPayment(StartPayment(two, 0, AT_THE_BANK, Ready("trip-1")).0, 1, AT_THE_BANK, Ready("trip-2")).0;
    var told := RecordVerdict(RecordVerdict(sent, 0, true, "R", ""), 1, true, "S", "");
    BothConfirmed(w);
    assert FindByToken(told.intents, "trip-1", 2) == FindByToken(told.intents, "trip-1", 1) == Some(0);
    var first := PaymentResult(told, "trip-1", false).0;
    assert first.codes == [ONCE.(usedCount := 1, active := false)] && first.banks == told.banks;
    assert first.intents == [told.intents[0].(refId := "R", status := IntentPaid), told.intents[1]];
    assert FindBank(first.banks, "trip-2", 0) == FindBank(first.banks, "trip-2", 1) == Some(1);
    assert FindByToken(first.intents, "trip-2", 2) == Some(1);
  }
}
