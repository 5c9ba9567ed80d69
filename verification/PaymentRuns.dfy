/** Whole runs of the payment handlers, interleaved with ranking activity, and what
    every reachable state keeps. Starting a payment is one atomic step, and the old
    `GatewayCallbackView` is not among the steps. */
module PaymentRuns {
  import opened Common
  import opened Text
  import opened Discounts
  import opened RankingBook
  import opened RankingRuns
  import opened Payments
  import opened GroupLaws

  datatype Action =
    | Create(base: int, competition: Option<Id>, text: string, description: string, gateway: Gateway)
    | Link(i: Id, linkToken: string)
    | Start(i: Id, req: StartRequest, bank: BankStart)
    | Verdict(k: Id, success: bool, ref: string, reference: string)
    | Result(tc: string, fails: bool)
    | Post(post: PostRequest)
    | Ranking(ev: Event)

  /** The same player entered in the same competition, category and price. */
  predicate SameEntry(x: Enrollment, y: Enrollment) {
    && x.competition == y.competition && x.player == y.player
    && x.beltGroup == y.beltGroup && x.weightCategory == y.weightCategory && x.declaredWeight == y.declaredWeight
    && x.insuranceNumber == y.insuranceNumber && x.insuranceIssueDate == y.insuranceIssueDate
    && x.discountCode == y.discountCode && x.payableAmount == y.payableAmount
  }

  /** A plain save that leaves the entry, and what was paid for it before, alone; it
      may still mark the enrollment paid by hand. */
  predicate KeepsEntry(b: Book, ev: Event) {
    ev.PlainSave? && ev.e < |b.enrollments| ==>
      var was := b.enrollments[ev.e];
      SameEntry(was, ev.row) && (was.isPaid ==> ev.row.isPaid && ev.row.paidAmount == was.paidAmount)
  }

  /** Ranking activity outside the payment handlers; settling a target belongs to
      them. */
  function RankingStep(w: World, ev: Event): World {
    if ev.SettleTarget? || !KeepsEntry(w.book, ev) then w else Committed(w.(book := Step(w.book, ev)))
  }

  function Act(w: World, a: Action): World {
    match a
    case Create(base, competition, text, description, gateway) =>
      CreateIntent(w, base, competition, text, description, gateway).0
    case Link(i, linkToken) => IssueLink(w, i, linkToken)
    case Start(i, req, bank) => StartPayment(w, i, req, bank).0
    case Verdict(k, success, ref, reference) => RecordVerdict(w, k, success, ref, reference)
    case Result(tc, fails) => PaymentResult(w, tc, fails).0
    case Post(post) => PostGroup(w, post).0
    case Ranking(ev) => RankingStep(w, ev)
  }

  function ActAll(w: World, acts: seq<Action>): World {
    if acts == [] then w else Act(ActAll(w, acts[..|acts| - 1]), acts[|acts| - 1])
  }

  // ---------- the ranking book inside ----------

  lemma MarkIntentPaidReaches(w: World, i: Id, ref: string)
    ensures Reaches(w.book, MarkIntentPaid(w, i, ref).book)
    ensures Reaches(w.book, Committed(MarkIntentPaid(w, i, ref)).book)
  {
    ReachesItself(w.book);
    if i < |w.intents| && w.intents[i].status != IntentPaid {
      ApplyToTargetsReaches(w.book, w.intents[i].(refId := FirstNonEmpty(ref, w.intents[i].refId), status := IntentPaid));
    }
    CommitReaches(w.book, MarkIntentPaid(w, i, ref).book);
  }

  lemma DispatchReaches(w: World, i: Id, credentials: bool, bank: BankStart)
    requires i < |w.intents|
    ensures Reaches(w.book, Dispatch(w, i, credentials, bank).0.book)
  {
    ReachesItself(w.book);
    MarkIntentPaidReaches(w, i, FirstNonEmpty(w.intents[i].refId, "FREE-0-RIAL"));
    MarkIntentPaidReaches(w, i, FirstNonEmpty(w.intents[i].refId, "DUMMY-REF"));
  }

  lemma FinalizeGroupReaches(b: Book, w: World, description: string, ref: string)
    requires Reaches(b, w.book)
    ensures var f := FinalizeGroup(w, description, ref); f.Finalised? ==> Reaches(b, f.world.book)
  {
    var found := ParseGroupId(description);
    if found.Some? && found.value < |w.groups| {
      var rows := BankRows(w.book, w.groups[found.value]);
      EnrollEachReaches(w.book, rows, ref);
      var evs :| Run(w.book, evs) == EnrollEach(w.book, rows, ref) && NeverUnpays(w.book, evs);
      ReachesTransitive(b, w.book, evs);
      CommitReaches(b, EnrollEach(w.book, rows, ref));
    }
  }

  /** Every payment handler moves the ranking book by ranking steps only, so all
      that holds over ranking runs holds here too. */
  lemma ActReaches(w: World, a: Action)
    ensures Reaches(w.book, Act(w, a).book)
  {
    hide EnrollEach, SearchMark, BankRows, FreeRows, FindByToken, FindByRef, FindBank, SettleAll;
    ReachesItself(w.book);
    match a
    case Start(i, req, bank) =>
      if i < |w.intents| {
        var begun := w.(intents := w.intents[i := w.intents[i].(gateway := req.gateway)]);
        DispatchReaches(begun, i, req.credentials, bank);
      }
    case Result(tc, fails) =>
      var k := FindBank(w.banks, tc, 0);
      if k.Some? && FindIntent(w, tc, k.value).Some? {
        var bank, i := w.banks[k.value], FindIntent(w, tc, k.value).value;
        var ref := PaidRef(bank, w.intents[i], tc);
        MarkIntentPaidReaches(w, i, ref);
        var paid := if w.intents[i].status == IntentPaid then w else Committed(MarkIntentPaid(w, i, ref));
        FinalizeGroupReaches(w.book, paid, w.intents[i].description, GroupRef(bank, tc));
      }
    case Post(req) =>
      var p := PostGroup(w, req);
      if p.1.EnrolledNow? {
        var q := if req.discountText == "" then Quote(req.entryFee * |req.items|, None, 0)
                 else ApplyDiscount(w.codes, Some(req.competition), req.entryFee * |req.items|, req.discountText);
        var rows := FreeRows(w.book, req.competition, req.coach, PayloadOf(req, w.codes, q));
        EnrollEachReaches(w.book, rows, TestRef(|w.groups|, q.finalAmount));
        CommitReaches(w.book, EnrollEach(w.book, rows, TestRef(|w.groups|, q.finalAmount)));
      }
    case Ranking(ev) =>
      if !ev.SettleTarget? && KeepsEntry(w.book, ev) {
        ReachesStep(w.book, w.book, ev);
        CommitReaches(w.book, Step(w.book, ev));
      }
    case _ =>
  }

  lemma {:induction false} ActAllReaches(w: World, acts: seq<Action>)
    ensures Reaches(w.book, ActAll(w, acts).book)
  {
    if acts == [] {
      ReachesItself(w.book);
    } else {
      var before := ActAll(w, acts[..|acts| - 1]);
      ActAllReaches(w, acts[..|acts| - 1]);
      ActReaches(before, acts[|acts| - 1]);
      var evs :| Run(before.book, evs) == Act(before, acts[|acts| - 1]).book && NeverUnpays(before.book, evs);
      ReachesTransitive(w.book, before.book, evs);
    }
  }

  lemma ActLeavesQueueEmpty(w: World, a: Action)
    requires w.book.queue == []
    ensures Act(w, a).book.queue == []
  {
  }

  lemma {:induction false} ActAllLeavesQueueEmpty(w: World, acts: seq<Action>)
    requires w.book.queue == []
    ensures ActAll(w, acts).book.queue == []
  {
    if acts != [] {
      ActAllLeavesQueueEmpty(w, acts[..|acts| - 1]);
      ActLeavesQueueEmpty(ActAll(w, acts[..|acts| - 1]), acts[|acts| - 1]);
    }
  }

  /** In every state between requests the paid enrollments are exactly those with
      one award, and every cached total is its starting value plus the book. */
  lemma SystemKeepsRanking(w: World, acts: seq<Action>)
    requires Fresh(w.book) && forall e :: 0 <= e < |w.book.enrollments| ==> !w.book.enrollments[e].isPaid
    ensures var b := ActAll(w, acts).book;
      && Balanced(w.book.standings, b)
      && AwardedAtMostOnce(b)
      && forall e: Id :: AwardedExactlyOnce(b, e) <==> IsPaid(b, e)
  {
    ActAllReaches(w, acts);
    ActAllLeavesQueueEmpty(w, acts);
    var evs :| Run(w.book, evs) == ActAll(w, acts).book && NeverUnpays(w.book, evs);
    FreshIsBalanced(w.book);
    RunKeepsBalance(w.book.standings, w.book, evs);
    ExactlyOneAwardPerPayment(w.book, evs);
  }
}
