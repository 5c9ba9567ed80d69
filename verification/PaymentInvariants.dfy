/** What every reachable state of the payment tables keeps: `paid` is absorbing,
    prices add up, groups are settled by what their intent was paid, and codes
    count their paid intents. */
module PaymentInvariants {
  import opened Common
  import opened Points
  import opened Text
  import opened Discounts
  import opened RankingBook
  import opened RankingRuns
  import opened Payments
  import opened GroupLaws
  import opened PaymentRuns

  // ---------- enrollments stay paid ----------

  function TargetsOf(intent: Intent): set<Id> {
    (set e | e in intent.enrollments) + (if intent.enrollment.Some? then {intent.enrollment.value} else {})
  }

  /** Entries never change; paid rows stay paid; outside `touched` their amounts stay
      too. */
  ghost predicate BookKeeps(b: Book, c: Book, touched: set<Id>) {
    && |b.enrollments| <= |c.enrollments|
    && forall e :: 0 <= e < |b.enrollments| ==>
         && SameEntry(b.enrollments[e], c.enrollments[e])
         && (b.enrollments[e].isPaid ==> c.enrollments[e].isPaid)
         && (b.enrollments[e].isPaid && e !in touched ==> c.enrollments[e].paidAmount == b.enrollments[e].paidAmount)
  }

  lemma SettleOneKeeps(b: Book, e: Id, ref: string)
    ensures var c := SettleEnrollment(b, e, None, ref);
      && BookKeeps(b, c, {}) && |c.enrollments| == |b.enrollments| && (e < |b.enrollments| ==> c.enrollments[e].isPaid)
  {
    hide HasAward;
  }

  lemma SameEntryTransitive(a: Book, b: Book, c: Book)
    requires BookKeeps(a, b, {}) && BookKeeps(b, c, {})
    ensures BookKeeps(a, c, {})
  {
  }

  lemma {:induction false} SettleAllKeeps(b: Book, targets: seq<Id>, ref: string)
    ensures var c := SettleAll(b, targets, ref);
      && BookKeeps(b, c, {}) && |c.enrollments| == |b.enrollments|
      && forall e :: e in targets && e < |b.enrollments| ==> c.enrollments[e].isPaid
  {
    hide SettleEnrollment;
    if targets != [] {
      var init, last := targets[..|targets| - 1], targets[|targets| - 1];
      SettleAllKeeps(b, init, ref);
      SettleOneKeeps(SettleAll(b, init, ref), last, ref);
      SameEntryTransitive(b, SettleAll(b, init, ref), SettleAll(b, targets, ref));
      assert targets == init + [last];
    }
  }

  lemma ApplyToTargetsKeeps(b: Book, intent: Intent)
    ensures var c := ApplyToTargets(b, intent);
      && BookKeeps(b, c, TargetsOf(intent)) && |c.enrollments| == |b.enrollments|
      && c.info == b.info
      && forall e :: e in TargetsOf(intent) && e < |b.enrollments| ==> c.enrollments[e].isPaid
  {
    hide SettleAll;
    SettleAllKeeps(b, intent.enrollments, intent.refId);
    SettleAllInfo(b, intent.enrollments, intent.refId);
  }

  lemma {:induction false} SettleAllInfo(b: Book, targets: seq<Id>, ref: string)
    ensures SettleAll(b, targets, ref).info == b.info
  {
    if targets != [] {
      SettleAllInfo(b, targets[..|targets| - 1], ref);
    }
  }

  lemma EnrollEachKeeps(b: Book, rows: seq<Enrollment>, ref: string)
    requires Unpaid(rows)
    ensures BookKeeps(b, EnrollEach(b, rows, ref), {})
    ensures BookKeeps(b, Commit(EnrollEach(b, rows, ref)), {})
  {
    EnrollEachEffect(b, rows, ref);
    CommitKeepsTables(EnrollEach(b, rows, ref));
  }

  lemma StepKeepsEntries(b: Book, ev: Event)
    requires !ev.SettleTarget? && KeepsEntry(b, ev)
    ensures BookKeeps(b, Step(b, ev), {})
  {
    hide CleanResult, HasAward, AwardFor, PostingsOfAward, Shifted, RowsOfSnapshot, SnapshotOf, RowsOf, Without, Postings, Negated;
  }

  lemma RankingStepKeeps(w: World, ev: Event)
    ensures BookKeeps(w.book, RankingStep(w, ev).book, {})
  {
    hide Commit, Step;
    CommitKeepsTables(Step(w.book, ev));
    if !ev.SettleTarget? && KeepsEntry(w.book, ev) {
      StepKeepsEntries(w.book, ev);
    }
  }

  // ---------- how one step changes the tables ----------

  predicate SameTerms(x: Intent, y: Intent) {
    && x.amount == y.amount && x.originalAmount == y.originalAmount && x.discountAmount == y.discountAmount
    && x.discountCode == y.discountCode && x.description == y.description
    && x.enrollment == y.enrollment && x.enrollments == y.enrollments
  }

  /** An unpaid group may only be settled; a settled one never changes. */
  predicate GroupMoves(x: Group, y: Group) {
    && (x.isPaid ==> y == x)
    && x.coach == y.coach && x.competition == y.competition && x.totalAmount == y.totalAmount
    && x.payload.(enrollmentIds := []) == y.payload.(enrollmentIds := [])
  }

  predicate CodeMoves(x: Code, y: Code) {
    && x.code == y.code && x.percent == y.percent && x.competition == y.competition && x.maxUses == y.maxUses
    && x.usedCount <= y.usedCount && (y.active ==> x.active)
  }

  ghost predicate Evolves(w: World, v: World) {
    && |w.intents| <= |v.intents| && |w.groups| <= |v.groups| && |w.codes| == |v.codes|
    && (forall i :: 0 <= i < |w.intents| ==>
          && SameTerms(w.intents[i], v.intents[i])
          && (w.intents[i].status == IntentPaid ==> v.intents[i].status == IntentPaid))
    && (forall g :: 0 <= g < |w.groups| ==> GroupMoves(w.groups[g], v.groups[g]))
    && (forall c :: 0 <= c < |w.codes| ==> CodeMoves(w.codes[c], v.codes[c]))
  }

  ghost function AllTargets(w: World): set<Id> {
    set i, e | 0 <= i < |w.intents| && e in TargetsOf(w.intents[i]) :: e
  }

  lemma MarkIntentPaidMoves(w: World, i: Id, ref: string)
    requires i < |w.intents|
    ensures var v := Committed(MarkIntentPaid(w, i, ref));
      && Evolves(w, v) && BookKeeps(w.book, v.book, TargetsOf(w.intents[i]))
      && v.groups == w.groups && v.banks == w.banks && v.intents[i].status == IntentPaid
      && |v.intents| == |w.intents| && |v.book.enrollments| == |w.book.enrollments|
      && (forall j :: 0 <= j < |w.intents| && j != i ==> v.intents[j] == w.intents[j])
      && v.book.info == w.book.info
      && (w.intents[i].status != IntentPaid ==>
            forall e :: e in TargetsOf(w.intents[i]) && e < |w.book.enrollments| ==> v.book.enrollments[e].isPaid)
  {
    hide ApplyToTargets, Commit;
    var m := MarkIntentPaid(w, i, ref);
    CommitKeepsTables(m.book);
    if w.intents[i].status != IntentPaid {
      var paid := w.intents[i].(refId := FirstNonEmpty(ref, w.intents[i].refId), status := IntentPaid);
      assert TargetsOf(paid) == TargetsOf(w.intents[i]);
      ApplyToTargetsKeeps(w.book, paid);
    }
  }

  lemma FinalizeGroupMoves(w: World, description: string, ref: string)
    ensures var f := FinalizeGroup(w, description, ref);
      f.Finalised? ==>
        && Evolves(w, f.world) && BookKeeps(w.book, f.world.book, {})
        && f.world.intents == w.intents && f.world.banks == w.banks && f.world.codes == w.codes
  {
    hide EnrollEach, SearchMark;
    var found := ParseGroupId(description);
    if found.Some? && found.value < |w.groups| {
      EnrollEachKeeps(w.book, BankRows(w.book, w.groups[found.value]), ref);
    }
  }

  lemma EvolvesTransitive(u: World, v: World, w: World)
    requires Evolves(u, v) && Evolves(v, w)
    ensures Evolves(u, w)
  {
  }

  /** A payment result, taken apart: which intent, and the state after it was
      marked paid and before its group was finalised. */
  lemma SettleIntentMoves(w: World, i: Id, bank: BankRecord, tc: string, fails: bool)
    requires i < |w.intents|
    ensures var v := SettleIntent(w, i, bank, tc, fails).0;
      Evolves(w, v) && BookKeeps(w.book, v.book, TargetsOf(w.intents[i]))
  {
    var ref := PaidRef(bank, w.intents[i], tc);
    MarkIntentPaidMoves(w, i, ref);
    var paid := if w.intents[i].status == IntentPaid then w else Committed(MarkIntentPaid(w, i, ref));
    FinalizeGroupMoves(paid, w.intents[i].description, GroupRef(bank, tc));
    var v := SettleIntent(w, i, bank, tc, fails).0;
    EvolvesTransitive(w, paid, v);
  }

  lemma DispatchMoves(w: World, i: Id, credentials: bool, bank: BankStart)
    requires i < |w.intents| && w.intents[i].status != IntentPaid
    ensures var v := Dispatch(w, i, credentials, bank).0;
      Evolves(w, v) && BookKeeps(w.book, v.book, TargetsOf(w.intents[i])) && v.groups == w.groups
  {
    hide Commit, SettleAll;
    MarkIntentPaidMoves(w, i, FirstNonEmpty(w.intents[i].refId, "FREE-0-RIAL"));
    MarkIntentPaidMoves(w, i, FirstNonEmpty(w.intents[i].refId, "DUMMY-REF"));
  }

  lemma StartMoves(w: World, i: Id, req: StartRequest, bank: BankStart)
    ensures var v := StartPayment(w, i, req, bank).0;
      Evolves(w, v) && BookKeeps(w.book, v.book, AllTargets(w)) && v.groups == w.groups
  {
    hide Commit, SettleAll;
    if i < |w.intents| && w.intents[i].status != IntentPaid {
      var begun := w.(intents := w.intents[i := w.intents[i].(gateway := req.gateway)]);
      assert TargetsOf(begun.intents[i]) == TargetsOf(w.intents[i]) <= AllTargets(w);
      assert Evolves(w, begun);
      DispatchMoves(begun, i, req.credentials, bank);
      EvolvesTransitive(w, begun, Dispatch(begun, i, req.credentials, bank).0);
    }
  }

  lemma ResultMoves(w: World, tc: string, fails: bool)
    ensures var v := PaymentResult(w, tc, fails).0;
      Evolves(w, v) && BookKeeps(w.book, v.book, AllTargets(w))
  {
    hide SettleIntent, FindIntent, FindBank;
    var k := FindBank(w.banks, tc, 0);
    if k.Some? && FindIntent(w, tc, k.value).Some? {
      var i := FindIntent(w, tc, k.value).value;
      SettleIntentMoves(w, i, w.banks[k.value], tc, fails);
      assert TargetsOf(w.intents[i]) <= AllTargets(w);
    }
  }

  lemma PostMoves(w: World, req: PostRequest)
    ensures var v := PostGroup(w, req).0;
      Evolves(w, v) && BookKeeps(w.book, v.book, {})
  {
    hide EnrollEach, FirstEligible, Commit, FreeRows;
    var p := PostGroup(w, req);
    if p.1.EnrolledNow? {
      var q := PostQuote(w, req);
      EnrollEachKeeps(w.book, FreeRows(w.book, req.competition, req.coach, PayloadOf(req, w.codes, q)),
                      TestRef(|w.groups|, q.finalAmount));
    }
  }

  function PostQuote(w: World, req: PostRequest): Quote {
    if req.discountText == "" then Quote(req.entryFee * |req.items|, None, 0)
    else ApplyDiscount(w.codes, Some(req.competition), req.entryFee * |req.items|, req.discountText)
  }

  /** One step of the system, whatever it is. */
  lemma ActMoves(w: World, a: Action)
    ensures Evolves(w, Act(w, a)) && BookKeeps(w.book, Act(w, a).book, AllTargets(w))
  {
    hide EnrollEach, Commit, FindByToken, FindByRef, FindBank, SearchMark;
    match a
    case Start(i, req, bank) => StartMoves(w, i, req, bank);
    case Result(tc, fails) => ResultMoves(w, tc, fails);
    case Post(req) => PostMoves(w, req);
    case Ranking(ev) => RankingStepKeeps(w, ev);
    case _ =>
  }

  lemma {:induction false} ActAllMoves(w: World, acts: seq<Action>)
    ensures Evolves(w, ActAll(w, acts))
    ensures |w.book.enrollments| <= |ActAll(w, acts).book.enrollments|
    ensures forall e :: 0 <= e < |w.book.enrollments| && w.book.enrollments[e].isPaid
                        ==> ActAll(w, acts).book.enrollments[e].isPaid
  {
    if acts != [] {
      var before := ActAll(w, acts[..|acts| - 1]);
      ActAllMoves(w, acts[..|acts| - 1]);
      ActMoves(before, acts[|acts| - 1]);
      EvolvesTransitive(w, before, Act(before, acts[|acts| - 1]));
    }
  }
}
