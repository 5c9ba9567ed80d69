/** Payment intents, group registrations and their settlement, as values. Each
    handler is one step on the tables; commit runs the queued award callbacks. */
module Payments {
  import opened Common
  import opened Text
  import opened Shares
  import opened Discounts
  import opened RankingBook

  // ---------- rows ----------

  datatype Gateway = SadadGateway | BmiGateway | FakeGateway | DummyGateway | OtherGateway

  datatype IntentStatus = Initiated | Redirected | IntentPaid | Failed

  /** A `PaymentIntent`; `enrollment` and `enrollments` are its targets. */
  datatype Intent = Intent(
    amount: int,
    originalAmount: int,
    discountAmount: int,
    discountCode: Option<Id>,
    description: string,
    gateway: Gateway,
    status: IntentStatus,
    token: string,
    refId: string,
    linkToken: string,
    enrollment: Option<Id>,
    enrollments: seq<Id>)

  /** One student of a group registration, as stored in the payload. */
  datatype Item = Item(
    player: Id,
    declaredWeight: real,
    insuranceNumber: string,
    insuranceIssueDate: string,
    beltGroup: Option<Id>,
    weightCategory: Option<Id>,
    club: Option<Id>,
    clubName: string,
    board: Option<Id>,
    boardName: string)

  datatype Payload = Payload(
    items: seq<Item>,
    rawTotal: int,
    discountAmount: int,
    payableAmount: int,
    discountCode: Option<string>,
    enrollmentIds: seq<Id>)

  /** A `GroupRegistrationPayment`. */
  datatype Group = Group(
    coach: Id,
    competition: Id,
    payload: Payload,
    totalAmount: int,
    isPaid: bool,
    bankRefCode: string)

  /** The bank package's record of one trip to the bank. `intent` is the intent the
      trip was made for; no handler reads it. `ref` is what `_extract_ref_from_extra`
      reads from the record, `reference` its reference number. */
  datatype BankRecord = BankRecord(
    intent: Id,
    trackingCode: string,
    amount: int,
    isSuccess: bool,
    ref: string,
    reference: string)

  datatype World = World(
    book: Book,
    intents: seq<Intent>,
    groups: seq<Group>,
    codes: seq<Code>,
    banks: seq<BankRecord>)

  function FirstNonEmpty(x: string, y: string): string {
    if x != "" then x else y
  }

  // ---------- PaymentIntent.mark_paid ----------

  function SettleAll(b: Book, targets: seq<Id>, ref: string): Book {
    if targets == [] then b
    else SettleEnrollment(SettleAll(b, targets[..|targets| - 1], ref), targets[|targets| - 1], None, ref)
  }

  /** `_apply_success_to_targets`: the bulk targets keep their own amounts, a single
      target gets the intent's. */
  function ApplyToTargets(b: Book, intent: Intent): Book {
    var bulk := SettleAll(b, intent.enrollments, intent.refId);
    if intent.enrollment.Some?
    then SettleEnrollment(bulk, intent.enrollment.value, Some(intent.amount), intent.refId)
    else bulk
  }

  /** One more use of a code; a code that reaches its cap is switched off. */
  function CountUse(codes: seq<Code>, c: Option<Id>): seq<Code> {
    if c.None? || c.value >= |codes| then codes
    else
      var used := codes[c.value].(usedCount := codes[c.value].usedCount + 1);
      codes[c.value := if HasRoom(used) then used else used.(active := false)]
  }

  function MarkIntentPaid(w: World, i: Id, ref: string): World {
    if i >= |w.intents| || w.intents[i].status == IntentPaid then w
    else
      var paid := w.intents[i].(refId := FirstNonEmpty(ref, w.intents[i].refId), status := IntentPaid);
      w.(intents := w.intents[i := paid],
         book := ApplyToTargets(w.book, paid),
         codes := CountUse(w.codes, paid.discountCode))
  }

  function Committed(w: World): World {
    w.(book := Commit(w.book))
  }

  // ---------- enrolling a paid group ----------

  /** The bank callback splits the payload's amount, or the group's when the
      payload has none. */
  function BankAmount(g: Group): int {
    if g.payload.payableAmount != 0 then g.payload.payableAmount else g.totalAmount
  }

  /** The row the bank callback inserts. */
  function BankRow(g: Group, coachName: string, it: Item, part: int): Enrollment {
    Enrollment(g.competition, it.player, Some(g.coach), coachName, it.club, it.clubName, it.board, it.boardName,
               it.beltGroup, it.weightCategory, it.declaredWeight, it.insuranceNumber, it.insuranceIssueDate,
               g.payload.discountCode, 0, part, PendingPayment, false, 0, "")
  }

  /** The row the free or test path inserts. */
  function FreeRow(comp: Id, coach: Id, coachName: string, p: Payload, it: Item, part: int): Enrollment {
    Enrollment(comp, it.player, Some(coach), coachName, it.club, it.clubName, it.board, it.boardName,
               it.beltGroup, it.weightCategory, it.declaredWeight, it.insuranceNumber, it.insuranceIssueDate,
               p.discountCode, 0, part, PendingPayment, false, 0, "")
  }

  function BankRows(b: Book, g: Group): (rows: seq<Enrollment>)
    ensures |rows| == |g.payload.items| && forall k :: 0 <= k < |rows| ==> !rows[k].isPaid
  {
    var parts := EvenSplit(BankAmount(g), |g.payload.items|);
    seq(|g.payload.items|, k requires 0 <= k < |parts| =>
      BankRow(g, InfoOf(b, g.coach).name, g.payload.items[k], parts[k]))
  }

  function FreeRows(b: Book, comp: Id, coach: Id, p: Payload): (rows: seq<Enrollment>)
    ensures |rows| == |p.items| && forall k :: 0 <= k < |rows| ==> !rows[k].isPaid
  {
    var parts := EvenSplit(p.payableAmount, |p.items|);
    seq(|p.items|, k requires 0 <= k < |parts| => FreeRow(comp, coach, InfoOf(b, coach).name, p, p.items[k], parts[k]))
  }

  /** One turn of either finaliser's loop: insert the row, then mark it paid. */
  function EnrollOne(b: Book, row: Enrollment, ref: string): Book {
    MarkPaid(CreateEnrollment(b, row), |b.enrollments|, row.payableAmount, ref)
  }

  function EnrollEach(b: Book, rows: seq<Enrollment>, ref: string): Book {
    if rows == [] then b else EnrollOne(EnrollEach(b, rows[..|rows| - 1], ref), rows[|rows| - 1], ref)
  }

  function IdsFrom(first: Id, n: nat): (ids: seq<Id>)
    ensures |ids| == n && forall k :: 0 <= k < n ==> ids[k] == first + k
  {
    seq(n, k requires 0 <= k => first + k)
  }

  /** Every student still has a profile; otherwise the loop raises and its
      transaction is undone. */
  predicate PlayersExist(b: Book, items: seq<Item>) {
    forall k :: 0 <= k < |items| ==> items[k].player in b.info
  }

  datatype Finalised = Finalised(world: World, ids: seq<Id>) | Raised

  /** `_finalize_group_payment_if_needed` */
  function FinalizeGroup(w: World, description: string, ref: string): Finalised {
    var found := ParseGroupId(description);
    if found.None? || found.value >= |w.groups| then Finalised(w, [])
    else
      var g := w.groups[found.value];
      if g.isPaid then Finalised(w, g.payload.enrollmentIds)
      else if g.payload.items == [] then Finalised(w, [])
      else if !PlayersExist(w.book, g.payload.items) then Raised
      else
        var ids := IdsFrom(|w.book.enrollments|, |g.payload.items|);
        var done := g.(isPaid := true, bankRefCode := ref, payload := g.payload.(enrollmentIds := ids));
        Finalised(Committed(w.(book := EnrollEach(w.book, BankRows(w.book, g), ref),
                               groups := w.groups[found.value := done])), ids)
  }

  // ---------- payment_result_redirect ----------

  function FindBank(banks: seq<BankRecord>, tc: string, i: nat): (r: Option<Id>)
    ensures r.Some? ==> i <= r.value < |banks| && banks[r.value].trackingCode == tc
    decreases |banks| - i
  {
    if i >= |banks| then None
    else if banks[i].trackingCode == tc then Some(i)
    else FindBank(banks, tc, i + 1)
  }

  /** The newest intent with this token, among the first `n`. */
  function FindByToken(intents: seq<Intent>, tc: string, n: nat): (r: Option<Id>)
    requires n <= |intents|
    ensures r.Some? ==> r.value < n && intents[r.value].token == tc
    ensures r.None? ==> forall k :: 0 <= k < n ==> intents[k].token != tc
  {
    if n == 0 then None
    else if intents[n - 1].token == tc then Some(n - 1)
    else FindByToken(intents, tc, n - 1)
  }

  /** The newest intent with this reference, among the first `n`. */
  function FindByRef(intents: seq<Intent>, ref: string, n: nat): (r: Option<Id>)
    requires n <= |intents|
    ensures r.Some? ==> r.value < n && intents[r.value].refId == ref
    ensures r.None? ==> forall k :: 0 <= k < n ==> intents[k].refId != ref
  {
    if n == 0 then None
    else if intents[n - 1].refId == ref then Some(n - 1)
    else FindByRef(intents, ref, n - 1)
  }

  /** By token, else by the bank record's id kept in `ref_id`. */
  function FindIntent(w: World, tc: string, bank: Id): (r: Option<Id>)
    ensures r.Some? ==> r.value < |w.intents|
  {
    var byToken := FindByToken(w.intents, tc, |w.intents|);
    if byToken.Some? then byToken else FindByRef(w.intents, Decimal(bank), |w.intents|)
  }

  /** What the redirect to the front end carries. */
  datatype Answer =
    | PlainOk
    | ToFrontend(ok: bool, intent: Option<Id>, enrollmentIds: seq<Id>)

  /** The reference handed to `mark_paid`. */
  function PaidRef(bank: BankRecord, intent: Intent, tc: string): string {
    FirstNonEmpty(bank.ref, FirstNonEmpty(bank.reference, FirstNonEmpty(intent.refId, tc)))
  }

  /** The reference handed to the group finaliser. */
  function GroupRef(bank: BankRecord, tc: string): string {
    FirstNonEmpty(bank.ref, FirstNonEmpty(bank.reference, tc))
  }

  /** A successful bank record found its intent: mark it paid unless it is, then
      finalise its group. `fails` is an exception raised while finalising, which
      undoes that transaction only. */
  function SettleIntent(w: World, i: Id, bank: BankRecord, tc: string, fails: bool): (World, seq<Id>)
    requires i < |w.intents|
  {
    var paid := if w.intents[i].status == IntentPaid then w
                else Committed(MarkIntentPaid(w, i, PaidRef(bank, w.intents[i], tc)));
    var f := if fails then Raised else FinalizeGroup(paid, w.intents[i].description, GroupRef(bank, tc));
    if f.Raised? then (paid, []) else (f.world, f.ids)
  }

  function FailIntent(w: World, i: Id): World
    requires i < |w.intents|
  {
    if w.intents[i].status == IntentPaid then w
    else w.(intents := w.intents[i := w.intents[i].(status := Failed)])
  }

  function PaymentResult(w: World, tc: string, fails: bool): (World, Answer) {
    var k := FindBank(w.banks, tc, 0);
    if tc == "" || k.None? then (w, PlainOk)
    else
      var bank := w.banks[k.value];
      var i := FindIntent(w, tc, k.value);
      if i.None? then (w, ToFrontend(bank.isSuccess, None, []))
      else if bank.isSuccess then
        var (w', ids) := SettleIntent(w, i.value, bank, tc, fails);
        (w', ToFrontend(true, i, ids))
      else (FailIntent(w, i.value), ToFrontend(false, i, []))
  }

  // ---------- create_intent, create_payment_link ----------

  datatype Created = Rejected | CreatedIntent(id: Id)

  /** `create_intent` for a competition (or none); the client writes the description. */
  function CreateIntent(w: World, base: int, competition: Option<Id>, text: string, description: string, gateway: Gateway)
    : (World, Created)
  {
    if base < MINIMUM_RIALS then (w, Rejected)
    else
      var q := if text == "" then Quote(base, None, 0) else ApplyDiscount(w.codes, competition, base, text);
      if q.NoQuote? || 0 < q.finalAmount < MINIMUM_RIALS then (w, Rejected)
      else
        var intent := Intent(q.finalAmount, base, q.discount, q.code, description, gateway, Initiated, "", "", "", None, []);
        (w.(intents := w.intents + [intent]), CreatedIntent(|w.intents|))
  }

  /** `create_payment_link` */
  function IssueLink(w: World, i: Id, linkToken: string): World {
    if i >= |w.intents| || w.intents[i].status == IntentPaid then w
    else w.(intents := w.intents[i := w.intents[i].(linkToken := linkToken)])
  }

  // ---------- starting a payment ----------

  datatype StartRequest = StartRequest(enabled: bool, gateway: Gateway, callbackAllowed: bool, credentials: bool)

  /** What the bank package does when asked for a new record. */
  datatype BankStart = Ready(trackingCode: string) | BankError

  datatype StartAnswer =
    | Disabled | NotFound | AlreadyPaid | AlreadyRedirected | CallbackRefused
    | FreePaid | DummyPaid | NoCredentials | AmountTooSmall | SentToBank | BankFailed | Unsupported

  /** `_dispatch_to_gateway`, on an intent that `_begin` let through. */
  function Dispatch(w: World, i: Id, credentials: bool, bank: BankStart): (World, StartAnswer)
    requires i < |w.intents|
  {
    var intent := w.intents[i];
    if intent.amount <= 0 then
      (Committed(MarkIntentPaid(w, i, FirstNonEmpty(intent.refId, "FREE-0-RIAL"))), FreePaid)
    else if intent.gateway == DummyGateway then
      (Committed(MarkIntentPaid(w, i, FirstNonEmpty(intent.refId, "DUMMY-REF"))), DummyPaid)
    else if intent.gateway != SadadGateway && intent.gateway != BmiGateway then (w, Unsupported)
    else if !credentials then (w, NoCredentials)
    else if intent.amount < MINIMUM_RIALS then (w, AmountTooSmall)
    else if bank.BankError? then
      (w.(intents := w.intents[i := intent.(status := Failed)]), BankFailed)
    else
      var record := BankRecord(i, bank.trackingCode, intent.amount, false, "", "");
      var sent := intent.(token := bank.trackingCode,
                          refId := FirstNonEmpty(intent.refId, Decimal(|w.banks|)),
                          status := Redirected);
      (w.(intents := w.intents[i := sent], banks := w.banks + [record]), SentToBank)
  }

  /** `StartPaymentView`: `_begin` refuses, or stores the gateway and goes on. */
  function StartPayment(w: World, i: Id, req: StartRequest, bank: BankStart): (World, StartAnswer) {
    if !req.enabled && req.gateway != DummyGateway then (w, Disabled)
    else if i >= |w.intents| then (w, NotFound)
    else if w.intents[i].status == IntentPaid then (w, AlreadyPaid)
    else if w.intents[i].status == Redirected && w.intents[i].token != "" then (w, AlreadyRedirected)
    else if !req.callbackAllowed then (w, CallbackRefused)
    else Dispatch(w.(intents := w.intents[i := w.intents[i].(gateway := req.gateway)]), i, req.credentials, bank)
  }

  /** The bank's verdict on a record, stored by the callback's verification. */
  function RecordVerdict(w: World, k: Id, success: bool, ref: string, reference: string): World {
    if k >= |w.banks| then w
    else w.(banks := w.banks[k := w.banks[k].(isSuccess := success, ref := ref, reference := reference)])
  }

  // ---------- CoachRegisterStudentsView.post ----------

  /** `items` are the students that passed the per-student checks. */
  datatype PostRequest = PostRequest(
    coach: Id,
    competition: Id,
    open: bool,
    entryFee: nat,
    items: seq<Item>,
    discountText: string,
    preview: bool,
    gateway: Gateway,
    paymentsEnabled: bool)

  datatype PostAnswer =
    | RegistrationClosed | NothingToRegister | FeeNotInRials | BadDiscount | ServerError
    | Preview(raw: int, discount: int, payable: int)
    | EnrolledNow(group: Id, ids: seq<Id>)
    | PaymentRequired(toPay: Id, intent: Id)

  function CodeText(codes: seq<Code>, c: Option<Id>): Option<string> {
    if c.Some? && c.value < |codes| then Some(codes[c.value].code) else None
  }

  function PayloadOf(req: PostRequest, codes: seq<Code>, q: Quote): Payload
    requires q.Quote?
  {
    Payload(req.items, req.entryFee * |req.items|, q.discount, q.finalAmount, CodeText(codes, q.code), [])
  }

  function TestRef(g: Id, payable: int): string {
    if payable == 0 then "FREE" else "TEST-COACH-GP-" + SixDigits(g)
  }

  function PostGroup(w: World, req: PostRequest): (World, PostAnswer) {
    if !req.open then (w, RegistrationClosed)
    else if req.items == [] then (w, NothingToRegister)
    else if 0 < req.entryFee < MINIMUM_RIALS then (w, FeeNotInRials)
    else
      var raw := req.entryFee * |req.items|;
      var q := if req.discountText == "" then Quote(raw, None, 0)
               else ApplyDiscount(w.codes, Some(req.competition), raw, req.discountText);
      if q.NoQuote? then (w, BadDiscount)
      else if req.preview then (w, Preview(raw, q.discount, q.finalAmount))
      else
        var g := |w.groups|;
        var payload := PayloadOf(req, w.codes, q);
        var group := Group(req.coach, req.competition, payload, q.finalAmount, false, "");
        if !req.paymentsEnabled || q.finalAmount == 0 then
          if !PlayersExist(w.book, req.items) then (w, ServerError)
          else
            var ref := TestRef(g, q.finalAmount);
            var ids := IdsFrom(|w.book.enrollments|, |req.items|);
            var rows := FreeRows(w.book, req.competition, req.coach, payload);
            var done := group.(isPaid := true, bankRefCode := ref, payload := payload.(enrollmentIds := ids));
            (Committed(w.(book := EnrollEach(w.book, rows, ref), groups := w.groups + [done])), EnrolledNow(g, ids))
        else
          var intent := Intent(q.finalAmount, raw, q.discount, q.code, GroupDescription(g), req.gateway,
                               Initiated, "", "", "", None, []);
          (w.(groups := w.groups + [group], intents := w.intents + [intent]), PaymentRequired(g, |w.intents|))
  }
}
