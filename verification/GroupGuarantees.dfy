/** Group registrations over whole runs: a settled group's enrollments are its
    students' and are paid, together, exactly the group's amount. As long as no client
    writes a description that names a group, its own intent is then paid. */
module GroupGuarantees {
  import opened Common
  import opened Text
  import opened Shares
  import opened Discounts
  import opened RankingBook
  import opened Payments
  import opened GroupLaws
  import opened PaymentRuns
  import opened PaymentInvariants
  import opened PaymentGuarantees

  /** The group an intent's description names, if it does. */
  predicate Names(intent: Intent, g: Id) {
    ParseGroupId(intent.description) == Some(g)
  }

  /** Each intent that names a group is that group's only one and carries its
      amount; a settled group's intent is paid. */
  ghost predicate Linked(w: World) {
    forall i :: 0 <= i < |w.intents| ==>
      forall g: Id :: Names(w.intents[i], g) ==>
        && g < |w.groups|
        && w.intents[i].amount == w.groups[g].payload.payableAmount != 0
        && (w.groups[g].isPaid ==> w.intents[i].status == IntentPaid)
        && forall j :: 0 <= j < |w.intents| && Names(w.intents[j], g) ==> j == i
  }

  /** The row of student `k` of a group. */
  predicate EntryOf(row: Enrollment, g: Group, k: nat)
    requires k < |g.payload.items|
  {
    var it := g.payload.items[k];
    && row.competition == g.competition && row.player == it.player
    && row.beltGroup == it.beltGroup && row.weightCategory == it.weightCategory && row.declaredWeight == it.declaredWeight
    && row.insuranceNumber == it.insuranceNumber && row.insuranceIssueDate == it.insuranceIssueDate
    && row.discountCode == g.payload.discountCode
    && row.payableAmount == EvenSplit(g.payload.payableAmount, |g.payload.items|)[k]
  }

  /** A settled group: its recorded enrollments are new rows of their own, one a
      student, all paid, each with its part of the amount. */
  predicate SettledProperly(b: Book, g: Group) {
    var p := g.payload;
    var parts := EvenSplit(p.payableAmount, |p.items|);
    && |p.enrollmentIds| == |p.items| > 0
    && (forall j, k :: 0 <= j < k < |p.enrollmentIds| ==> p.enrollmentIds[j] < p.enrollmentIds[k])
    && forall k :: 0 <= k < |p.items| ==>
         && p.enrollmentIds[k] < |b.enrollments|
         && EntryOf(b.enrollments[p.enrollmentIds[k]], g, k)
         && b.enrollments[p.enrollmentIds[k]].isPaid
         && b.enrollments[p.enrollmentIds[k]].paidAmount == parts[k]
  }

  ghost predicate GroupsSound(w: World) {
    && TargetsExist(w)
    && forall g :: 0 <= g < |w.groups| ==>
         && w.groups[g].payload.rawTotal == w.groups[g].payload.payableAmount + w.groups[g].payload.discountAmount
         && w.groups[g].payload.payableAmount == w.groups[g].totalAmount
         && (w.groups[g].isPaid ==>
               && SettledProperly(w.book, w.groups[g])
               && forall e :: e in w.groups[g].payload.enrollmentIds ==> e !in AllTargets(w))
  }

  lemma SettledStays(b: Book, c: Book, g: Group, touched: set<Id>)
    requires SettledProperly(b, g) && BookKeeps(b, c, touched)
    requires forall e :: e in g.payload.enrollmentIds ==> e !in touched
    ensures SettledProperly(c, g)
  {
  }

  lemma TargetsOfSame(w: World, v: World)
    requires Evolves(w, v)
    requires forall i :: |w.intents| <= i < |v.intents| ==> TargetsOf(v.intents[i]) == {}
    ensures AllTargets(v) == AllTargets(w)
  {
    forall i | 0 <= i < |w.intents| ensures TargetsOf(v.intents[i]) == TargetsOf(w.intents[i]) {
      assert SameTerms(w.intents[i], v.intents[i]);
    }
  }

  /** Both finalisers build the students' entries, in order. */
  lemma RowsAreEntries(b: Book, g: Group)
    requires g.payload.payableAmount == g.totalAmount
    ensures forall k :: 0 <= k < |g.payload.items| ==> EntryOf(BankRows(b, g)[k], g, k)
  {
    hide EvenSplit;
  }

  lemma FreeRowsAreEntries(b: Book, g: Group)
    ensures forall k :: 0 <= k < |g.payload.items| ==> EntryOf(FreeRows(b, g.competition, g.coach, g.payload)[k], g, k)
  {
    hide EvenSplit;
  }

  /** A finaliser's row, once paid, is its student's entry, whatever ids its group
      records. */
  lemma PaidEntry(row: Enrollment, ref: string, g: Group, done: Group, k: nat)
    requires k < |g.payload.items| && EntryOf(row, g, k) && !row.isPaid
    requires done.competition == g.competition
    requires done.payload == g.payload.(enrollmentIds := done.payload.enrollmentIds)
    ensures var paid := PaidRow(row, row.payableAmount, ref);
      && |done.payload.items| == |g.payload.items| && EntryOf(paid, done, k)
      && paid.isPaid && paid.paidAmount == EvenSplit(done.payload.payableAmount, |done.payload.items|)[k]
  {
    hide EvenSplit;
  }

  lemma EnrolledRow(b: Book, rows: seq<Enrollment>, ref: string, k: nat)
    requires Unpaid(rows) && k < |rows|
    ensures var c := Commit(EnrollEach(b, rows, ref));
      && |c.enrollments| == |b.enrollments| + |rows|
      && c.enrollments[|b.enrollments| + k] == PaidRow(rows[k], rows[k].payableAmount, ref)
  {
    hide EnrollEach, Commit, PaidRow;
    EnrollEachEffect(b, rows, ref);
    CommitKeepsTables(EnrollEach(b, rows, ref));
    assert PaidRows(rows, ref)[k] == PaidRow(rows[k], rows[k].payableAmount, ref);
  }

  /** The finalisers' loop leaves a properly settled group. */
  lemma EnrolledIsSettled(b: Book, rows: seq<Enrollment>, ref: string, g: Group, done: Group)
    requires |rows| == |g.payload.items| > 0 && Unpaid(rows)
    requires forall k :: 0 <= k < |rows| ==> EntryOf(rows[k], g, k)
    requires done.competition == g.competition && done.payload == g.payload.(enrollmentIds := IdsFrom(|b.enrollments|, |g.payload.items|))
    ensures SettledProperly(Commit(EnrollEach(b, rows, ref)), done)
    ensures forall e :: e in done.payload.enrollmentIds ==> e >= |b.enrollments|
  {
    hide EnrollEach, Commit, PaidRow, EntryOf, EvenSplit;
    var c, p := Commit(EnrollEach(b, rows, ref)), done.payload;
    assert |p.items| == |p.enrollmentIds| == |rows|;
    forall k | 0 <= k < |rows|
      ensures
        && p.enrollmentIds[k] < |c.enrollments| && EntryOf(c.enrollments[p.enrollmentIds[k]], done, k)
        && c.enrollments[p.enrollmentIds[k]].isPaid
        && c.enrollments[p.enrollmentIds[k]].paidAmount == EvenSplit(p.payableAmount, |p.items|)[k]
    {
      EnrolledRow(b, rows, ref, k);
      PaidEntry(rows[k], ref, g, done, k);
    }
  }

  lemma MarkKeepsGroups(w: World, i: Id, ref: string)
    requires GroupsSound(w) && i < |w.intents|
    ensures GroupsSound(Committed(MarkIntentPaid(w, i, ref)))
  {
    var v := Committed(MarkIntentPaid(w, i, ref));
    MarkIntentPaidMoves(w, i, ref);
    TargetsOfSame(w, v);
    assert TargetsOf(w.intents[i]) <= AllTargets(w);
    forall g | 0 <= g < |v.groups| && v.groups[g].isPaid ensures SettledProperly(v.book, v.groups[g]) {
      SettledStays(w.book, v.book, w.groups[g], TargetsOf(w.intents[i]));
    }
    TargetsKept(w, v);
  }

  lemma TargetsKept(w: World, v: World)
    requires TargetsExist(w) && Evolves(w, v) && |w.book.enrollments| <= |v.book.enrollments|
    requires forall i :: |w.intents| <= i < |v.intents| ==> TargetsOf(v.intents[i]) == {}
    ensures TargetsExist(v)
  {
    forall i | 0 <= i < |w.intents| ensures TargetsOf(v.intents[i]) == TargetsOf(w.intents[i]) {
      assert SameTerms(w.intents[i], v.intents[i]);
    }
  }

  /** Steps that leave groups alone and keep what was paid. */
  lemma QuietStep(w: World, v: World)
    requires GroupsSound(w) && Evolves(w, v) && BookKeeps(w.book, v.book, AllTargets(w))
    requires v.groups == w.groups
    requires forall i :: |w.intents| <= i < |v.intents| ==> TargetsOf(v.intents[i]) == {}
    ensures GroupsSound(v)
  {
    TargetsOfSame(w, v);
    TargetsKept(w, v);
    forall g | 0 <= g < |v.groups| && v.groups[g].isPaid ensures SettledProperly(v.book, v.groups[g]) {
      SettledStays(w.book, v.book, w.groups[g], AllTargets(w));
    }
  }

  /** Finalising whatever group a description names. */
  lemma FinalizeKeepsGroups(w: World, description: string, ref: string)
    requires GroupsSound(w)
    ensures var f := FinalizeGroup(w, description, ref); f.Finalised? ==> GroupsSound(f.world)
  {
    hide EnrollEach, Commit, BankRows, EntryOf, EvenSplit, SearchMark;
    var found := ParseGroupId(description);
    var f := FinalizeGroup(w, description, ref);
    if f.Finalised? && f.world != w {
      var n, g := found.value, w.groups[found.value];
      var v := f.world;
      FinalizeGroupMoves(w, description, ref);
      TargetsOfSame(w, v);
      TargetsKept(w, v);
      RowsAreEntries(w.book, g);
      EnrolledIsSettled(w.book, BankRows(w.book, g), ref, g, v.groups[n]);
      forall e | e in v.groups[n].payload.enrollmentIds ensures e !in AllTargets(v) {
        assert e >= |w.book.enrollments|;
      }
      forall k | 0 <= k < |v.groups| && k != n && v.groups[k].isPaid ensures SettledProperly(v.book, v.groups[k]) {
        SettledStays(w.book, v.book, w.groups[k], {});
      }
    }
  }

  lemma ResultKeepsGroups(w: World, tc: string, fails: bool)
    requires GroupsSound(w)
    ensures GroupsSound(PaymentResult(w, tc, fails).0)
  {
    var k := FindBank(w.banks, tc, 0);
    if k.Some? && FindIntent(w, tc, k.value).Some? {
      var bank, i := w.banks[k.value], FindIntent(w, tc, k.value).value;
      if bank.isSuccess {
        var ref := PaidRef(bank, w.intents[i], tc);
        MarkKeepsGroups(w, i, ref);
        MarkIntentPaidMoves(w, i, ref);
        var paid := if w.intents[i].status == IntentPaid then w else Committed(MarkIntentPaid(w, i, ref));
        FinalizeKeepsGroups(paid, w.intents[i].description, GroupRef(bank, tc));
      } else {
        ResultMoves(w, tc, fails);
        QuietStep(w, FailIntent(w, i));
      }
    }
  }

  lemma StartKeepsGroups(w: World, i: Id, req: StartRequest, bank: BankStart)
    requires GroupsSound(w)
    ensures GroupsSound(StartPayment(w, i, req, bank).0)
  {
    StartMoves(w, i, req, bank);
    SameLength(w, Start(i, req, bank));
    QuietStep(w, StartPayment(w, i, req, bank).0);
  }

  /** A group that `post` enrolls at once. */
  lemma PostedIsSettled(w: World, req: PostRequest)
    requires PostGroup(w, req).1.EnrolledNow?
    ensures var v := PostGroup(w, req).0;
      && |v.groups| == |w.groups| + 1 && SettledProperly(v.book, v.groups[|w.groups|])
      && forall e :: e in v.groups[|w.groups|].payload.enrollmentIds ==> e >= |w.book.enrollments|
  {
    hide EnrollEach, Commit, ApplyDiscount, FreeRows, EntryOf, EvenSplit, SettledProperly;
    var n, q := |w.groups|, PostQuote(w, req);
    var payload := PayloadOf(req, w.codes, q);
    var group := Group(req.coach, req.competition, payload, q.finalAmount, false, "");
    FreeRowsAreEntries(w.book, group);
    EnrolledIsSettled(w.book, FreeRows(w.book, req.competition, req.coach, payload), TestRef(n, q.finalAmount),
                      group, PostGroup(w, req).0.groups[n]);
  }

  lemma PostKeepsGroups(w: World, req: PostRequest)
    requires GroupsSound(w)
    ensures GroupsSound(PostGroup(w, req).0)
  {
    hide EnrollEach, Commit, ApplyDiscount, FreeRows, EvenSplit, SettledProperly, Linked, PlayersExist;
    var (v, answer) := PostGroup(w, req);
    PostMoves(w, req);
    PostQuoteExact(w, req);
    NewIntents(w, Post(req));
    PostedGroup(w, req);
    TargetsOfSame(w, v);
    TargetsKept(w, v);
    forall g | 0 <= g < |w.groups| && w.groups[g].isPaid ensures SettledProperly(v.book, v.groups[g]) {
      SettledStays(w.book, v.book, w.groups[g], {});
    }
    if answer.EnrolledNow? {
      PostedIsSettled(w, req);
      forall e | e in v.groups[|w.groups|].payload.enrollmentIds ensures e !in AllTargets(v) {
        assert e >= |w.book.enrollments|;
      }
    }
  }

  lemma ActKeepsGroups(w: World, a: Action)
    requires GroupsSound(w)
    ensures GroupsSound(Act(w, a))
  {
    match a
    case Start(i, req, bank) => StartKeepsGroups(w, i, req, bank);
    case Result(tc, fails) => ResultKeepsGroups(w, tc, fails);
    case Post(req) => PostKeepsGroups(w, req);
    case _ =>
      ActMoves(w, a);
      NewIntents(w, a);
      QuietStep(w, Act(w, a));
  }

  lemma {:induction false} ActAllKeepsGroups(w: World, acts: seq<Action>)
    requires GroupsSound(w)
    ensures GroupsSound(ActAll(w, acts))
  {
    if acts != [] {
      ActAllKeepsGroups(w, acts[..|acts| - 1]);
      ActKeepsGroups(ActAll(w, acts[..|acts| - 1]), acts[|acts| - 1]);
    }
  }

  // ---------- a group and its own intent ----------

  /** A client's own description names no group. */
  predicate NamesNoGroup(a: Action) {
    a.Create? ==> ParseGroupId(a.description).None?
  }

  /** Links survive any step that settles no group and names no new one. */
  lemma LinksKept(w: World, v: World)
    requires Linked(w) && Evolves(w, v)
    requires forall g :: 0 <= g < |w.groups| && v.groups[g].isPaid ==> w.groups[g].isPaid
    requires forall i :: |w.intents| <= i < |v.intents| ==> ParseGroupId(v.intents[i].description) == None
    ensures Linked(v)
  {
    forall i, g: Id | 0 <= i < |v.intents| && Names(v.intents[i], g)
      ensures
        && g < |v.groups|
        && v.intents[i].amount == v.groups[g].payload.payableAmount != 0
        && (v.groups[g].isPaid ==> v.intents[i].status == IntentPaid)
        && forall j :: 0 <= j < |v.intents| && Names(v.intents[j], g) ==> j == i
    {
      assert SameTerms(w.intents[i], v.intents[i]) && Names(w.intents[i], g);
      assert GroupMoves(w.groups[g], v.groups[g]);
      assert w.groups[g].payload.(enrollmentIds := []).payableAmount == v.groups[g].payload.(enrollmentIds := []).payableAmount;
      forall j | 0 <= j < |v.intents| && Names(v.intents[j], g) ensures j == i {
        assert SameTerms(w.intents[j], v.intents[j]) && Names(w.intents[j], g);
      }
    }
  }

  /** A new group and its intent are linked to each other and to nothing else. */
  lemma LinksWithNew(w: World, v: World)
    requires Linked(w) && Evolves(w, v)
    requires |v.groups| == |w.groups| + 1 && |v.intents| == |w.intents| + 1
    requires v.groups[..|w.groups|] == w.groups && v.intents[..|w.intents|] == w.intents
    requires Names(v.intents[|w.intents|], |w.groups|) && !v.groups[|w.groups|].isPaid
    requires v.intents[|w.intents|].amount == v.groups[|w.groups|].payload.payableAmount != 0
    ensures Linked(v)
  {
  }

  lemma PostKeepsLinks(w: World, req: PostRequest)
    requires Linked(w)
    ensures Linked(PostGroup(w, req).0)
  {
    hide EnrollEach, Commit, ApplyDiscount, FreeRows, PlayersExist, GroupDescription, ParseGroupId;
    var (v, answer) := PostGroup(w, req);
    PostMoves(w, req);
    if answer.PaymentRequired? {
      GroupDescriptionRoundTrip(|w.groups|);
      LinksWithNew(w, v);
    } else {
      LinksKept(w, v);
    }
  }

  /** Finalising the group of a paid intent. */
  lemma FinalizeKeepsLinks(w: World, i: Id, ref: string)
    requires Linked(w) && i < |w.intents| && w.intents[i].status == IntentPaid
    ensures var f := FinalizeGroup(w, w.intents[i].description, ref); f.Finalised? ==> Linked(f.world)
  {
    hide EnrollEach, Commit, BankRows, SearchMark;
    var found := ParseGroupId(w.intents[i].description);
    var f := FinalizeGroup(w, w.intents[i].description, ref);
    if f.Finalised? && f.world != w {
      assert Names(w.intents[i], found.value);
    }
  }

  lemma ResultKeepsLinks(w: World, tc: string, fails: bool)
    requires Linked(w)
    ensures Linked(PaymentResult(w, tc, fails).0)
  {
    hide Linked, EnrollEach, Commit, FindByToken, FindByRef, SearchMark, BankRows;
    var k := FindBank(w.banks, tc, 0);
    if k.Some? && FindIntent(w, tc, k.value).Some? {
      var bank, i := w.banks[k.value], FindIntent(w, tc, k.value).value;
      if bank.isSuccess {
        var ref := PaidRef(bank, w.intents[i], tc);
        MarkIntentPaidMoves(w, i, ref);
        var paid := if w.intents[i].status == IntentPaid then w else Committed(MarkIntentPaid(w, i, ref));
        LinksKept(w, paid);
        assert SameTerms(w.intents[i], paid.intents[i]);
        FinalizeKeepsLinks(paid, i, GroupRef(bank, tc));
      } else {
        ResultMoves(w, tc, fails);
        LinksKept(w, FailIntent(w, i));
      }
    }
  }

  lemma ActKeepsLinks(w: World, a: Action)
    requires Linked(w) && NamesNoGroup(a)
    ensures Linked(Act(w, a))
  {
    hide Linked, Commit, EnrollEach, FirstEligible, FreeRows, BankRows, SearchMark;
    match a
    case Start(i, req, bank) =>
      StartMoves(w, i, req, bank);
      SameLength(w, a);
      LinksKept(w, Act(w, a));
    case Result(tc, fails) => ResultKeepsLinks(w, tc, fails);
    case Post(req) => PostKeepsLinks(w, req);
    case _ =>
      ActMoves(w, a);
      LinksKept(w, Act(w, a));
  }

  lemma {:induction false} ActAllKeepsLinks(w: World, acts: seq<Action>)
    requires Linked(w) && forall m :: 0 <= m < |acts| ==> NamesNoGroup(acts[m])
    ensures Linked(ActAll(w, acts))
  {
    if acts != [] {
      ActAllKeepsLinks(w, acts[..|acts| - 1]);
      ActKeepsLinks(ActAll(w, acts[..|acts| - 1]), acts[|acts| - 1]);
    }
  }

  /** Over any run the recorded enrollments of a settled group all exist and are paid.
      If no client's description names a group, an intent that names it is its own, and
      is paid. */
  lemma SettledOnlyByItsIntent(w: World, acts: seq<Action>, g: Id)
    requires GroupsSound(w)
    ensures var v := ActAll(w, acts);
      g < |v.groups| && v.groups[g].isPaid ==>
        && |v.groups[g].payload.enrollmentIds| == |v.groups[g].payload.items|
        && (forall e :: e in v.groups[g].payload.enrollmentIds ==>
              e < |v.book.enrollments| && v.book.enrollments[e].isPaid)
        && (Linked(w) && (forall m :: 0 <= m < |acts| ==> NamesNoGroup(acts[m])) ==>
              forall i :: 0 <= i < |v.intents| && Names(v.intents[i], g) ==> v.intents[i].status == IntentPaid)
  {
    hide ActAll;
    ActAllKeepsGroups(w, acts);
    if Linked(w) && forall m :: 0 <= m < |acts| ==> NamesNoGroup(acts[m]) {
      ActAllKeepsLinks(w, acts);
    }
  }

  // ---------- money ----------

  /** A group's enrollments are paid, together, the group's amount. */
  lemma SettledSum(b: Book, g: Group)
    requires SettledProperly(b, g)
    ensures PaidTotal(b.enrollments, g.payload.enrollmentIds) == g.payload.payableAmount
  {
    var n := |g.payload.items|;
    EvenSplitIsEven(g.payload.payableAmount, n);
    PaidTotalIsSum(b.enrollments, g.payload.enrollmentIds, EvenSplit(g.payload.payableAmount, n));
  }

  /** The group and the intent that `post` makes together. */
  lemma PostedPair(w: World, req: PostRequest)
    requires PostGroup(w, req).1.PaymentRequired?
    ensures var (v, answer) := PostGroup(w, req);
      && answer.toPay < |v.groups| && answer.intent < |v.intents| && Names(v.intents[answer.intent], answer.toPay)
      && v.groups[answer.toPay].payload.items == req.items && v.groups[answer.toPay].competition == req.competition
      && v.groups[answer.toPay].payload.payableAmount == v.intents[answer.intent].amount
      && req.entryFee * |req.items| == v.intents[answer.intent].amount + v.intents[answer.intent].discountAmount
  {
    hide EnrollEach, Commit, ApplyDiscount, FreeRows, ParseGroupId, GroupDescription;
    PostQuoteExact(w, req);
    GroupDescriptionRoundTrip(|w.groups|);
  }

  /** A group after any run. */
  lemma SettledLater(w: World, acts: seq<Action>, g: Id)
    requires GroupsSound(w) && g < |w.groups|
    ensures var v := ActAll(w, acts);
      && g < |v.groups| && v.groups[g].payload.items == w.groups[g].payload.items
      && v.groups[g].payload.payableAmount == w.groups[g].payload.payableAmount
      && v.groups[g].competition == w.groups[g].competition
      && (v.groups[g].isPaid ==>
            && SettledProperly(v.book, v.groups[g])
            && PaidTotal(v.book.enrollments, v.groups[g].payload.enrollmentIds) == w.groups[g].payload.payableAmount)
  {
    hide ActAll, SettledProperly;
    var v := ActAll(w, acts);
    ActAllMoves(w, acts);
    ActAllKeepsGroups(w, acts);
    assert GroupMoves(w.groups[g], v.groups[g]);
    assert w.groups[g].payload.(enrollmentIds := []).items == v.groups[g].payload.(enrollmentIds := []).items;
    assert w.groups[g].payload.(enrollmentIds := []).payableAmount == v.groups[g].payload.(enrollmentIds := []).payableAmount;
    if v.groups[g].isPaid {
      SettledSum(v.book, v.groups[g]);
    }
  }

  /** Money is conserved from registration to settlement. After `post` asks for
      payment, in whatever state the system is later, if the group is settled then one
      enrollment a student exists and is paid, their paid amounts add up to the amount
      of the intent made with it, and that amount plus the discount is the fee times
      the number of students. If no client's description names a group, the intent is
      paid. */
  lemma MoneyConserved(w: World, req: PostRequest, acts: seq<Action>)
    requires GroupsSound(w) && PostGroup(w, req).1.PaymentRequired?
    ensures var (posted, answer) := PostGroup(w, req);
      var v := ActAll(posted, acts);
      && answer.toPay < |v.groups| && answer.intent < |v.intents|
      && v.groups[answer.toPay].payload.items == req.items
      && req.entryFee * |req.items| == v.intents[answer.intent].amount + v.intents[answer.intent].discountAmount
      && (v.groups[answer.toPay].isPaid ==>
            var ids := v.groups[answer.toPay].payload.enrollmentIds;
            && |ids| == |req.items|
            && (forall k :: 0 <= k < |ids| ==>
                  && ids[k] < |v.book.enrollments| && v.book.enrollments[ids[k]].isPaid
                  && v.book.enrollments[ids[k]].player == req.items[k].player
                  && v.book.enrollments[ids[k]].competition == req.competition)
            && PaidTotal(v.book.enrollments, ids) == v.intents[answer.intent].amount
            && (Linked(w) && (forall m :: 0 <= m < |acts| ==> NamesNoGroup(acts[m])) ==>
                  v.intents[answer.intent].status == IntentPaid))
  {
    hide PostGroup, ActAll, GroupsSound, Names, Linked, PaidTotal, EvenSplit;
    var (posted, answer) := PostGroup(w, req);
    PostKeepsGroups(w, req);
    PostedPair(w, req);
    SettledLater(posted, acts, answer.toPay);
    ActAllMoves(posted, acts);
    assert SameTerms(posted.intents[answer.intent], ActAll(posted, acts).intents[answer.intent]);
    if Linked(w) && forall m :: 0 <= m < |acts| ==> NamesNoGroup(acts[m]) {
      PostKeepsLinks(w, req);
      NamedStays(posted, acts, answer.intent, answer.toPay);
      SettledOnlyByItsIntent(posted, acts, answer.toPay);
    }
  }

  lemma NamedStays(w: World, acts: seq<Action>, i: Id, g: Id)
    requires i < |w.intents| && Names(w.intents[i], g)
    ensures i < |ActAll(w, acts).intents| && Names(ActAll(w, acts).intents[i], g)
  {
    ActAllMoves(w, acts);
    assert SameTerms(w.intents[i], ActAll(w, acts).intents[i]);
  }

  /** The same when `post` enrolls at once: the parts add up to the price after
      discount. */
  lemma MoneyConservedAtOnce(w: World, req: PostRequest)
    requires GroupsSound(w) && PostGroup(w, req).1.EnrolledNow?
    ensures var (v, answer) := PostGroup(w, req);
      && |answer.ids| == |req.items|
      && (forall k :: 0 <= k < |answer.ids| ==>
            && answer.ids[k] < |v.book.enrollments| && v.book.enrollments[answer.ids[k]].isPaid
            && v.book.enrollments[answer.ids[k]].player == req.items[k].player
            && v.book.enrollments[answer.ids[k]].competition == req.competition)
      && req.entryFee * |req.items| == PaidTotal(v.book.enrollments, answer.ids) + v.groups[answer.group].payload.discountAmount
  {
    var (v, answer) := PostGroup(w, req);
    PostKeepsGroups(w, req);
    PostQuoteExact(w, req);
    assert v.groups[answer.group].isPaid;
    SettledSum(v.book, v.groups[answer.group]);
  }

  /** However long after `post` a group is settled, the bank callback and the free path
      would leave the same enrollments, awards and standings for it, apart from the
      bank references. */
  lemma PostedFinalisersAgree(w: World, req: PostRequest, acts: seq<Action>, bankRef: string, freeRef: string)
    requires PostGroup(w, req).1.PaymentRequired?
    ensures var (posted, answer) := PostGroup(w, req); var v := ActAll(posted, acts);
      && answer.toPay < |v.groups|
      && var g := v.groups[answer.toPay];
         SameButRefs(Commit(EnrollEach(v.book, BankRows(v.book, g), bankRef)),
                     Commit(EnrollEach(v.book, FreeRows(v.book, g.competition, g.coach, g.payload), freeRef)))
  {
    hide EnrollEach, Commit, BankRows, FreeRows, SameButRefs;
    var (posted, answer) := PostGroup(w, req);
    var v := ActAll(posted, acts);
    PostedGroup(w, req);
    ActAllMoves(posted, acts);
    var was, now := posted.groups[answer.toPay], v.groups[answer.toPay];
    assert GroupMoves(was, now);
    assert was.payload.(enrollmentIds := []).payableAmount == now.payload.(enrollmentIds := []).payableAmount;
    FinalisersAgree(v.book, now, bankRef, freeRef);
  }
}
