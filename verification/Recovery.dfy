/** What can still settle a group after its intent was paid, with any requests in
    between. */
module Recovery {
  import opened Common
  import opened Text
  import opened Discounts
  import opened RankingBook
  import opened RankingRuns
  import opened Payments
  import opened GroupLaws
  import opened PaymentRuns
  import opened PaymentInvariants
  import opened BankRecords
  import opened GroupGuarantees
  import opened Settlement

  /** A clean handling of a successful record that leads to an intent whose description
      names the group, when the group can be enrolled. */
  predicate SettlesGroup(w: World, a: Action, g: Id)
    requires g < |w.groups|
  {
    && a.Result? && !a.fails && Settles(w, a.tc) && Names(w.intents[IntentOf(w, a.tc)], g)
    && w.groups[g].payload.items != [] && PlayersExist(w.book, w.groups[g].payload.items)
  }

  /** Only such a handling settles a group, and it always does. */
  lemma GroupSettledIff(w: World, a: Action, g: Id)
    requires g < |w.groups| && !w.groups[g].isPaid
    ensures g < |Act(w, a).groups| && (Act(w, a).groups[g].isPaid <==> SettlesGroup(w, a, g))
  {
    hide EnrollEach, Commit, SearchMark, BankRows, FreeRows, FirstEligible;
    match a
    case Start(j, req, bank) => StartMoves(w, j, req, bank);
    case Result(tc, fails) => ResultSettlesIff(w, tc, fails, g);
    case _ =>
  }

  lemma ResultSettlesIff(w: World, tc: string, fails: bool, g: Id)
    requires g < |w.groups| && !w.groups[g].isPaid
    ensures g < |PaymentResult(w, tc, fails).0.groups|
    ensures PaymentResult(w, tc, fails).0.groups[g].isPaid <==> SettlesGroup(w, Result(tc, fails), g)
  {
    hide EnrollEach, Commit, SearchMark, BankRows, FindBank, FindIntent;
    if Settles(w, tc) {
      MarkedIntents(w, tc);
      HandlingIs(w, tc, fails);
    }
  }

  /** Step `m` of the run settles the group. */
  predicate SettlingStep(w: World, acts: seq<Action>, m: nat, g: Id) {
    m < |acts| && g < |ActAll(w, acts[..m]).groups| && SettlesGroup(ActAll(w, acts[..m]), acts[m], g)
  }

  lemma StepOfPrefix(w: World, acts: seq<Action>, n: nat, m: nat, g: Id)
    requires m < n <= |acts|
    ensures SettlingStep(w, acts[..n], m, g) <==> SettlingStep(w, acts, m, g)
  {
    assert acts[..n][..m] == acts[..m];
  }

  /** Over any run a group is settled in the end exactly when some step of the run
      settles it. */
  lemma {:induction false} SettledOverRunIff(w: World, acts: seq<Action>, g: Id)
    requires g < |w.groups| && !w.groups[g].isPaid
    ensures g < |ActAll(w, acts).groups|
    ensures ActAll(w, acts).groups[g].isPaid <==> exists m: nat :: SettlingStep(w, acts, m, g)
  {
    hide Act, SettlesGroup;
    if acts != [] {
      var n := |acts| - 1;
      var u := ActAll(w, acts[..n]);
      SettledOverRunIff(w, acts[..n], g);
      forall m: nat | m < n ensures SettlingStep(w, acts[..n], m, g) <==> SettlingStep(w, acts, m, g) {
        StepOfPrefix(w, acts, n, m, g);
      }
      ActMoves(u, acts[n]);
      assert GroupMoves(u.groups[g], Act(u, acts[n]).groups[g]);
      if u.groups[g].isPaid {
        var m: nat :| SettlingStep(w, acts[..n], m, g);
        assert SettlingStep(w, acts, m, g);
      } else {
        GroupSettledIff(u, acts[n], g);
        assert SettlingStep(w, acts, n, g) <==> SettlesGroup(u, acts[n], g);
      }
    }
  }

  /** The step that settles a group leaves the intent it handles paid. The intent made
      with the group is paid then exactly when it is that intent, or was paid before;
      and it is that intent if no client's description names a group. */
  lemma SettledByOwnIntentIff(w: World, acts: seq<Action>, m: nat, i: Id, g: Id)
    requires i < |w.intents| && Names(w.intents[i], g) && SettlingStep(w, acts, m, g)
    ensures var u, v := ActAll(w, acts[..m]), ActAll(w, acts[..m + 1]); var j := IntentOf(u, acts[m].tc);
      && i < |u.intents| && i < |v.intents| && j < |v.intents|
      && v.intents[j].status == IntentPaid && Names(v.intents[j], g)
      && (v.intents[i].status == IntentPaid <==> u.intents[i].status == IntentPaid || j == i)
      && (Linked(w) && (forall n :: 0 <= n < |acts| ==> NamesNoGroup(acts[n])) ==> j == i)
  {
    hide ParseGroupId, FinalizeGroup, MarkIntentPaid, FindBank, FindIntent, Linked;
    var u := ActAll(w, acts[..m]);
    var tc := acts[m].tc;
    assert acts[..m + 1][..m] == acts[..m];
    assert ActAll(w, acts[..m + 1]) == PaymentResult(u, tc, false).0;
    NamedStays(w, acts[..m], i, g);
    ResultIntents(u, tc);
    if Linked(w) && forall n :: 0 <= n < |acts| ==> NamesNoGroup(acts[n]) {
      ActAllKeepsLinks(w, acts[..m]);
      OneIntentNames(u, i, IntentOf(u, tc), g);
    }
  }

  lemma OneIntentNames(w: World, i: Id, j: Id, g: Id)
    requires Linked(w) && i < |w.intents| && j < |w.intents| && Names(w.intents[i], g) && Names(w.intents[j], g)
    ensures i == j
  {
  }

  /** The intents after a clean handling. */
  lemma ResultIntents(w: World, tc: string)
    requires Settles(w, tc)
    ensures var v, j := PaymentResult(w, tc, false).0, IntentOf(w, tc);
      && |v.intents| == |w.intents| && v.intents[j].status == IntentPaid
      && v.intents[j].description == w.intents[j].description
      && forall k :: 0 <= k < |w.intents| && k != j ==> v.intents[k] == w.intents[k]
  {
    hide EnrollEach, Commit, SearchMark, BankRows, FindBank, FindIntent, MarkIntentPaid;
    MarkedIntents(w, tc);
    HandlingIs(w, tc, false);
    FinalizeGroupMoves(PaidWorld(w, tc), w.intents[IntentOf(w, tc)].description, GroupRef(w.banks[BankOf(w, tc)], tc));
  }

  // ---------- a record that no longer leads to its intent ----------

  /** Once the intent is paid under another reference and another token, this record
      never leads to it again, whatever else happens. */
  lemma NeverFoundAgain(w: World, tc: string, i: Id, acts: seq<Action>)
    requires i < |w.intents| && w.intents[i].status == IntentPaid && w.intents[i].token != tc
    requires FindBank(w.banks, tc, 0).Some? && w.intents[i].refId != Decimal(FindBank(w.banks, tc, 0).value)
    ensures var v := ActAll(w, acts); Settles(v, tc) ==> IntentOf(v, tc) != i
  {
    PaidIsFrozen(w, acts);
    FindBankStays(w.banks, ActAll(w, acts).banks, tc, 0);
  }

  /** What a failed finalisation leaves when the record does not lead back. */
  lemma LostIntent(w: World, tc: string, g: Id)
    requires Settles(w, tc) && WouldSettleGroup(w, tc, g) && !FoundAgain(w, tc)
    ensures var lost, i := PaymentResult(w, tc, true).0, IntentOf(w, tc);
      && i < |lost.intents| && lost.intents[i].status == IntentPaid && lost.intents[i].token != tc
      && FindBank(lost.banks, tc, 0).Some? && lost.intents[i].refId != Decimal(FindBank(lost.banks, tc, 0).value)
      && g < |lost.groups| && !lost.groups[g].isPaid
  {
    MarkedIntents(w, tc);
    HandlingIs(w, tc, true);
  }

  /** After a failed finalisation whose record does not lead back, in every later
      state the group is settled exactly when some step cleanly handled a record that
      leads to an intent naming it; handling the lost record, however often, never
      leads to the group's intent again. */
  lemma LostGroupSettledIff(w: World, tc: string, g: Id, acts: seq<Action>)
    requires Settles(w, tc) && WouldSettleGroup(w, tc, g) && !FoundAgain(w, tc)
    ensures var lost, i := PaymentResult(w, tc, true).0, IntentOf(w, tc); var v := ActAll(lost, acts);
      && i < |v.intents| && v.intents[i].status == IntentPaid && g < |v.groups|
      && (v.groups[g].isPaid <==> exists m: nat :: SettlingStep(lost, acts, m, g))
      && forall m: nat :: SettlingStep(lost, acts, m, g) && acts[m].tc == tc ==> IntentOf(ActAll(lost, acts[..m]), tc) != i
  {
    hide PaymentResult, FinalizeGroup, FoundAgain, WouldSettleGroup, FindBank, FindIntent, ParseGroupId;
    var lost, i := PaymentResult(w, tc, true).0, IntentOf(w, tc);
    LostIntent(w, tc, g);
    SettledOverRunIff(lost, acts, g);
    PaidIsFrozen(lost, acts);
    forall m: nat | SettlingStep(lost, acts, m, g) && acts[m].tc == tc ensures IntentOf(ActAll(lost, acts[..m]), tc) != i {
      NeverFoundAgain(lost, tc, i, acts[..m]);
    }
  }

  // ---------- a record that leads nowhere ----------

  /** The bank knows the tracking code, but no intent has it as token or the record's id
      as reference. */
  ghost predicate LeadsNowhere(w: World, tc: string) {
    && tc != "" && FindBank(w.banks, tc, 0).Some?
    && forall i :: 0 <= i < |w.intents| ==>
         w.intents[i].token != tc && w.intents[i].refId != Decimal(FindBank(w.banks, tc, 0).value)
  }

  lemma StartReferences(w: World, i: Id, req: StartRequest, bank: BankStart)
    requires !StartPayment(w, i, req, bank).1.SentToBank?
    ensures var v := StartPayment(w, i, req, bank).0;
      && |v.intents| == |w.intents|
      && forall j :: 0 <= j < |w.intents| ==>
           v.intents[j].token == w.intents[j].token
           && v.intents[j].refId in {w.intents[j].refId, "FREE-0-RIAL", "DUMMY-REF"}
  {
    hide ApplyToTargets, Commit, CountUse, Decimal;
  }

  lemma NumbersAreNotLabels(k: Id)
    ensures Decimal(k) != "FREE-0-RIAL" && Decimal(k) != "DUMMY-REF"
  {
    assert IsDigit(Decimal(k)[0]);
  }

  lemma NowhereStays(w: World, a: Action, tc: string)
    requires LeadsNowhere(w, tc) && FreshCode(w, a) && (a.Result? ==> a.tc == tc)
    ensures LeadsNowhere(Act(w, a), tc)
    ensures a.Result? ==> Act(w, a) == w
  {
    hide EnrollEach, Commit, FreeRows, BankRows, FirstEligible, FindBank, Decimal, SearchMark;
    var v, k := Act(w, a), FindBank(w.banks, tc, 0).value;
    NumbersAreNotLabels(k);
    ActMarks(w, a);
    match a
    case Start(i, req, bank) =>
      StartBanks(w, i, req, bank, tc);
      if StartPayment(w, i, req, bank).1.SentToBank? {
        if Decimal(|w.banks|) == Decimal(k) { DecimalInjective(|w.banks|, k); }
      } else {
        StartReferences(w, i, req, bank);
      }
    case Result(_, fails) => NowhereResult(w, tc, fails);
    case _ =>
      FindBankStays(w.banks, v.banks, tc, 0);
      OtherReferences(w, a);
  }

  /** Handling a record that leads nowhere changes nothing. */
  lemma NowhereResult(w: World, tc: string, fails: bool)
    requires LeadsNowhere(w, tc)
    ensures PaymentResult(w, tc, fails).0 == w
  {
  }

  lemma OtherReferences(w: World, a: Action)
    requires !a.Start? && !a.Result?
    ensures |w.intents| <= |Act(w, a).intents|
    ensures forall i :: 0 <= i < |w.intents| ==>
              Act(w, a).intents[i].token == w.intents[i].token && Act(w, a).intents[i].refId == w.intents[i].refId
    ensures forall i :: |w.intents| <= i < |Act(w, a).intents| ==>
              Act(w, a).intents[i].token == "" && Act(w, a).intents[i].refId == ""
  {
    hide EnrollEach, Commit, FreeRows, FirstEligible;
  }

  lemma StartBanks(w: World, i: Id, req: StartRequest, bank: BankStart, tc: string)
    requires FindBank(w.banks, tc, 0).Some?
    ensures FindBank(StartPayment(w, i, req, bank).0.banks, tc, 0) == FindBank(w.banks, tc, 0)
  {
    hide ApplyToTargets, Commit, CountUse, Decimal, FindBank;
    FindBankStays(w.banks, StartPayment(w, i, req, bank).0.banks, tc, 0);
  }

  /** As long as the only results that come back are those of a record that leads
      nowhere, and the bank repeats no tracking code, no group is settled, whatever
      else happens. */
  lemma {:induction false} NowhereSettlesNothing(w: World, tc: string, acts: seq<Action>, g: Id)
    requires LeadsNowhere(w, tc) && CodesFresh(w, acts) && g < |w.groups| && !w.groups[g].isPaid
    requires forall m :: 0 <= m < |acts| && acts[m].Result? ==> acts[m].tc == tc
    ensures var v := ActAll(w, acts); LeadsNowhere(v, tc) && g < |v.groups| && !v.groups[g].isPaid
  {
    hide LeadsNowhere, Act;
    if acts != [] {
      var n := |acts| - 1;
      NowhereSettlesNothing(w, tc, acts[..n], g);
      var u := ActAll(w, acts[..n]);
      NowhereStays(u, acts[n], tc);
      GroupSettledIff(u, acts[n], g);
    }
  }

  // ---------- handling again later ----------

  lemma {:induction false} RunKeepsProfiles(b: Book, evs: seq<Event>)
    ensures b.info.Keys <= Run(b, evs).info.Keys
  {
    if evs != [] {
      RunKeepsProfiles(b, evs[..|evs| - 1]);
      StepKeepsProfiles(Run(b, evs[..|evs| - 1]), evs[|evs| - 1]);
    }
  }

  lemma StepKeepsProfiles(b: Book, ev: Event)
    ensures b.info.Keys <= Step(b, ev).info.Keys
  {
    hide HasAward, AwardFor, CleanResult;
  }

  lemma PlayersStay(w: World, acts: seq<Action>, items: seq<Item>)
    requires PlayersExist(w.book, items)
    ensures PlayersExist(ActAll(w, acts).book, items)
  {
    ActAllReaches(w, acts);
    var evs :| Run(w.book, evs) == ActAll(w, acts).book && NeverUnpays(w.book, evs);
    RunKeepsProfiles(w.book, evs);
  }

  /** The state after a first handling, and all later ones, for an intent found by its
      token. */
  lemma StillFoundByToken(w: World, tc: string, failed: bool, acts: seq<Action>)
    requires Traced(w) && Settles(w, tc) && w.intents[IntentOf(w, tc)].token == tc
    requires CodesFresh(PaymentResult(w, tc, failed).0, acts)
    ensures var v, k, i := ActAll(PaymentResult(w, tc, failed).0, acts), BankOf(w, tc), IntentOf(w, tc);
      && Traced(v) && FindBank(v.banks, tc, 0) == Some(k) && FindIntent(v, tc, k) == Some(i)
      && v.intents[i].status == IntentPaid && SameTerms(w.intents[i], v.intents[i])
  {
    hide PaymentResult, FindByRef, CodesFresh;
    var u, k, i := PaymentResult(w, tc, failed).0, BankOf(w, tc), IntentOf(w, tc);
    var v := ActAll(u, acts);
    ActKeepsTraced(w, Result(tc, failed));
    RunKeepsTraced(u, acts);
    TokenIsOwn(w, k);
    ResultMarks(w, tc, failed);
    ResultPays(w, k, failed, i);
    PaidIsFrozen(u, acts);
    FindBankStays(w.banks, v.banks, tc, 0);
    TokenIsOwn(v, k);
    ResultMoves(w, tc, failed);
  }

  /** Settlement survives any delay. A record that leads to its intent by the token is
      handled once, failing or not; then come any requests at all; then, still confirmed
      by the bank, it is handled cleanly. In the end the intent is paid, the group is
      settled, its enrollments are its students' entries, paid together exactly the
      group's amount, and the answer names them. */
  lemma LaterHandlingSettles(w: World, tc: string, g: Id, failed: bool, acts: seq<Action>)
    requires GroupsSound(w) && Traced(w) && Settles(w, tc) && w.intents[IntentOf(w, tc)].token == tc
    requires Names(w.intents[IntentOf(w, tc)], g) && g < |w.groups|
    requires w.groups[g].payload.items != [] && PlayersExist(w.book, w.groups[g].payload.items)
    requires CodesFresh(PaymentResult(w, tc, failed).0, acts)
    ensures var v, i := ActAll(PaymentResult(w, tc, failed).0, acts), IntentOf(w, tc);
      && BankOf(w, tc) < |v.banks|
      && (v.banks[BankOf(w, tc)].isSuccess ==>
        var (r, answer) := PaymentResult(v, tc, false);
        && i < |r.intents| && r.intents[i].status == IntentPaid && r.intents[i].amount == w.intents[i].amount
        && g < |r.groups| && r.groups[g].isPaid && SettledProperly(r.book, r.groups[g])
        && r.groups[g].payload.items == w.groups[g].payload.items
        && answer == ToFrontend(true, Some(i), r.groups[g].payload.enrollmentIds)
        && PaidTotal(r.book.enrollments, r.groups[g].payload.enrollmentIds) == w.groups[g].payload.payableAmount)
  {
    hide PaymentResult, SettledProperly, Traced, FindBank, FindIntent, ParseGroupId, CodesFresh;
    var u, i := PaymentResult(w, tc, failed).0, IntentOf(w, tc);
    var v := ActAll(u, acts);
    StillFoundByToken(w, tc, failed, acts);
    ResultKeepsGroups(w, tc, failed);
    ActAllKeepsGroups(u, acts);
    if v.banks[BankOf(w, tc)].isSuccess {
      ResultKeepsGroups(v, tc, false);
      SameItems(w, tc, failed, g, acts);
      assert ActAll(w, [Result(tc, failed)]) == u by { assert [Result(tc, failed)][..0] == []; }
      PlayersStay(w, [Result(tc, failed)], w.groups[g].payload.items);
      PlayersStay(u, acts, w.groups[g].payload.items);
      CleanHandling(v, tc, i, g);
    }
  }

  lemma SameItems(w: World, tc: string, failed: bool, g: Id, acts: seq<Action>)
    requires g < |w.groups|
    ensures var v := ActAll(PaymentResult(w, tc, failed).0, acts);
      && g < |v.groups| && v.groups[g].payload.items == w.groups[g].payload.items
      && v.groups[g].payload.payableAmount == w.groups[g].payload.payableAmount
  {
    var u := PaymentResult(w, tc, failed).0;
    ResultMoves(w, tc, failed);
    ActAllMoves(u, acts);
    assert GroupMoves(w.groups[g], u.groups[g]) && GroupMoves(u.groups[g], ActAll(u, acts).groups[g]);
    assert w.groups[g].payload.(enrollmentIds := []).items == ActAll(u, acts).groups[g].payload.(enrollmentIds := []).items;
    assert w.groups[g].payload.(enrollmentIds := []).payableAmount == ActAll(u, acts).groups[g].payload.(enrollmentIds := []).payableAmount;
  }

  /** A clean handling of a record that leads to a paid intent, settled before or not. */
  lemma CleanHandling(v: World, tc: string, i: Id, g: Id)
    requires GroupsSound(v) && Settles(v, tc) && IntentOf(v, tc) == i && v.intents[i].status == IntentPaid
    requires Names(v.intents[i], g) && g < |v.groups| && v.groups[g].payload.items != [] && PlayersExist(v.book, v.groups[g].payload.items)
    ensures var (r, answer) := PaymentResult(v, tc, false);
      && r.intents == v.intents && g < |r.groups| && r.groups[g].isPaid && SettledProperly(r.book, r.groups[g])
      && r.groups[g].payload.items == v.groups[g].payload.items
      && answer == ToFrontend(true, Some(i), r.groups[g].payload.enrollmentIds)
      && PaidTotal(r.book.enrollments, r.groups[g].payload.enrollmentIds) == v.groups[g].payload.payableAmount
  {
    var (r, answer) := PaymentResult(v, tc, false);
    HandlingIs(v, tc, false);
    FinalizeGroupMoves(v, v.intents[i].description, GroupRef(v.banks[BankOf(v, tc)], tc));
    ResultKeepsGroups(v, tc, false);
    assert GroupMoves(v.groups[g], r.groups[g]);
    assert v.groups[g].payload.(enrollmentIds := []).items == r.groups[g].payload.(enrollmentIds := []).items;
    assert v.groups[g].payload.(enrollmentIds := []).payableAmount == r.groups[g].payload.(enrollmentIds := []).payableAmount;
    SettledSum(r.book, r.groups[g]);
  }

  // ---------- a run that loses its group, and what finds it again ----------

  const STUDENT: Item := Item(7, 50.0, "1", "2025-01-01", None, None, None, "", None, "")
  const ONE_STUDENT: PostRequest := PostRequest(7, 1, true, 20_000, [STUDENT], "", false, SadadGateway, true)

  /** Register one student; go to the bank; come back unverified; go again; then
      the bank confirms the first trip. */
  function TwoTrips(w: World): World {
    var posted := PostGroup(w, ONE_STUDENT).0;
    var sent := StartPayment(posted, 0, AT_THE_BANK, Ready("trip-1")).0;
    var back := PaymentResult(sent, "trip-1", false).0;
    var again := StartPayment(back, 0, AT_THE_BANK, Ready("trip-2")).0;
    RecordVerdict(again, 0, true, "R", "")
  }

  lemma TwoTripsIs(w: World)
    requires w.intents == [] && w.groups == [] && w.banks == []
    ensures var payload := Payload([STUDENT], 20_000, 0, 20_000, None, []);
      var intent := Intent(20_000, 20_000, 0, None, GroupDescription(0), SadadGateway, Redirected,
                           "trip-2", Decimal(0), "", None, []);
      TwoTrips(w) == World(w.book, [intent], [Group(7, 1, payload, 20_000, false, "")], w.codes,
                           [BankRecord(0, "trip-1", 20_000, true, "R", ""), BankRecord(0, "trip-2", 20_000, false, "", "")])
  {
  }

  lemma OneIntent(intents: seq<Intent>, text: string)
    requires |intents| == 1
    ensures FindByToken(intents, text, 1) == if intents[0].token == text then Some(0) else None
    ensures FindByRef(intents, text, 1) == if intents[0].refId == text then Some(0) else None
  {
  }

  lemma FirstTripFound(w: World)
    requires w.intents == [] && w.groups == [] && w.banks == [] && STUDENT.player in w.book.info
    ensures var t := TwoTrips(w);
      && Settles(t, "trip-1") && IntentOf(t, "trip-1") == 0
      && WouldSettleGroup(t, "trip-1", 0) && !FoundAgain(t, "trip-1")
      && LeadsNowhere(PaymentResult(t, "trip-1", true).0, "trip-1")
  {
    var t := TwoTrips(w);
    TwoTripsIs(w);
    GroupDescriptionRoundTrip(0);
    OneIntent(t.intents, "trip-1");
    OneIntent(t.intents, Decimal(0));
    assert RefOf(t, "trip-1") == "R" && "R"[0] != Decimal(0)[0];
    MarkedIntents(t, "trip-1");
    HandlingIs(t, "trip-1", true);
  }

  /** On that run one failed finalisation of the first trip leaves the intent paid and
      the group unpaid, and so it stays as long as the only results that come back are
      the first trip's and the bank repeats no tracking code, whatever else happens. */
  lemma EarlierTripLosesGroup(w: World, acts: seq<Action>)
    requires w.intents == [] && w.groups == [] && w.banks == [] && STUDENT.player in w.book.info
    requires CodesFresh(PaymentResult(TwoTrips(w), "trip-1", true).0, acts)
    requires forall m :: 0 <= m < |acts| && acts[m].Result? ==> acts[m].tc == "trip-1"
    ensures var t := TwoTrips(w);
      && Settles(t, "trip-1") && |PaymentResult(t, "trip-1", false).0.groups| > 0
      && PaymentResult(t, "trip-1", false).0.groups[0].isPaid
      && var v := ActAll(PaymentResult(t, "trip-1", true).0, acts);
         && |v.intents| > 0 && v.intents[0].status == IntentPaid
         && |v.groups| > 0 && !v.groups[0].isPaid
  {
    hide TwoTrips, PaymentResult, LeadsNowhere, CodesFresh, FindBank, FindIntent, FoundAgain;
    var t := TwoTrips(w);
    var lost := PaymentResult(t, "trip-1", true).0;
    FirstTripFound(w);
    CleanRunSettles(t, "trip-1", 0);
    LostIntent(t, "trip-1", 0);
    PaidIsFrozen(lost, acts);
    NowhereSettlesNothing(lost, "trip-1", acts, 0);
  }

  /** If the bank confirms the second trip too (a second payment), its result does
      settle the group. */
  lemma SecondTripFindsGroup(w: World)
    requires w.intents == [] && w.groups == [] && w.banks == [] && STUDENT.player in w.book.info
    ensures var lost := PaymentResult(TwoTrips(w), "trip-1", true).0;
      var v := PaymentResult(RecordVerdict(lost, 1, true, "S", ""), "trip-2", false).0;
      |v.groups| > 0 && v.groups[0].isPaid
  {
    var t := TwoTrips(w);
    FirstTripFound(w);
    TwoTripsIs(w);
    GroupDescriptionRoundTrip(0);
    LostIntent(t, "trip-1", 0);
    MarkedIntents(t, "trip-1");
    HandlingIs(t, "trip-1", true);
    var told := RecordVerdict(PaidWorld(t, "trip-1"), 1, true, "S", "");
    assert FindBank(told.banks, "trip-2", 0) == FindBank(told.banks, "trip-2", 1) == Some(1);
    OneIntent(told.intents, "trip-2");
    CleanRunSettles(told, "trip-2", 0);
  }

  // ---------- a group settled by a foreign intent ----------

  /** Register one student for 20,000 rials; create an intent of 10,000 whose
      description names the new group; send it to the bank, which confirms it. */
  function NamedByClient(w: World): World {
    var posted := PostGroup(w, ONE_STUDENT).0;
    var made := CreateIntent(posted, 10_000, None, "", "GP#0", SadadGateway).0;
    var sent := StartPayment(made, 1, AT_THE_BANK, Ready("trip-1")).0;
    RecordVerdict(sent, 0, true, "R", "")
  }

  lemma NamedByClientIs(w: World)
    requires w.intents == [] && w.groups == [] && w.banks == []
    ensures var payload := Payload([STUDENT], 20_000, 0, 20_000, None, []);
      var own := Intent(20_000, 20_000, 0, None, GroupDescription(0), SadadGateway, Initiated, "", "", "", None, []);
      var foreign := Intent(10_000, 10_000, 0, None, "GP#0", SadadGateway, Redirected, "trip-1", Decimal(0), "", None, []);
      NamedByClient(w) == World(w.book, [own, foreign], [Group(7, 1, payload, 20_000, false, "")], w.codes,
                                [BankRecord(1, "trip-1", 10_000, true, "R", "")])
  {
  }

  /** Its result settles the group: the intent made with it is still unpaid, the one
      that is paid was for half the amount. */
  lemma ForeignIntentSettlesGroup(w: World)
    requires w.intents == [] && w.groups == [] && w.banks == [] && STUDENT.player in w.book.info
    ensures var v := PaymentResult(NamedByClient(w), "trip-1", false).0;
      && |v.groups| == 1 && v.groups[0].isPaid && v.groups[0].payload.payableAmount == 20_000
      && |v.intents| == 2 && v.intents[0].status == Initiated && v.intents[0].amount == 20_000
      && v.intents[1].status == IntentPaid && v.intents[1].amount == 10_000
  {
    hide NamedByClient, PaymentResult, ParseGroupId, FinalizeGroup;
    var t := NamedByClient(w);
    NamedByClientIs(w);
    MarkRoundTrip("", 0, "");
    assert "" + MARK + Decimal(0) + "" == "GP#0" by { assert Decimal(0) == "0"; }
    assert FindBank(t.banks, "trip-1", 0) == Some(0);
    assert FindByToken(t.intents, "trip-1", 2) == Some(1);
    MarkedIntents(t, "trip-1");
    ResultIntents(t, "trip-1");
    ResultSettlesIff(t, "trip-1", false, 0);
    ResultMoves(t, "trip-1", false);
    var v := PaymentResult(t, "trip-1", false).0;
    assert SameTerms(t.intents[1], v.intents[1]) && GroupMoves(t.groups[0], v.groups[0]);
    assert t.groups[0].payload.(enrollmentIds := []).payableAmount == v.groups[0].payload.(enrollmentIds := []).payableAmount;
    ForeignGroups(t);
  }

  lemma ForeignGroups(w: World)
    ensures |PaymentResult(w, "trip-1", false).0.groups| == |w.groups|
  {
    hide EnrollEach, Commit, SearchMark, BankRows, FindBank, FindIntent, ApplyToTargets;
  }
}
