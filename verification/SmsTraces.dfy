/** Whole runs of the text-message endpoints. The history of requests alone says
    which code is live for a phone; the table always agrees with it. */
module SmsTraces {
  import opened Common
  import opened Text
  import opened Sms

  // ---------- filters ----------

  lemma {:induction false} FilterAppend(f: Row -> bool, xs: seq<Row>, ys: seq<Row>)
    ensures Filter(f, xs + ys) == Filter(f, xs) + Filter(f, ys)
  {
    if ys == [] {
      assert xs + ys == xs;
    } else {
      assert (xs + ys)[..|xs + ys| - 1] == xs + ys[..|ys| - 1];
      FilterAppend(f, xs, ys[..|ys| - 1]);
    }
  }

  lemma {:induction false} FilterTwice(f: Row -> bool, g: Row -> bool, h: Row -> bool, xs: seq<Row>)
    requires forall x :: h(x) == (f(x) && g(x))
    ensures Filter(f, Filter(g, xs)) == Filter(h, xs)
  {
    if xs != [] {
      var init, last := xs[..|xs| - 1], xs[|xs| - 1];
      FilterTwice(f, g, h, init);
      FilterAppend(f, Filter(g, init), if g(last) then [last] else []);
      assert [last][..0] == [];
    }
  }

  lemma {:induction false} FilterNone(f: Row -> bool, xs: seq<Row>)
    requires forall x :: !f(x)
    ensures Filter(f, xs) == []
  {
    if xs != [] {
      FilterNone(f, xs[..|xs| - 1]);
    }
  }

  lemma FilterSnoc(f: Row -> bool, xs: seq<Row>, x: Row)
    ensures Filter(f, xs + [x]) == if f(x) then Filter(f, xs) + [x] else Filter(f, xs)
  {
  }

  lemma DeleteSnoc(xs: seq<Row>, x: Row, r: Row)
    ensures Delete(xs + [x], r) == if x == r then xs else Delete(xs, r) + [x]
  {
  }

  lemma {:induction false} FilterDelete(f: Row -> bool, xs: seq<Row>, r: Row)
    ensures Filter(f, Delete(xs, r)) == if f(r) then Delete(Filter(f, xs), r) else Filter(f, xs)
  {
    if xs != [] {
      var init, last := xs[..|xs| - 1], xs[|xs| - 1];
      assert xs == init + [last];
      DeleteSnoc(init, last, r);
      FilterSnoc(f, init, last);
      if last == r {
        DeleteSnoc(Filter(f, init), last, r);
      } else {
        FilterDelete(f, init, r);
        FilterSnoc(f, Delete(init, r), last);
        DeleteSnoc(Filter(f, init), last, r);
      }
    }
  }

  // ---------- the rows that matter for one phone at one time ----------

  predicate Matters(r: Row, phone: string, now: int) {
    r.phone == phone && r.created >= now - TTL
  }

  function View(rows: seq<Row>, phone: string, now: int): seq<Row> {
    Filter((r: Row) => Matters(r, phone, now), rows)
  }

  lemma ViewOfUnexpired(rows: seq<Row>, phone: string, m: int, now: int)
    requires m <= now
    ensures View(Unexpired(rows, m), phone, now) == View(rows, phone, now)
  {
    FilterTwice((r: Row) => Matters(r, phone, now), (r: Row) => r.created >= m - TTL, (r: Row) => Matters(r, phone, now), rows);
  }

  lemma ViewOfNew(rows: seq<Row>, r: Row, phone: string, now: int)
    ensures View(rows + [r], phone, now) == View(rows, phone, now) + if Matters(r, phone, now) then [r] else []
  {
  }

  lemma ViewOfOthers(rows: seq<Row>, other: string, phone: string, now: int)
    ensures View(OtherRows(rows, other), phone, now) == if phone == other then [] else View(rows, phone, now)
  {
    var f, g := (r: Row) => Matters(r, phone, now), (r: Row) => r.phone != other;
    var h := (r: Row) => Matters(r, phone, now) && r.phone != other;
    FilterTwice(f, g, h, rows);
    if phone == other {
      FilterNone(h, rows);
    } else {
      FilterTwice(h, h, f, rows);
      FilterTwice(h, h, h, rows);
    }
  }

  /** The rate-limit query. */
  lemma RecentIsView(rows: seq<Row>, phone: string, now: int)
    ensures Filter((r: Row) => r.created >= now - TTL, RowsFor(rows, phone)) == View(rows, phone, now)
  {
    FilterTwice((r: Row) => r.created >= now - TTL, (r: Row) => r.phone == phone, (r: Row) => Matters(r, phone, now), rows);
  }

  /** The lookup by phone and code, in a table just cleaned up. */
  lemma MatchingIsInView(rows: seq<Row>, phone: string, now: int, code: string)
    ensures Matching(Unexpired(rows, now), phone, code) == Filter((r: Row) => r.code == code, View(rows, phone, now))
  {
    var all := (r: Row) => Matters(r, phone, now) && r.code == code;
    FilterTwice((r: Row) => r.phone == phone && r.code == code, (r: Row) => r.created >= now - TTL, all, rows);
    FilterTwice((r: Row) => r.code == code, (r: Row) => Matters(r, phone, now), all, rows);
  }

  lemma ViewLater(rows: seq<Row>, phone: string, m: int, now: int)
    requires m <= now
    ensures View(rows, phone, now) == Filter((r: Row) => r.created >= now - TTL, View(rows, phone, m))
  {
    FilterTwice((r: Row) => r.created >= now - TTL, (r: Row) => Matters(r, phone, m), (r: Row) => Matters(r, phone, now), rows);
  }

  // ---------- runs ----------

  function Table(trace: seq<Request>): seq<Row> {
    if trace == [] then [] else Handle(Table(trace[..|trace| - 1]), trace[|trace| - 1]).0
  }

  function ReplyAt(trace: seq<Request>, j: nat): Reply
    requires j < |trace|
  {
    Handle(Table(trace[..j]), trace[j]).1
  }

  /** The clock does not run backwards. */
  ghost predicate InOrder(trace: seq<Request>) {
    forall i, j :: 0 <= i < j < |trace| ==> trace[i].now <= trace[j].now
  }

  ghost predicate Before(trace: seq<Request>, now: int) {
    forall i :: 0 <= i < |trace| ==> trace[i].now <= now
  }

  predicate IsAttempt(req: Request, phone: string) {
    req.Verify? && WellFormed(req) && req.phone == phone
  }

  predicate IsRequestFor(req: Request, phone: string) {
    req.Send? && WellFormed(req) && req.phone == phone
  }

  datatype Issued = Issued(index: nat, at: int, code: string)

  /** The code a send request at the end of the trace puts into the message. */
  function CodeFor(trace: seq<Request>, req: Request): string
    requires req.Send?
  {
    FirstFree(RecentCodes(Unexpired(Table(trace), req.now), req.now), req.draws, 0)
  }

  /** The last code issued to a phone and not yet used up by an attempt, told from
      the history alone: an attempt uses it up, a request for a code while one is
      live is refused. */
  function LastIssued(trace: seq<Request>, phone: string): Option<Issued>
    decreases |trace|, 0
  {
    if trace == [] then None else
      var before, req := trace[..|trace| - 1], trace[|trace| - 1];
      if IsAttempt(req, phone) then None
      else if IsRequestFor(req, phone) && LiveCode(before, phone, req.now).None?
      then Some(Issued(|before|, req.now, CodeFor(before, req)))
      else LastIssued(before, phone)
  }

  /** It is live for 180 seconds. */
  function LiveCode(trace: seq<Request>, phone: string, now: int): Option<Issued>
    decreases |trace|, 1
  {
    var issued := LastIssued(trace, phone);
    if issued.Some? && now - issued.value.at <= 180 then issued else None
  }

  function RowsOfLive(live: Option<Issued>, phone: string): seq<Row> {
    if live.Some? then [Row(phone, live.value.code, live.value.at)] else []
  }

  lemma SendView(rows: seq<Row>, phone: string, now: int, draws: Draws, other: string, later: int)
    requires now <= later
    ensures var (rows', reply) := SendStep(Unexpired(rows, now), phone, now, draws);
      && (reply.Sent? <==> View(rows, phone, now) == [])
      && (reply.Sent? ==> reply.sentCode == FirstFree(RecentCodes(Unexpired(rows, now), now), draws, 0))
      && (!reply.Sent? ==> reply.RateLimited? && reply.retryAfter == TTL - (now - View(rows, phone, now)[0].created))
      && View(rows', other, later) ==
         View(rows, other, later)
         + if reply.Sent? && other == phone && later - now <= TTL then [Row(phone, reply.sentCode, now)] else []
  {
    var clean := Unexpired(rows, now);
    ViewOfUnexpired(rows, phone, now, now);
    RecentIsView(clean, phone, now);
    ViewOfUnexpired(rows, other, now, later);
    ViewOfNew(clean, Row(phone, FirstFree(RecentCodes(clean, now), draws, 0), now), other, later);
    assert View(rows, other, later) + [] == View(rows, other, later);
  }

  lemma FilterNothing(f: Row -> bool)
    ensures Filter(f, []) == []
  {
  }

  lemma OneRow(f: Row -> bool, r: Row)
    ensures Filter(f, [r]) == if f(r) then [r] else []
    ensures Delete([r], r) == [] && Delete([], r) == []
  {
    assert [r][..0] == [];
  }

  lemma VerifyView(rows: seq<Row>, phone: string, now: int, code: string, other: string, later: int)
    requires now <= later && |View(rows, phone, now)| <= 1
    requires |View(rows, phone, now)| == 1 ==> Matters(View(rows, phone, now)[0], phone, now)
    ensures var (rows', reply) := VerifyStep(Unexpired(rows, now), phone, now, code); var v := View(rows, phone, now);
      && reply == (if |v| == 1 && v[0].code == code then Accepted else WrongCode)
      && View(rows', other, later) == if other == phone then [] else View(rows, other, later)
  {
    hide Filter, Delete, Unexpired, OtherRows;
    var clean, v := Unexpired(rows, now), View(rows, phone, now);
    MatchingIsInView(rows, phone, now, code);
    ViewOfUnexpired(rows, other, now, later);
    ViewOfOthers(clean, phone, other, later);
    if v == [] {
      FilterNothing((r: Row) => r.code == code);
    } else {
      OneRow((r: Row) => r.code == code, v[0]);
      OneRow((r: Row) => r.created >= later - TTL, v[0]);
      assert v == [v[0]];
      var f := (r: Row) => Matters(r, other, later);
      FilterDelete(f, clean, v[0]);
      ViewLater(rows, phone, now, later);
      ViewOfUnexpired(rows, phone, now, later);
      if v[0].code == code && other == phone {
        assert View(clean, phone, later) == if v[0].created >= later - TTL then v else [];
      }
    }
  }

  /** One more request keeps table and history in step. */
  lemma HistoryStep(before: seq<Request>, req: Request, phone: string, now: int)
    requires req.now <= now
    requires View(Table(before), phone, now) == RowsOfLive(LiveCode(before, phone, now), phone)
    requires View(Table(before), req.phone, req.now) == RowsOfLive(LiveCode(before, req.phone, req.now), req.phone)
    ensures View(Handle(Table(before), req).0, phone, now) == RowsOfLive(LiveCode(before + [req], phone, now), phone)
  {
    hide Filter, View, Unexpired, SendStep, VerifyStep, FirstFree, RecentCodes, MobileNumber, VerifiablePhone;
    var rows := Table(before);
    assert (before + [req])[..|before + [req]| - 1] == before;
    if !WellFormed(req) {
      ViewOfUnexpired(rows, phone, req.now, now);
      assert LastIssued(before + [req], phone) == LastIssued(before, phone);
    } else if req.Send? {
      SendView(rows, req.phone, req.now, req.draws, phone, now);
      if phone != req.phone || LiveCode(before, phone, req.now).Some? {
        assert LastIssued(before + [req], phone) == LastIssued(before, phone);
      }
    } else {
      VerifyView(rows, req.phone, req.now, req.code, phone, now);
    }
  }

  /** The table agrees with the history: for every phone, the rows that matter are
      the live code and nothing else. */
  lemma {:induction false} TableIsHistory(trace: seq<Request>, phone: string, now: int)
    requires InOrder(trace) && Before(trace, now)
    ensures View(Table(trace), phone, now) == RowsOfLive(LiveCode(trace, phone, now), phone)
  {
    if trace != [] {
      var before, req := trace[..|trace| - 1], trace[|trace| - 1];
      assert trace == before + [req];
      assert Before(before, req.now) && Before(before, now);
      TableIsHistory(before, phone, now);
      TableIsHistory(before, req.phone, req.now);
      HistoryStep(before, req, phone, now);
    }
  }

  // ---------- what is answered ----------

  lemma PrefixInOrder(trace: seq<Request>, j: nat)
    requires InOrder(trace) && j < |trace|
    ensures InOrder(trace[..j]) && Before(trace[..j], trace[j].now)
  {
  }

  /** A code is accepted exactly when it is the phone's live code; an expired or
      ambiguous lookup never happens. */
  lemma AcceptedIff(trace: seq<Request>, j: nat)
    requires InOrder(trace) && j < |trace| && trace[j].Verify?
    ensures var req := trace[j]; var live := LiveCode(trace[..j], req.phone, req.now);
      && (ReplyAt(trace, j) == Accepted <==> WellFormed(req) && live.Some? && live.value.code == req.code)
      && ReplyAt(trace, j) in {BadRequest, Accepted, WrongCode}
  {
    var req := trace[j];
    PrefixInOrder(trace, j);
    TableIsHistory(trace[..j], req.phone, req.now);
    VerifyView(Table(trace[..j]), req.phone, req.now, req.code, req.phone, req.now);
  }

  /** A code is sent exactly when none is live; otherwise the wait is told. */
  lemma SentIff(trace: seq<Request>, j: nat)
    requires InOrder(trace) && j < |trace| && trace[j].Send?
    ensures var req := trace[j]; var live := LiveCode(trace[..j], req.phone, req.now);
      && (ReplyAt(trace, j).Sent? <==> WellFormed(req) && live.None?)
      && (ReplyAt(trace, j).Sent? ==> ReplyAt(trace, j) == Sent(CodeFor(trace[..j], req)))
      && (WellFormed(req) && live.Some? ==>
            ReplyAt(trace, j) == RateLimited(180 - (req.now - live.value.at)) && 0 <= ReplyAt(trace, j).retryAfter)
  {
    var req := trace[j];
    PrefixInOrder(trace, j);
    TableIsHistory(trace[..j], req.phone, req.now);
    SendView(Table(trace[..j]), req.phone, req.now, req.draws, req.phone, req.now);
  }

  lemma {:induction false} FilterShrinks(f: Row -> bool, xs: seq<Row>)
    ensures |Filter(f, xs)| <= |xs|
  {
    if xs != [] {
      FilterShrinks(f, xs[..|xs| - 1]);
    }
  }

  lemma {:induction false} DeleteShrinks(xs: seq<Row>, r: Row)
    ensures |Delete(xs, r)| <= |xs|
  {
    if xs != [] {
      DeleteShrinks(xs[..|xs| - 1], r);
    }
  }

  /** Filtering the table filters the rows of each phone. */
  lemma RowsForFiltered(g: Row -> bool, rows: seq<Row>, phone: string)
    ensures RowsFor(Filter(g, rows), phone) == Filter(g, RowsFor(rows, phone))
    ensures |RowsFor(Filter(g, rows), phone)| <= |RowsFor(rows, phone)|
  {
    var mine := (r: Row) => r.phone == phone;
    var both := (r: Row) => r.phone == phone && g(r);
    FilterTwice(mine, g, both, rows);
    FilterTwice(g, mine, both, rows);
    FilterShrinks(g, RowsFor(rows, phone));
  }

  /** Cleaning up a second time with the same clock changes nothing. */
  lemma RecentOfUnexpired(rows: seq<Row>, phone: string, now: int)
    ensures var clean := Unexpired(rows, now);
      Filter((r: Row) => r.created >= now - TTL, RowsFor(clean, phone)) == RowsFor(clean, phone)
  {
    var recent := (r: Row) => r.created >= now - TTL;
    FilterTwice(recent, recent, recent, rows);
    RowsForFiltered(recent, Unexpired(rows, now), phone);
  }

  /** A step adds a row for a phone only when it has none. */
  lemma HandleKeepsOneRow(rows: seq<Row>, req: Request, phone: string)
    requires |RowsFor(rows, phone)| <= 1
    ensures |RowsFor(Handle(rows, req).0, phone)| <= 1
  {
    hide Filter, Unexpired, RowsFor, OtherRows, Matching, Delete, FirstFree, RecentCodes, MobileNumber, VerifiablePhone;
    var clean := Unexpired(rows, req.now);
    CleanedRows(rows, req.now, phone);
    match req
    case Send(_, _, now, _, draws) => SentRow(rows, req.phone, now, draws, phone);
    case Verify(_, _, _, code) =>
      OthersShrink(clean, req.phone, phone);
      var found := Matching(clean, req.phone, code);
      if found != [] {
        DeletedRows(clean, found[0], phone);
      }
  }

  lemma CleanedRows(rows: seq<Row>, now: int, phone: string)
    ensures |RowsFor(Unexpired(rows, now), phone)| <= |RowsFor(rows, phone)|
  {
    RowsForFiltered((r: Row) => r.created >= now - TTL, rows, phone);
  }

  lemma OthersShrink(rows: seq<Row>, other: string, phone: string)
    ensures |RowsFor(OtherRows(rows, other), phone)| <= |RowsFor(rows, phone)|
  {
    RowsForFiltered((r: Row) => r.phone != other, rows, phone);
  }

  lemma DeletedRows(rows: seq<Row>, record: Row, phone: string)
    ensures |RowsFor(Delete(rows, record), phone)| <= |RowsFor(rows, phone)|
  {
    FilterDelete((r: Row) => r.phone == phone, rows, record);
    DeleteShrinks(RowsFor(rows, phone), record);
  }

  lemma SentRow(rows: seq<Row>, other: string, now: int, draws: Draws, phone: string)
    ensures var clean := Unexpired(rows, now); var sent := SendStep(clean, other, now, draws).0;
      |RowsFor(sent, phone)| <= if phone == other && RowsFor(clean, phone) == [] then 1 else |RowsFor(clean, phone)|
  {
    hide Unexpired, FirstFree, RecentCodes, Filter;
    var clean := Unexpired(rows, now);
    RecentOfUnexpired(rows, other, now);
    RowsForNew(clean, Row(other, FirstFree(RecentCodes(clean, now), draws, 0), now), phone);
  }

  lemma RowsForNew(rows: seq<Row>, r: Row, phone: string)
    ensures RowsFor(rows + [r], phone) == RowsFor(rows, phone) + if r.phone == phone then [r] else []
  {
  }

  /** In every reachable table, whatever the clock did, a phone has at most one row,
      so a lookup by phone and code finds one row at most. */
  lemma {:induction false} OneRowPerPhone(trace: seq<Request>, phone: string)
    ensures |RowsFor(Table(trace), phone)| <= 1
    ensures forall code :: |Matching(Table(trace), phone, code)| <= 1
  {
    if trace != [] {
      OneRowPerPhone(trace[..|trace| - 1], phone);
      HandleKeepsOneRow(Table(trace[..|trace| - 1]), trace[|trace| - 1], phone);
    }
    forall code ensures |Matching(Table(trace), phone, code)| <= 1 {
      MatchingShrinks(Table(trace), phone, code);
    }
  }

  lemma MatchingShrinks(rows: seq<Row>, phone: string, code: string)
    ensures |Matching(rows, phone, code)| <= |RowsFor(rows, phone)|
  {
    FilterTwice((r: Row) => r.code == code, (r: Row) => r.phone == phone, (r: Row) => r.phone == phone && r.code == code, rows);
    FilterShrinks((r: Row) => r.code == code, RowsFor(rows, phone));
  }

  /** The lookup of a verification, made after its clean-up, is never ambiguous. */
  lemma LookupNeverAmbiguous(trace: seq<Request>, phone: string, code: string, now: int)
    ensures |Matching(Unexpired(Table(trace), now), phone, code)| <= 1
  {
    OneRowPerPhone(trace, phone);
    RowsForFiltered((r: Row) => r.created >= now - TTL, Table(trace), phone);
    MatchingShrinks(Unexpired(Table(trace), now), phone, code);
  }

  // ---------- every accepted code was sent, and is accepted once ----------

  /** The last code issued was really sent, at its index, and not attempted since. */
  lemma {:induction false} IssuedWasSent(trace: seq<Request>, phone: string)
    requires InOrder(trace) && LastIssued(trace, phone).Some?
    ensures var l := LastIssued(trace, phone).value;
      && l.index < |trace| && IsRequestFor(trace[l.index], phone) && trace[l.index].now == l.at
      && ReplyAt(trace, l.index) == Sent(l.code)
      && forall m :: l.index < m < |trace| ==> !IsAttempt(trace[m], phone)
  {
    var before, req, n := trace[..|trace| - 1], trace[|trace| - 1], |trace| - 1;
    assert InOrder(before);
    if IsRequestFor(req, phone) && LiveCode(before, phone, req.now).None? {
      SentIff(trace, n);
    } else {
      IssuedWasSent(before, phone);
      var l := LastIssued(before, phone).value;
      assert before[..l.index] == trace[..l.index];
      forall m | l.index < m < |trace| ensures !IsAttempt(trace[m], phone) {
        if m < n { assert before[m] == trace[m]; }
      }
    }
  }

  /** The send that an accepted verification goes back to. */
  function SendBehind(trace: seq<Request>, j: nat): nat
    requires j < |trace|
  {
    var l := LastIssued(trace[..j], trace[j].phone);
    if l.Some? then l.value.index else 0
  }

  ghost predicate IsAccepted(trace: seq<Request>, j: nat) {
    j < |trace| && trace[j].Verify? && ReplyAt(trace, j) == Accepted
  }

  /** An accepted code was sent to that phone, at most 180 seconds before, and no
      other attempt for the phone came in between. */
  lemma AcceptedWasSent(trace: seq<Request>, j: nat)
    requires InOrder(trace) && IsAccepted(trace, j)
    ensures var i := SendBehind(trace, j);
      && i < j && trace[i].Send? && trace[i].phone == trace[j].phone
      && ReplyAt(trace, i) == Sent(trace[j].code)
      && 0 <= trace[j].now - trace[i].now <= 180
      && forall m :: i < m < j ==> !IsAttempt(trace[m], trace[j].phone)
  {
    PrefixInOrder(trace, j);
    AcceptedIff(trace, j);
    IssuedWasSent(trace[..j], trace[j].phone);
    var i := SendBehind(trace, j);
    assert trace[..j][..i] == trace[..i] && trace[..j][i] == trace[i];
    forall m | i < m < j ensures !IsAttempt(trace[m], trace[j].phone) {
      assert trace[..j][m] == trace[m];
    }
  }

  /** No sent code is accepted twice, whichever endpoints are used. */
  lemma AcceptedOnce(trace: seq<Request>, j: nat, k: nat)
    requires InOrder(trace) && IsAccepted(trace, j) && IsAccepted(trace, k) && j < k
    ensures SendBehind(trace, j) != SendBehind(trace, k)
  {
    AcceptedWasSent(trace, j);
    AcceptedWasSent(trace, k);
    AcceptedIff(trace, j);
    assert IsAttempt(trace[j], trace[j].phone);
  }

  /** While nobody attempts, a sent code stays the last one issued, or a later one
      took its place. */
  lemma {:induction false} IssuedLasts(trace: seq<Request>, i: nat, phone: string)
    requires InOrder(trace) && i < |trace| && IsRequestFor(trace[i], phone) && ReplyAt(trace, i).Sent?
    requires forall m :: i < m < |trace| ==> !IsAttempt(trace[m], phone)
    ensures LastIssued(trace, phone).Some? && LastIssued(trace, phone).value.at >= trace[i].now
  {
    var before, n := trace[..|trace| - 1], |trace| - 1;
    if i == n {
      SentIff(trace, n);
    } else {
      assert before[..i] == trace[..i] && before[i] == trace[i];
      forall m | i < m < |before| ensures !IsAttempt(before[m], phone) {
        assert before[m] == trace[m];
      }
      IssuedLasts(before, i, phone);
    }
  }

  /** Two codes sent to one phone within 180 seconds have an attempt for that phone
      between them. */
  lemma SendsAreSpaced(trace: seq<Request>, i: nat, k: nat)
    requires InOrder(trace) && i < k < |trace|
    requires trace[i].Send? && trace[k].Send? && trace[i].phone == trace[k].phone
    requires ReplyAt(trace, i).Sent? && ReplyAt(trace, k).Sent?
    ensures trace[k].now - trace[i].now <= 180 ==> exists m :: i < m < k && IsAttempt(trace[m], trace[i].phone)
  {
    var phone, before := trace[i].phone, trace[..k];
    if forall m :: i < m < k ==> !IsAttempt(trace[m], phone) {
      PrefixInOrder(trace, k);
      SentIff(trace, i);
      SentIff(trace, k);
      assert before[..i] == trace[..i] && before[i] == trace[i];
      forall m | i < m < |before| ensures !IsAttempt(before[m], phone) {
        assert before[m] == trace[m];
      }
      IssuedLasts(before, i, phone);
    }
  }

  // ---------- what is sent, what is refused ----------

  lemma DrawsTellApart(c: Draw, d: Draw)
    ensures ParseDigits(DrawnCode(d)) == d + 1000
    ensures DrawnCode(c) == DrawnCode(d) <==> c == d
  {
    ParseUndoesDecimal(c + 1000);
    ParseUndoesDecimal(d + 1000);
  }

  /** A row of the last 180 seconds holds the printed form of this draw. */
  ghost predicate Used(rows: seq<Row>, now: int, d: Draw) {
    exists r :: r in rows && r.created >= now - 180 && r.code == Decimal(d + 1000)
  }

  lemma {:induction false} FilterHolds(f: Row -> bool, xs: seq<Row>, r: Row)
    ensures r in Filter(f, xs) <==> r in xs && f(r)
  {
    if xs != [] {
      FilterHolds(f, xs[..|xs| - 1], r);
      assert xs == xs[..|xs| - 1] + [xs[|xs| - 1]];
    }
  }

  lemma UsedIsRecent(rows: seq<Row>, now: int, d: Draw)
    ensures Used(rows, now, d) <==> DrawnCode(d) in RecentCodes(Unexpired(rows, now), now)
  {
    hide Filter, Decimal;
    forall r: Row ensures r in Unexpired(Unexpired(rows, now), now) <==> r in rows && r.created >= now - 180 {
      FilterHolds((r: Row) => r.created >= now - TTL, rows, r);
      FilterHolds((r: Row) => r.created >= now - TTL, Unexpired(rows, now), r);
    }
  }

  lemma {:induction false} FirstFreeIs(rows: seq<Row>, now: int, draws: Draws, k: nat)
    requires |draws.tries| == 20 && k <= 20
    ensures var code := FirstFree(RecentCodes(Unexpired(rows, now), now), draws, k);
      || (exists j :: k <= j < 20 && code == DrawnCode(draws.tries[j]) && !Used(rows, now, draws.tries[j])
             && forall i :: k <= i < j ==> Used(rows, now, draws.tries[i]))
      || ((forall i :: k <= i < 20 ==> Used(rows, now, draws.tries[i])) && code == DrawnCode(draws.fallback))
    decreases 20 - k
  {
    hide Used, DrawnCode, RecentCodes;
    if k < 20 {
      UsedIsRecent(rows, now, draws.tries[k]);
      if Used(rows, now, draws.tries[k]) {
        FirstFreeIs(rows, now, draws, k + 1);
      }
    }
  }

  /** The code that is sent is the number drawn plus 1000, printed: the first of twenty
      draws that no code of the last 180 seconds is equal to, or else one more draw. It
      is stored with the phone and the time, once. */
  lemma SentCodeIs(rows: seq<Row>, req: Request)
    requires req.Send? && |req.draws.tries| == 20 && Handle(rows, req).1.Sent?
    ensures var (after, reply) := Handle(rows, req); var d := req.draws;
      && (|| (exists j :: 0 <= j < 20 && reply.sentCode == Decimal(d.tries[j] as int + 1000) && !Used(rows, req.now, d.tries[j])
                && forall i :: 0 <= i < j ==> Used(rows, req.now, d.tries[i]))
          || ((forall i :: 0 <= i < 20 ==> Used(rows, req.now, d.tries[i])) && reply.sentCode == Decimal(d.fallback as int + 1000)))
      && forall r :: r in after <==> (r in rows && r.created >= req.now - 180) || r == Row(req.phone, reply.sentCode, req.now)
  {
    hide Filter, Decimal, FirstFree, RecentCodes, Used, WellFormed, RowsFor;
    FirstFreeIs(rows, req.now, req.draws, 0);
    forall r: Row ensures r in Unexpired(rows, req.now) <==> r in rows && r.created >= req.now - 180 {
      FilterHolds((r: Row) => r.created >= req.now - TTL, rows, r);
    }
  }

  predicate Digits(s: string) { forall i :: 0 <= i < |s| ==> '0' <= s[i] <= '9' }

  /** Which requests are refused: a code is asked for only by an eligible mobile number,
      eleven digits starting with 09; a code of four digits is tried by such a number,
      or for a registration by any eleven digits. */
  lemma RefusedIff(rows: seq<Row>, req: Request)
    ensures var (after, reply) := Handle(rows, req); var mobile := Digits(req.phone) && |req.phone| == 11 && req.phone[..2] == "09";
      && (req.Send? ==> (reply == BadRequest <==> !(mobile && req.eligible)))
      && (req.Verify? && req.endpoint == Forgot ==> (reply == BadRequest <==> !(mobile && Digits(req.code) && |req.code| == 4)))
      && (req.Verify? && req.endpoint == Register ==>
            (reply == BadRequest <==> !(Digits(req.phone) && |req.phone| == 11 && Digits(req.code) && |req.code| == 4)))
      && (reply == BadRequest ==> forall r :: r in after <==> r in rows && r.created >= req.now - 180)
  {
    hide Filter, FirstFree, RecentCodes, RowsFor, Matching, OtherRows, Delete;
    assert Digits(req.phone) <==> AllDigits(req.phone);
    assert req.Verify? ==> (Digits(req.code) <==> AllDigits(req.code));
    assert |req.phone| == 11 ==> (req.phone[..2] == "09" <==> req.phone[0] == '0' && req.phone[1] == '9');
    forall r: Row ensures r in Unexpired(rows, req.now) <==> r in rows && r.created >= req.now - 180 {
      FilterHolds((r: Row) => r.created >= req.now - TTL, rows, r);
    }
  }
}
