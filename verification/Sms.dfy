/** The text-message codes: one table of (phone, code, created) rows driven by four
    endpoints. Time is in seconds; a request reads the clock once. */
module Sms {
  import opened Text

  const TTL: int := 180

  datatype Row = Row(phone: string, code: string, created: int)

  // ---------- queries ----------

  function Filter(f: Row -> bool, rows: seq<Row>): seq<Row> {
    if rows == [] then [] else
      var last := rows[|rows| - 1];
      Filter(f, rows[..|rows| - 1]) + (if f(last) then [last] else [])
  }

  /** `cleanup_expired_sms`: what is left. */
  function Unexpired(rows: seq<Row>, now: int): seq<Row> {
    Filter((r: Row) => r.created >= now - TTL, rows)
  }

  function RowsFor(rows: seq<Row>, phone: string): seq<Row> {
    Filter((r: Row) => r.phone == phone, rows)
  }

  function OtherRows(rows: seq<Row>, phone: string): seq<Row> {
    Filter((r: Row) => r.phone != phone, rows)
  }

  function Matching(rows: seq<Row>, phone: string, code: string): seq<Row> {
    Filter((r: Row) => r.phone == phone && r.code == code, rows)
  }

  /** The table without one record. */
  function Delete(rows: seq<Row>, record: Row): seq<Row> {
    if rows == [] then []
    else if rows[|rows| - 1] == record then rows[..|rows| - 1]
    else Delete(rows[..|rows| - 1], record) + [rows[|rows| - 1]]
  }

  // ---------- choosing a code ----------

  /** `str(secrets.randbelow(9000) + 1000)` */
  type Draw = d: int | 0 <= d < 9000

  function DrawnCode(d: Draw): string { Decimal(d + 1000) }

  function RecentCodes(rows: seq<Row>, now: int): set<string> {
    set r | r in Unexpired(rows, now) :: r.code
  }

  /** The draws of one call: twenty tries and the one made when they all clash. */
  datatype Draws = Draws(tries: seq<Draw>, fallback: Draw)

  const TRIES := 20

  function FirstFree(recent: set<string>, d: Draws, k: nat): string
    decreases TRIES - k
  {
    if k < TRIES && k < |d.tries| then
      if DrawnCode(d.tries[k]) !in recent then DrawnCode(d.tries[k]) else FirstFree(recent, d, k + 1)
    else DrawnCode(d.fallback)
  }

  // ---------- the four endpoints ----------

  datatype Endpoint = Register | Forgot

  /** `eligible` is what the profile, club and user tables say about the phone: free
      for a registration, known for a forgotten password. */
  datatype Request =
    | Send(endpoint: Endpoint, phone: string, now: int, eligible: bool, draws: Draws)
    | Verify(endpoint: Endpoint, phone: string, now: int, code: string)

  datatype Reply =
    | BadRequest
    | RateLimited(retryAfter: int)
    | Sent(sentCode: string)
    | Accepted
    | WrongCode
    | Expired
    | Ambiguous

  predicate MobileNumber(phone: string) {
    AllDigits(phone) && |phone| == 11 && phone[0] == '0' && phone[1] == '9'
  }

  /** Registration's check asks for eleven digits only. */
  predicate VerifiablePhone(endpoint: Endpoint, phone: string) {
    if endpoint == Register then AllDigits(phone) && |phone| == 11 else MobileNumber(phone)
  }

  predicate WellFormed(req: Request) {
    match req
    case Send(_, phone, _, eligible, _) => MobileNumber(phone) && eligible
    case Verify(endpoint, phone, _, code) => VerifiablePhone(endpoint, phone) && AllDigits(code) && |code| == 4
  }

  function SendStep(rows: seq<Row>, phone: string, now: int, draws: Draws): (seq<Row>, Reply) {
    var recent := Filter((r: Row) => r.created >= now - TTL, RowsFor(rows, phone));
    if recent != [] then (rows, RateLimited(TTL - (now - recent[0].created)))
    else
      var code := FirstFree(RecentCodes(rows, now), draws, 0);
      (rows + [Row(phone, code, now)], Sent(code))
  }

  function VerifyStep(rows: seq<Row>, phone: string, now: int, code: string): (seq<Row>, Reply) {
    var found := Matching(rows, phone, code);
    if found == [] then (OtherRows(rows, phone), WrongCode)
    else if |found| > 1 then (rows, Ambiguous)
    else if found[0].created < now - TTL then (Delete(rows, found[0]), Expired)
    else (Delete(rows, found[0]), Accepted)
  }

  /** Every endpoint cleans up first, then checks its input. */
  function Handle(rows: seq<Row>, req: Request): (seq<Row>, Reply) {
    var clean := Unexpired(rows, req.now);
    if !WellFormed(req) then (clean, BadRequest)
    else match req
      case Send(_, phone, now, _, draws) => SendStep(clean, phone, now, draws)
      case Verify(_, phone, now, code) => VerifyStep(clean, phone, now, code)
  }

  // ---------- the table in place ----------

  class SmsTable {
    var rows: seq<Row>

    constructor ()
      ensures rows == []
    {
      rows := [];
    }

    method CleanupExpired(now: int)
      modifies this
      ensures rows == Unexpired(old(rows), now)
    {
      rows := Unexpired(rows, now);
    }

    /** `generate_unique_sms_code` */
    method GenerateUniqueCode(now: int, draws: Draws) returns (code: string)
      requires |draws.tries| == TRIES
      ensures code == FirstFree(RecentCodes(rows, now), draws, 0)
      ensures AllDigits(code) && |code| == 4 && code[0] != '0'
      ensures code in RecentCodes(rows, now) ==>
        forall i :: 0 <= i < TRIES ==> DrawnCode(draws.tries[i]) in RecentCodes(rows, now)
    {
      hide Decimal, Filter;
      var recent := RecentCodes(rows, now);
      var i := 0;
      while i < TRIES
        invariant 0 <= i <= TRIES
        invariant forall j :: 0 <= j < i ==> DrawnCode(draws.tries[j]) in recent
        invariant FirstFree(recent, draws, 0) == FirstFree(recent, draws, i)
      {
        code := DrawnCode(draws.tries[i]);
        if code !in recent {
          FourDigits(draws.tries[i]);
          return;
        }
        i := i + 1;
      }
      FourDigits(draws.fallback);
      code := DrawnCode(draws.fallback);
    }

    /** `SendCodeAPIView.post` and `ForgotPasswordSendCodeAPIView.post` */
    method SendCode(req: Request) returns (reply: Reply)
      requires req.Send? && |req.draws.tries| == TRIES
      modifies this
      ensures (rows, reply) == Handle(old(rows), req)
    {
      CleanupExpired(req.now);
      if !WellFormed(req) {
        return BadRequest;
      }
      var recent := Filter((r: Row) => r.created >= req.now - TTL, RowsFor(rows, req.phone));
      if recent != [] {
        return RateLimited(TTL - (req.now - recent[0].created));
      }
      var code := GenerateUniqueCode(req.now, req.draws);
      rows := rows + [Row(req.phone, code, req.now)];
      reply := Sent(code);
    }

    /** `VerifyCodeAPIView.post` and the code part of
        `ForgotPasswordVerifyAPIView.post` */
    method VerifyCode(req: Request) returns (reply: Reply)
      requires req.Verify?
      modifies this
      ensures (rows, reply) == Handle(old(rows), req)
    {
      CleanupExpired(req.now);
      if !WellFormed(req) {
        return BadRequest;
      }
      var found := Matching(rows, req.phone, req.code);
      if found == [] {
        rows := OtherRows(rows, req.phone);
        return WrongCode;
      }
      if |found| > 1 {
        return Ambiguous;
      }
      rows := Delete(rows, found[0]);
      reply := if found[0].created < req.now - TTL then Expired else Accepted;
    }
  }

  lemma FourDigits(d: Draw)
    ensures var c := DrawnCode(d); AllDigits(c) && |c| == 4 && c[0] != '0'
  {
    var n := d + 1000;
    assert Decimal(n) == Decimal(n / 10) + [(n % 10 + '0' as int) as char];
    assert Decimal(n / 10) == Decimal(n / 100) + [(n / 10 % 10 + '0' as int) as char];
    assert Decimal(n / 100) == Decimal(n / 1000) + [(n / 100 % 10 + '0' as int) as char];
  }
}
