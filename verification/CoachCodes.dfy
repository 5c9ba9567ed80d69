/** The codes coaches get when they approve a competition. A code is the number
    drawn, zero-padded to six digits; that is one to one (`TextStandsForNumber`), so
    the number stands for the code. */
module CoachCodes {
  import opened Common
  import opened Text

  type CoachCode = c: int | 0 <= c < 1_000_000

  /** The stored text has six digits and tells the numbers apart. */
  lemma TextStandsForNumber(c: CoachCode, d: CoachCode)
    ensures |SixDigits(c)| == 6 && AllDigits(SixDigits(c))
    ensures SixDigits(c) == SixDigits(d) <==> c == d
  {
    SixDigitsOneToOne(d, c);
  }

  datatype Approval = Approval(
    competition: Id,
    coach: Id,
    code: Option<CoachCode>,
    termsAccepted: bool,
    isActive: bool)

  const TRIES: nat := 25

  predicate CodeExists(table: seq<Approval>, competition: Id, c: CoachCode) {
    exists k :: 0 <= k < |table| && table[k].competition == competition && table[k].code == Some(c)
  }

  /** The first of 25 draws that no approval of the competition has. */
  function FreshCode(table: seq<Approval>, competition: Id, draws: seq<CoachCode>, i: nat): (c: Option<CoachCode>)
    ensures c.Some? ==> !CodeExists(table, competition, c.value) && c.value in draws
    ensures c.None? ==> forall k :: i <= k < |draws| && k < TRIES ==> CodeExists(table, competition, draws[k])
    decreases |draws| - i
  {
    if i >= TRIES || i >= |draws| then None
    else if !CodeExists(table, competition, draws[i]) then Some(draws[i])
    else FreshCode(table, competition, draws, i + 1)
  }

  /** The row of a coach in a competition, from `i` on. */
  function FindApproval(table: seq<Approval>, competition: Id, coach: Id, i: nat): (r: Option<Id>)
    requires i <= |table|
    ensures r.Some? ==> i <= r.value < |table| && table[r.value].competition == competition && table[r.value].coach == coach
    ensures r.None? ==> forall k :: i <= k < |table| ==> table[k].competition != competition || table[k].coach != coach
    decreases |table| - i
  {
    if i == |table| then None
    else if table[i].competition == competition && table[i].coach == coach then Some(i)
    else FindApproval(table, competition, coach, i + 1)
  }

  /** `get_or_create`: the table with the coach's row in it, and where it is. */
  function GetOrCreate(table: seq<Approval>, competition: Id, coach: Id): (r: (seq<Approval>, Id))
    ensures r.1 < |r.0| && r.0[r.1].competition == competition && r.0[r.1].coach == coach
  {
    var found := FindApproval(table, competition, coach, 0);
    if found.Some? then (table, found.value)
    else (table + [Approval(competition, coach, None, true, true)], |table|)
  }

  /** The answer of the endpoint: the code it reports. */
  datatype Answer = Reported(code: Option<CoachCode>) | ServerError

  /** `ApproveCompetitionView.post`. The view reports the code its own copy of the
      row carries; `set_fresh_code` writes another copy. When no draw is free it
      raises, and the whole request is undone. */
  function ApproveCompetition(table: seq<Approval>, competition: Id, coach: Id, draws: seq<CoachCode>): (seq<Approval>, Answer) {
    var (t, k) := GetOrCreate(table, competition, coach);
    var row := t[k].(termsAccepted := true, isActive := true);
    var saved := t[k := row];
    if row.code.Some? then (saved, Reported(row.code))
    else
      var c := FreshCode(saved, competition, draws, 0);
      if c.None? then (table, ServerError)
      else (saved[k := row.(code := c)], Reported(row.code))
  }

  /** The unique columns, for a row saved at position `k`. */
  predicate Clashes(table: seq<Approval>, k: Id, row: Approval) {
    exists j :: 0 <= j < |table| && j != k && table[j].competition == row.competition
      && (table[j].coach == row.coach || (row.code.Some? && table[j].code == row.code))
  }

  /** `CoachApproval.save` of a changed row, outside `set_fresh_code`: a changed code is
      refused, and so is a row that the unique constraints forbid. */
  function SaveApproval(table: seq<Approval>, k: Id, row: Approval): (seq<Approval>, bool) {
    if k >= |table| || row.code != table[k].code || Clashes(table, k, row) then (table, false)
    else (table[k := row], true)
  }

  // ---------- the table in place ----------

  class ApprovalTable {
    var rows: seq<Approval>

    constructor ()
      ensures rows == []
    {
      rows := [];
    }

    /** `CoachApproval.set_fresh_code(save=True, force=True)` */
    method SetFreshCode(k: Id, draws: seq<CoachCode>) returns (code: Option<CoachCode>)
      requires k < |rows| && |draws| == TRIES
      modifies this
      ensures code == FreshCode(old(rows), old(rows)[k].competition, draws, 0)
      ensures rows == if code.Some? then old(rows)[k := old(rows)[k].(code := code)] else old(rows)
    {
      var i := 0;
      while i < TRIES
        invariant 0 <= i <= TRIES && rows == old(rows)
        invariant FreshCode(rows, rows[k].competition, draws, 0) == FreshCode(rows, rows[k].competition, draws, i)
      {
        var c := draws[i];
        if !CodeExists(rows, rows[k].competition, c) {
          rows := rows[k := rows[k].(code := Some(c))];
          return Some(c);
        }
        i := i + 1;
      }
      code := None;
    }

    /** `CoachApproval.save` */
    method Save(k: Id, row: Approval) returns (saved: bool)
      requires k < |rows|
      modifies this
      ensures (rows, saved) == SaveApproval(old(rows), k, row)
    {
      var orig := rows[k];
      if orig.code != row.code {
        return false;
      }
      if Clashes(rows, k, row) {
        return false;
      }
      rows := rows[k := row];
      saved := true;
    }

    /** `ApproveCompetitionView.post` */
    method Post(competition: Id, coach: Id, draws: seq<CoachCode>) returns (answer: Answer)
      requires |draws| == TRIES
      modifies this
      ensures (rows, answer) == ApproveCompetition(old(rows), competition, coach, draws)
    {
      var saved := rows;
      var (t, k) := GetOrCreate(rows, competition, coach);
      var approval := t[k].(termsAccepted := true, isActive := true);
      rows := t[k := approval];
      if approval.code.None? {
        var code := SetFreshCode(k, draws);
        if code.None? {
          rows := saved;
          return ServerError;
        }
      }
      answer := Reported(approval.code);
    }
  }

  // ---------- runs ----------

  datatype Request =
    | Approve(competition: Id, coach: Id, draws: seq<CoachCode>)
    | PlainSave(k: Id, row: Approval)

  function Served(table: seq<Approval>, r: Request): seq<Approval> {
    match r
    case Approve(competition, coach, draws) => ApproveCompetition(table, competition, coach, draws).0
    case PlainSave(k, row) => SaveApproval(table, k, row).0
  }

  function Serve(table: seq<Approval>, requests: seq<Request>): seq<Approval> {
    if requests == [] then table else Served(Serve(table, requests[..|requests| - 1]), requests[|requests| - 1])
  }

  /** One row a coach and competition; no code twice in a competition. */
  ghost predicate CodesUnique(table: seq<Approval>) {
    && (forall j, k :: 0 <= j < k < |table| && table[j].competition == table[k].competition ==>
          && table[j].coach != table[k].coach
          && (table[j].code.Some? ==> table[j].code != table[k].code))
  }

  /** A code once there stays with its row. */
  ghost predicate CodesKept(before: seq<Approval>, after: seq<Approval>) {
    && |before| <= |after|
    && forall k :: 0 <= k < |before| && before[k].code.Some? ==> after[k].code == before[k].code
  }

  /** Rows keep their competition and coach. */
  ghost predicate RowsStay(before: seq<Approval>, after: seq<Approval>) {
    && |before| <= |after|
    && forall k :: 0 <= k < |before| ==> after[k].competition == before[k].competition && after[k].coach == before[k].coach
  }

  lemma ApproveKeeps(table: seq<Approval>, competition: Id, coach: Id, draws: seq<CoachCode>)
    requires CodesUnique(table)
    ensures var (after, answer) := ApproveCompetition(table, competition, coach, draws);
      && CodesUnique(after) && CodesKept(table, after) && RowsStay(table, after)
      && (answer == ServerError ==> after == table)
      && (answer.Reported? ==>
            exists k :: 0 <= k < |after| && after[k].competition == competition && after[k].coach == coach
              && after[k].code.Some? && after[k].termsAccepted && after[k].isActive)
  {
    var (t, k) := GetOrCreate(table, competition, coach);
    assert CodesUnique(t) && CodesKept(table, t);
    var row := t[k].(termsAccepted := true, isActive := true);
    var saved := t[k := row];
    assert CodesUnique(saved) && CodesKept(table, saved);
    if row.code.None? {
      var c := FreshCode(saved, competition, draws, 0);
      if c.Some? {
        var after := saved[k := row.(code := c)];
        assert forall j :: 0 <= j < |saved| && saved[j].competition == competition ==> saved[j].code != c;
        assert after[k].code.Some?;
      }
    } else {
      assert saved[k].code.Some?;
    }
  }

  /** A plain save is refused exactly when it changes the code or would give a coach a
      second row, or a code a second use, in a competition; a refused one changes
      nothing, an accepted one stores the row. */
  lemma PlainSaveKeeps(table: seq<Approval>, k: Id, row: Approval)
    requires CodesUnique(table)
    ensures var (after, saved) := SaveApproval(table, k, row);
      && CodesUnique(after) && CodesKept(table, after)
      && (!saved ==> after == table)
      && (saved ==> k < |table| && after == table[k := row])
      && (k < |table| ==> (saved <==> row.code == table[k].code && CodesUnique(table[k := row])))
  {
    if k < |table| {
      var after := table[k := row];
      if CodesUnique(after) {
        forall j | 0 <= j < |table| && j != k && table[j].competition == row.competition
          ensures table[j].coach != row.coach && (row.code.Some? ==> table[j].code != row.code)
        {
          assert after[j] == table[j] && after[k] == row;
          assert j < k || k < j;
        }
      }
    }
  }

  /** The code an approval draws: the first of the first 25 draws that no approval of the
      competition has; none if all 25 are taken. */
  lemma {:induction false} FirstFreeDraw(table: seq<Approval>, competition: Id, draws: seq<CoachCode>, i: nat)
    requires |draws| == 25 && i <= 25
    ensures var c := FreshCode(table, competition, draws, i);
      && (c.None? <==> forall k :: i <= k < 25 ==> Taken(table, competition, draws[k]))
      && (c.Some? ==> exists k :: i <= k < 25 && draws[k] == c.value && !Taken(table, competition, draws[k])
                        && forall j :: i <= j < k ==> Taken(table, competition, draws[j]))
    decreases 25 - i
  {
    if i < 25 {
      FirstFreeDraw(table, competition, draws, i + 1);
    }
  }

  /** Some approval of the competition has this code. */
  predicate Taken(table: seq<Approval>, competition: Id, c: CoachCode) {
    exists row :: row in table && row.competition == competition && row.code == Some(c)
  }

  /** What an approval writes: only the coach's own row, one is added if there is none;
      it is accepted and active, keeps a code it had and else gets the first free draw. */
  lemma ApprovalWrites(table: seq<Approval>, competition: Id, coach: Id, draws: seq<CoachCode>)
    requires |draws| == 25
    ensures var (after, answer) := ApproveCompetition(table, competition, coach, draws);
      && |table| <= |after| <= |table| + 1
      && (forall k :: 0 <= k < |table| && !(table[k].competition == competition && table[k].coach == coach) ==> after[k] == table[k])
      && ((forall k :: 0 <= k < |table| ==> !(table[k].competition == competition && table[k].coach == coach)) ==>
            if FreshCode(table, competition, draws, 0).None? then answer == ServerError && after == table
            else answer == Reported(None) && after == table + [Approval(competition, coach, FreshCode(table, competition, draws, 0), true, true)])
      && forall k :: 0 <= k < |table| && table[k].competition == competition && table[k].coach == coach
                     && (forall j :: 0 <= j < k ==> !(table[j].competition == competition && table[j].coach == coach)) ==>
           if table[k].code.Some? then
             answer == Reported(table[k].code) && after == table[k := table[k].(termsAccepted := true, isActive := true)]
           else
             var c := FreshCode(table, competition, draws, 0);
             if c.None? then answer == ServerError && after == table
             else answer == Reported(None) && after == table[k := table[k].(code := c, termsAccepted := true, isActive := true)]
  {
    FirstApproval(table, competition, coach, 0);
    var (t, k) := GetOrCreate(table, competition, coach);
    var saved := t[k := t[k].(termsAccepted := true, isActive := true)];
    if t[k].code.None? {
      SameCodes(table, saved, competition, draws, 0);
    }
  }

  lemma {:induction false} FirstApproval(table: seq<Approval>, competition: Id, coach: Id, i: nat)
    requires i <= |table|
    ensures var r := FindApproval(table, competition, coach, i);
      r.Some? ==> forall j :: i <= j < r.value ==> !(table[j].competition == competition && table[j].coach == coach)
    decreases |table| - i
  {
    if i < |table| {
      FirstApproval(table, competition, coach, i + 1);
    }
  }

  /** Tables with the same codes leave the same draws free. */
  lemma {:induction false} SameCodes(xs: seq<Approval>, ys: seq<Approval>, competition: Id, draws: seq<CoachCode>, i: nat)
    requires |xs| <= |ys| && forall k :: 0 <= k < |xs| ==> xs[k].competition == ys[k].competition && xs[k].code == ys[k].code
    requires forall k :: |xs| <= k < |ys| ==> ys[k].code.None?
    ensures FreshCode(xs, competition, draws, i) == FreshCode(ys, competition, draws, i)
    decreases |draws| - i
  {
    if i < 25 && i < |draws| {
      if CodeExists(xs, competition, draws[i]) {
        var k :| 0 <= k < |xs| && xs[k].competition == competition && xs[k].code == Some(draws[i]);
        assert ys[k].competition == competition && ys[k].code == Some(draws[i]);
      }
      SameCodes(xs, ys, competition, draws, i + 1);
    }
  }

  /** Over any run of approvals and plain saves the codes of a competition are distinct,
      and a code once given is never changed; approvals leave every row to its coach. */
  lemma {:induction false} CodesStayUnique(table: seq<Approval>, requests: seq<Request>)
    requires CodesUnique(table)
    ensures CodesUnique(Serve(table, requests)) && CodesKept(table, Serve(table, requests))
    ensures (forall m :: 0 <= m < |requests| ==> requests[m].Approve?) ==> RowsStay(table, Serve(table, requests))
  {
    if requests != [] {
      var before, r := Serve(table, requests[..|requests| - 1]), requests[|requests| - 1];
      CodesStayUnique(table, requests[..|requests| - 1]);
      match r {
        case Approve(competition, coach, draws) => ApproveKeeps(before, competition, coach, draws);
        case PlainSave(k, row) => PlainSaveKeeps(before, k, row);
      }
      var after := Serve(table, requests);
      forall k | 0 <= k < |table| && table[k].code.Some? ensures after[k].code == table[k].code {
        assert before[k].code == table[k].code;
      }
    }
  }

  /** The stored code of a coach, if any. */
  function StoredCode(table: seq<Approval>, competition: Id, coach: Id): Option<CoachCode> {
    var found := FindApproval(table, competition, coach, 0);
    if found.Some? then table[found.value].code else None
  }

  /** The endpoint is meant to report the coach's code. A request that is served does
      so exactly when the coach had a code before it: the request that draws the code
      reports none. */
  lemma ReportsStoredCodeIff(table: seq<Approval>, competition: Id, coach: Id, draws: seq<CoachCode>)
    requires CodesUnique(table)
    ensures var (after, answer) := ApproveCompetition(table, competition, coach, draws);
      answer.Reported? ==>
        && StoredCode(after, competition, coach).Some?
        && (answer.code == StoredCode(after, competition, coach) <==> StoredCode(table, competition, coach).Some?)
  {
    var (after, answer) := ApproveCompetition(table, competition, coach, draws);
    ApproveKeeps(table, competition, coach, draws);
    if answer.Reported? {
      var (t, k) := GetOrCreate(table, competition, coach);
      OnlyRow(after, competition, coach, k);
      OnlyRow(t, competition, coach, k);
    }
  }

  lemma OnlyRow(table: seq<Approval>, competition: Id, coach: Id, k: nat)
    requires CodesUnique(table) && k < |table| && table[k].competition == competition && table[k].coach == coach
    ensures FindApproval(table, competition, coach, 0) == Some(k)
  {
  }

  /** Every first request, on the empty table: the first draw is stored, no code is
      reported. */
  lemma FirstApprovalReportsNothing(table: seq<Approval>, competition: Id, coach: Id, draws: seq<CoachCode>)
    requires table == [] && |draws| == TRIES
    ensures var (after, answer) := ApproveCompetition(table, competition, coach, draws);
      answer == Reported(None) && StoredCode(after, competition, coach) == Some(draws[0])
  {
    var (t, k) := GetOrCreate(table, competition, coach);
    assert !CodeExists(t[k := t[k].(termsAccepted := true, isActive := true)], competition, draws[0]);
  }
}
