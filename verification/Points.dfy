/** Ranking points and the cached columns that summarise them.

    Points are integers in hundredths. A posting gives points to a subject in
    one role; a cached column (an account) collects the postings that touch it.
    A player and a coach are rows of the same profile table, so the total of one
    profile collects postings of both roles. */
module Points {
  import opened Common

  datatype Role = PlayerRole | CoachRole | ClubRole | BoardRole

  datatype Posting = Posting(role: Role, subject: Id, points: int)

  datatype Account =
    | ProfileCompetition(profile: Id)
    | ProfileTotal(profile: Id)
    | ClubTotal(club: Id)
    | BoardTotal(board: Id)

  datatype Standing = Standing(competition: int, total: int)

  /** The cached columns: `ranking_competition` and `ranking_total` of profiles,
      `ranking_total` of clubs and boards. */
  datatype Standings = Standings(profiles: map<Id, Standing>, clubs: map<Id, int>, boards: map<Id, int>)

  /** Which postings a cached column must reflect. */
  predicate Touches(p: Posting, a: Account) {
    match a
    case ProfileCompetition(i) => p.role == PlayerRole && p.subject == i
    case ProfileTotal(i) => (p.role == PlayerRole || p.role == CoachRole) && p.subject == i
    case ClubTotal(i) => p.role == ClubRole && p.subject == i
    case BoardTotal(i) => p.role == BoardRole && p.subject == i
  }

  function Amount(p: Posting, a: Account): int {
    if Touches(p, a) then p.points else 0
  }

  /** The net credit of a list of postings to one cached column. */
  function Credits(ps: seq<Posting>, a: Account): int {
    if ps == [] then 0 else Credits(ps[..|ps| - 1], a) + Amount(ps[|ps| - 1], a)
  }

  /** Every cached column moved by the net credit of the postings. */
  function Shifted(s: Standings, ps: seq<Posting>): Standings {
    Standings(
      map i | i in s.profiles :: Standing(
        s.profiles[i].competition + Credits(ps, ProfileCompetition(i)),
        s.profiles[i].total + Credits(ps, ProfileTotal(i))),
      map i | i in s.clubs :: s.clubs[i] + Credits(ps, ClubTotal(i)),
      map i | i in s.boards :: s.boards[i] + Credits(ps, BoardTotal(i)))
  }

  function Negated(ps: seq<Posting>): (r: seq<Posting>)
    ensures |r| == |ps|
  {
    if ps == [] then [] else
      var p := ps[|ps| - 1];
      Negated(ps[..|ps| - 1]) + [p.(points := -p.points)]
  }

  lemma {:induction false} CreditsSnoc(ps: seq<Posting>, p: Posting, a: Account)
    ensures Credits(ps + [p], a) == Credits(ps, a) + Amount(p, a)
  {
  }

  lemma {:induction false} CreditsAppend(ps: seq<Posting>, qs: seq<Posting>, a: Account)
    ensures Credits(ps + qs, a) == Credits(ps, a) + Credits(qs, a)
  {
    if qs == [] {
      assert ps + qs == ps;
    } else {
      var init, last := qs[..|qs| - 1], qs[|qs| - 1];
      assert ps + qs == (ps + init) + [last] && qs == init + [last];
      CreditsSnoc(ps + init, last, a);
      CreditsAppend(ps, init, a);
    }
  }

  lemma {:induction false} CreditsNegated(ps: seq<Posting>, a: Account)
    ensures Credits(Negated(ps), a) == -Credits(ps, a)
  {
    if ps != [] {
      var init, p := ps[..|ps| - 1], ps[|ps| - 1];
      CreditsNegated(init, a);
      CreditsSnoc(Negated(init), p.(points := -p.points), a);
    }
  }

  /** Two lists of postings leave the same standings exactly when they credit
      every existing column alike; only this direction is needed. */
  lemma ShiftedAlike(s: Standings, ps: seq<Posting>, qs: seq<Posting>)
    requires forall a :: Credits(ps, a) == Credits(qs, a)
    ensures Shifted(s, ps) == Shifted(s, qs)
  {
  }

  lemma ShiftedNothing(s: Standings)
    ensures Shifted(s, []) == s
  {
  }

  lemma ShiftedTwice(s: Standings, ps: seq<Posting>, qs: seq<Posting>)
    ensures Shifted(Shifted(s, ps), qs) == Shifted(s, ps + qs)
  {
    var once, twice := Shifted(s, ps), Shifted(Shifted(s, ps), qs);
    var joined := Shifted(s, ps + qs);
    assert twice.profiles == joined.profiles by {
      forall i | i in s.profiles ensures twice.profiles[i] == joined.profiles[i] {
        CreditsAppend(ps, qs, ProfileCompetition(i));
        CreditsAppend(ps, qs, ProfileTotal(i));
      }
    }
    assert twice.clubs == joined.clubs by {
      forall i | i in s.clubs ensures twice.clubs[i] == joined.clubs[i] {
        CreditsAppend(ps, qs, ClubTotal(i));
      }
    }
    assert twice.boards == joined.boards by {
      forall i | i in s.boards ensures twice.boards[i] == joined.boards[i] {
        CreditsAppend(ps, qs, BoardTotal(i));
      }
    }
  }
}
