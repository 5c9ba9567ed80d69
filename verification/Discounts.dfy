/** Discount codes: finding one, and pricing with it. Amounts are rials. */
module Discounts {
  import opened Common
  import opened Text

  const MINIMUM_RIALS: int := 10_000

  datatype Code = Code(
    code: string,
    percent: nat,
    competition: Option<Id>,
    maxUses: Option<nat>,
    usedCount: nat,
    active: bool)

  datatype DiscountError = NegativeAmount | NotInRials | UnknownCode | UsedUp | BadPercent

  datatype Quote =
    | Quote(finalAmount: int, code: Option<Id>, discount: int)
    | NoQuote(error: DiscountError)

  /** The cap is absent, zero (unlimited), or not reached. */
  predicate HasRoom(c: Code) {
    c.maxUses.None? || c.maxUses.value == 0 || c.usedCount < c.maxUses.value
  }

  predicate Eligible(c: Code, competition: Option<Id>, text: string) {
    && Lower(c.code) == Lower(text)
    && (competition.None? || c.competition.None? || c.competition == competition)
    && c.active
  }

  /** The first row from `i` on that fits. */
  function FirstEligible(codes: seq<Code>, competition: Option<Id>, text: string, i: nat): (r: Option<Id>)
    ensures r.Some? ==> i <= r.value < |codes| && Eligible(codes[r.value], competition, text)
    ensures r.None? ==> forall k :: i <= k < |codes| ==> !Eligible(codes[k], competition, text)
    decreases |codes| - i
  {
    if i >= |codes| then None
    else if Eligible(codes[i], competition, text) then Some(i)
    else FirstEligible(codes, competition, text, i + 1)
  }

  /** `(base * percent) // 100` */
  function PercentOf(base: int, percent: int): int { base * percent / 100 }

  /** `apply_discount_for_competition` with `commit` off, as both callers use it;
      `text` is already stripped. */
  function ApplyDiscount(codes: seq<Code>, competition: Option<Id>, base: int, text: string): Quote {
    if base < 0 then NoQuote(NegativeAmount)
    else if 0 < base < MINIMUM_RIALS then NoQuote(NotInRials)
    else if text == "" then Quote(base, None, 0)
    else
      var found := FirstEligible(codes, competition, text, 0);
      if found.None? then NoQuote(UnknownCode)
      else
        var c := codes[found.value];
        if !HasRoom(c) then NoQuote(UsedUp)
        else if c.percent > 100 then NoQuote(BadPercent)
        else if c.percent <= 0 then Quote(base, found, 0)
        else
          var discount := PercentOf(base, c.percent);
          Quote(if base - discount > 0 then base - discount else 0, found, discount)
  }

  /** What a successful quote says: nothing is lost between price and discount, the
      discount is the floor of the percentage, and the code was active and had room. */
  lemma QuoteExact(codes: seq<Code>, competition: Option<Id>, base: int, text: string)
    ensures var q := ApplyDiscount(codes, competition, base, text);
      q.Quote? ==>
        && q.finalAmount + q.discount == base
        && 0 <= q.discount <= base
        && (q.code.None? ==> q.discount == 0)
        && (q.code.Some? ==>
              && q.code.value < |codes|
              && codes[q.code.value].active && HasRoom(codes[q.code.value])
              && codes[q.code.value].percent <= 100
              && q.discount == PercentOf(base, codes[q.code.value].percent))
  {
  }

  /** Row `k` is a code of this text, up to case, for this competition or for all (or no
      competition is asked for), and switched on. */
  predicate Fits(codes: seq<Code>, competition: Option<Id>, text: string, k: nat) {
    && k < |codes| && SameUpToCase(codes[k].code, text) && codes[k].active
    && (competition.Some? && codes[k].competition.Some? ==> codes[k].competition.value == competition.value)
  }

  lemma FitsIsEligible(codes: seq<Code>, competition: Option<Id>, text: string, k: nat)
    requires k < |codes|
    ensures Fits(codes, competition, text, k) <==> Eligible(codes[k], competition, text)
  {
    LowerFoldsCase(codes[k].code, text);
  }

  /** A price that no code is asked for, or that is no price in rials. */
  lemma QuoteWithoutCode(codes: seq<Code>, competition: Option<Id>, base: int, text: string)
    ensures var q := ApplyDiscount(codes, competition, base, text);
      && (base < 0 <==> q == NoQuote(NegativeAmount))
      && (0 < base < 10_000 <==> q == NoQuote(NotInRials))
      && (base == 0 || base >= 10_000 ==> (text == "" <==> q == Quote(base, None, 0)))
  {
    FirstIsFirst(codes, competition, text, 0);
  }

  lemma PercentIsFloor(base: int, percent: int)
    ensures 100 * PercentOf(base, percent) <= base * percent < 100 * PercentOf(base, percent) + 100
    ensures PercentOf(base, 0) == 0
  {
    var x := base * percent;
    assert 100 * (x / 100) <= x < 100 * (x / 100) + 100;
  }

  /** What a row that was found leads to: an error for a reached cap or a percentage over
      100, else a price less the floor of the percentage. */
  predicate PricedBy(c: Code, k: nat, base: int, q: Quote) {
    if c.maxUses.Some? && c.maxUses.value > 0 && c.usedCount >= c.maxUses.value then q == NoQuote(UsedUp)
    else if c.percent > 100 then q == NoQuote(BadPercent)
    else
      && q.Quote? && q.code == Some(k) && q.finalAmount + q.discount == base
      && 100 * q.discount <= base * c.percent < 100 * q.discount + 100
  }

  lemma FoundIsPriced(codes: seq<Code>, competition: Option<Id>, base: int, text: string)
    requires (base == 0 || base >= 10_000) && text != "" && FirstEligible(codes, competition, text, 0).Some?
    ensures var k := FirstEligible(codes, competition, text, 0).value;
      PricedBy(codes[k], k, base, ApplyDiscount(codes, competition, base, text))
  {
    hide FirstEligible, PercentOf, Lower;
    QuoteExact(codes, competition, base, text);
    PercentIsFloor(base, codes[FirstEligible(codes, competition, text, 0).value].percent);
  }

  /** A typed code is looked up and priced: the first row that fits decides, and if none
      does the code is unknown. */
  lemma QuoteWithCode(codes: seq<Code>, competition: Option<Id>, base: int, text: string)
    requires (base == 0 || base >= 10_000) && text != ""
    ensures var q := ApplyDiscount(codes, competition, base, text);
      && ((forall k: nat :: !Fits(codes, competition, text, k)) <==> q == NoQuote(UnknownCode))
      && forall k: nat :: Fits(codes, competition, text, k) && (forall j: nat :: j < k ==> !Fits(codes, competition, text, j)) ==>
           PricedBy(codes[k], k, base, q)
  {
    hide PercentOf, SameUpToCase, Lower;
    FirstIsFirst(codes, competition, text, 0);
    forall k: nat | k < |codes| ensures Fits(codes, competition, text, k) <==> Eligible(codes[k], competition, text) {
      FitsIsEligible(codes, competition, text, k);
    }
    var found := FirstEligible(codes, competition, text, 0);
    if found.Some? {
      assert Fits(codes, competition, text, found.value);
      FoundIsPriced(codes, competition, base, text);
      OnlyFits(codes, competition, text, found.value);
    }
  }

  lemma OnlyFits(codes: seq<Code>, competition: Option<Id>, text: string, k: nat)
    requires Fits(codes, competition, text, k) && forall j: nat :: j < k ==> !Fits(codes, competition, text, j)
    ensures forall m: nat :: Fits(codes, competition, text, m) && (forall j: nat :: j < m ==> !Fits(codes, competition, text, j)) ==> m == k
  {
    forall m: nat | Fits(codes, competition, text, m) && forall j: nat :: j < m ==> !Fits(codes, competition, text, j) ensures m == k {
      assert m < k ==> !Fits(codes, competition, text, m);
    }
  }

  /** Exactly when a code is accepted. */
  lemma QuoteGivenIff(codes: seq<Code>, competition: Option<Id>, base: int, text: string)
    ensures ApplyDiscount(codes, competition, base, text).Quote? <==>
            && (base == 0 || base >= MINIMUM_RIALS)
            && (text == "" ||
                exists k :: 0 <= k < |codes| && Eligible(codes[k], competition, text)
                  && (forall j :: 0 <= j < k ==> !Eligible(codes[j], competition, text))
                  && HasRoom(codes[k]) && codes[k].percent <= 100)
  {
    FirstIsFirst(codes, competition, text, 0);
  }

  lemma {:induction false} FirstIsFirst(codes: seq<Code>, competition: Option<Id>, text: string, i: nat)
    ensures var r := FirstEligible(codes, competition, text, i);
      r.Some? ==> forall j :: i <= j < r.value ==> !Eligible(codes[j], competition, text)
    decreases |codes| - i
  {
    if i < |codes| {
      FirstIsFirst(codes, competition, text, i + 1);
    }
  }
}
