/** Decimal numbers as text, and the group-payment mark in an intent's
    description. Digits are the ASCII ones. */
module Text {
  import opened Common

  predicate IsDigit(c: char) { '0' <= c <= '9' }

  predicate AllDigits(s: string) { forall i :: 0 <= i < |s| ==> IsDigit(s[i]) }

  /** `str(n)` of a natural number. */
  function Decimal(n: nat): (s: string)
    ensures s != [] && AllDigits(s)
  {
    if n < 10 then [(n + '0' as int) as char] else Decimal(n / 10) + [(n % 10 + '0' as int) as char]
  }

  /** `int(s)` of a run of digits. */
  function ParseDigits(s: string): nat
    requires AllDigits(s)
  {
    if s == [] then 0
    else ParseDigits(s[..|s| - 1]) * 10 + (s[|s| - 1] as int - '0' as int)
  }

  lemma {:induction false} ParseUndoesDecimal(n: nat)
    ensures ParseDigits(Decimal(n)) == n
  {
    if n >= 10 {
      var s := Decimal(n);
      assert s[..|s| - 1] == Decimal(n / 10);
      ParseUndoesDecimal(n / 10);
    } else {
      assert Decimal(n)[..0] == [];
    }
  }

  lemma DecimalInjective(m: nat, n: nat)
    requires Decimal(m) == Decimal(n)
    ensures m == n
  {
    ParseUndoesDecimal(m);
    ParseUndoesDecimal(n);
  }

  function Zeros(k: nat): string { seq(k, _ => '0') }

  /** `f"{n:06d}"` */
  function SixDigits(n: nat): string {
    if |Decimal(n)| >= 6 then Decimal(n) else Zeros(6 - |Decimal(n)|) + Decimal(n)
  }

  lemma {:induction false} ZerosInFront(k: nat, s: string)
    requires AllDigits(s)
    ensures AllDigits(Zeros(k) + s) && ParseDigits(Zeros(k) + s) == ParseDigits(s)
  {
    if s != [] {
      assert (Zeros(k) + s)[..k + |s| - 1] == Zeros(k) + s[..|s| - 1];
      ZerosInFront(k, s[..|s| - 1]);
    } else if k > 0 {
      assert (Zeros(k) + s)[..k - 1] == Zeros(k - 1) + s;
      ZerosInFront(k - 1, s);
    }
  }

  lemma {:induction false} DecimalWidth(n: nat, digits: nat, bound: nat)
    requires digits > 0 && bound == Power10(digits) && n < bound
    ensures |Decimal(n)| <= digits
  {
    if n >= 10 {
      assert digits > 1;
      DecimalWidth(n / 10, digits - 1, Power10(digits - 1));
    }
  }

  function Power10(k: nat): nat {
    if k == 0 then 1 else 10 * Power10(k - 1)
  }

  /** Zero-padding keeps the number, so it is one to one; below 1,000,000 it gives
      exactly six digits. */
  lemma SixDigitsOneToOne(m: nat, n: nat)
    ensures SixDigits(m) == SixDigits(n) <==> m == n
    ensures AllDigits(SixDigits(n)) && ParseDigits(SixDigits(n)) == n
    ensures n < 1_000_000 ==> |SixDigits(n)| == 6
  {
    forall k: nat ensures AllDigits(SixDigits(k)) && ParseDigits(SixDigits(k)) == k {
      ParseUndoesDecimal(k);
      if |Decimal(k)| < 6 {
        ZerosInFront(6 - |Decimal(k)|, Decimal(k));
      }
    }
    if n < 1_000_000 {
      assert Power10(6) == 1_000_000 by {
        assert Power10(3) == 1_000;
      }
      DecimalWidth(n, 6, 1_000_000);
    }
  }

  function LowerChar(c: char): char {
    if 'A' <= c <= 'Z' then (c as int + 32) as char else c
  }

  /** Case folding of ASCII text, as `iexact` compares it. */
  function Lower(s: string): string {
    seq(|s|, i requires 0 <= i < |s| => LowerChar(s[i]))
  }

  /** The same text, except that ASCII letters may differ in case. */
  predicate SameUpToCase(x: string, y: string) {
    && |x| == |y|
    && forall i :: 0 <= i < |x| ==>
         || x[i] == y[i]
         || ('A' <= x[i] <= 'Z' && y[i] as int == x[i] as int + 32)
         || ('A' <= y[i] <= 'Z' && x[i] as int == y[i] as int + 32)
  }

  lemma LowerFoldsCase(x: string, y: string)
    ensures Lower(x) == Lower(y) <==> SameUpToCase(x, y)
  {
    if Lower(x) == Lower(y) {
      assert |x| == |Lower(x)| == |y|;
      forall i | 0 <= i < |x| ensures LowerChar(x[i]) == LowerChar(y[i]) {
        assert Lower(x)[i] == Lower(y)[i];
      }
    }
  }

  /** A printed number has no leading zero, except 0 itself. */
  lemma {:induction false} DecimalHasNoLeadingZero(n: nat)
    ensures Decimal(n)[0] == '0' <==> n == 0
  {
    if n >= 10 {
      DecimalHasNoLeadingZero(n / 10);
    }
  }

  // ---------- the group-payment mark ----------

  const MARK: string := "GP#"

  /** The description `post` writes for the intent of group payment `id`. */
  function GroupDescription(id: nat): string {
    "Group registration " + MARK + Decimal(id)
  }

  /** The end of the longest run of digits from `i` on. */
  function DigitsEnd(s: string, i: nat): (j: nat)
    requires i <= |s|
    ensures i <= j <= |s| && AllDigits(s[i..j])
    ensures j < |s| ==> !IsDigit(s[j])
    decreases |s| - i
  {
    if i < |s| && IsDigit(s[i]) then DigitsEnd(s, i + 1) else i
  }

  predicate MarkAt(s: string, i: nat) {
    i + 3 < |s| && s[i] == 'G' && s[i + 1] == 'P' && s[i + 2] == '#' && IsDigit(s[i + 3])
  }

  /** The leftmost match of `GP#(\d+)` from `i` on: its number, if any. */
  function SearchMark(s: string, i: nat): Option<nat>
    decreases |s| - i
  {
    if i >= |s| then None
    else if MarkAt(s, i) then Some(ParseDigits(s[i + 3..DigitsEnd(s, i + 3)]))
    else SearchMark(s, i + 1)
  }

  /** `re.search(r"GP#(\d+)", description)` */
  function ParseGroupId(description: string): Option<nat> {
    SearchMark(description, 0)
  }

  lemma {:induction false} SearchSkips(s: string, i: nat, j: nat)
    requires i <= j && forall k :: i <= k < j ==> !MarkAt(s, k)
    ensures SearchMark(s, i) == SearchMark(s, j)
    decreases j - i
  {
    if i < j {
      if i < |s| {
        SearchSkips(s, i + 1, j);
      }
    }
  }

  lemma {:induction false} DigitsEndAt(s: string, i: nat, j: nat)
    requires i <= j <= |s| && forall k :: i <= k < j ==> IsDigit(s[k])
    requires j < |s| ==> !IsDigit(s[j])
    ensures DigitsEnd(s, i) == j
    decreases j - i
  {
  }

  /** A printed mark is found again whatever surrounds it, as long as no other `#`
      comes before it and no digit follows it. */
  lemma MarkRoundTrip(prefix: string, id: nat, suffix: string)
    requires '#' !in prefix
    requires suffix == [] || !IsDigit(suffix[0])
    ensures ParseGroupId(prefix + MARK + Decimal(id) + suffix) == Some(id)
  {
    var s, p, d := prefix + MARK + Decimal(id) + suffix, |prefix|, Decimal(id);
    assert s[p] == 'G' && s[p + 1] == 'P' && s[p + 2] == '#' && s[p + 3] == d[0];
    forall k | 0 <= k < p ensures !MarkAt(s, k) {
      if k + 2 < p { assert s[k + 2] == prefix[k + 2]; }
    }
    SearchSkips(s, 0, p);
    assert s[p + 3..p + 3 + |d|] == d;
    DigitsEndAt(s, p + 3, p + 3 + |d|);
    ParseUndoesDecimal(id);
  }

  /** The description of a group's intent parses back to that group. */
  lemma GroupDescriptionRoundTrip(id: nat)
    ensures ParseGroupId(GroupDescription(id)) == Some(id)
  {
    MarkRoundTrip("Group registration ", id, "");
    assert GroupDescription(id) + "" == GroupDescription(id);
  }
}
