/** Phone numbers and national codes as typed and as stored. Besides ASCII digits
    the Persian and Arabic ones are known. */
module Phones {
  import opened Text

  function LatinDigit(c: char): char {
    if '\U{06F0}' <= c <= '\U{06F9}' then (c as int - 0x06F0 + '0' as int) as char
    else if '\U{0660}' <= c <= '\U{0669}' then (c as int - 0x0660 + '0' as int) as char
    else c
  }

  /** `s.translate(...)` with the digit table. */
  function Latin(s: string): string {
    seq(|s|, i requires 0 <= i < |s| => LatinDigit(s[i]))
  }

  /** `re.sub(r"\D+", "", s)` */
  function KeepDigits(s: string): (r: string)
    ensures AllDigits(r)
  {
    if s == [] then [] else KeepDigits(s[..|s| - 1]) + if IsDigit(s[|s| - 1]) then [s[|s| - 1]] else []
  }

  predicate IsSpace(c: char) { c == ' ' || c == '\t' || c == '\n' || c == '\r' }

  function StripRight(s: string): (r: string)
    ensures r <= s
  {
    if s != [] && IsSpace(s[|s| - 1]) then StripRight(s[..|s| - 1]) else s
  }

  function StripLeft(s: string): string {
    if s != [] && IsSpace(s[0]) then StripLeft(s[1..]) else s
  }

  function Strip(s: string): string { StripLeft(StripRight(s)) }

  /** `normalize_digits` of the serializers. */
  function NormalizeDigits(s: string): string { Strip(Latin(s)) }

  /** The stored form of a run of digits. */
  function StoredForm(digits: string): string {
    if |digits| == 12 && digits[0] == '9' && digits[1] == '8' then "0" + digits[2..]
    else if |digits| == 10 && digits[0] == '9' then "0" + digits
    else if |digits| > 11 then digits[..11]
    else digits
  }

  /** `normalize_phone` of the admin. */
  function NormalizePhone(raw: string): string { StoredForm(KeepDigits(Latin(raw))) }

  /** What `validate_phone` accepts. */
  predicate ValidPhone(p: string) {
    AllDigits(p) && |p| == 11 && p[0] == '0' && p[1] == '9'
  }

  /** What `validate_national_code` accepts. */
  predicate ValidNationalCode(c: string) {
    AllDigits(c) && |c| == 10
  }

  lemma LatinOfDigits(s: string)
    requires AllDigits(s)
    ensures Latin(s) == s
  {
  }

  lemma {:induction false} KeepDigitsOfDigits(s: string)
    requires AllDigits(s)
    ensures KeepDigits(s) == s
  {
    if s != [] {
      KeepDigitsOfDigits(s[..|s| - 1]);
      assert s == s[..|s| - 1] + [s[|s| - 1]];
    }
  }

  /** Normalising a validated phone changes nothing. */
  lemma NormalizeKeepsValid(p: string)
    requires ValidPhone(p)
    ensures NormalizePhone(p) == p && NormalizeDigits(p) == p
  {
    LatinOfDigits(p);
    KeepDigitsOfDigits(p);
    assert StripRight(p) == p && StripLeft(p) == p;
  }

  /** Normalising twice is normalising once, for every input. */
  lemma NormalizeIdempotent(raw: string)
    ensures NormalizePhone(NormalizePhone(raw)) == NormalizePhone(raw)
  {
    var once := NormalizePhone(raw);
    assert AllDigits(once);
    LatinOfDigits(once);
    KeepDigitsOfDigits(once);
  }

  // ---------- the ways of writing a number ----------

  datatype Script = Ascii | Persian | Arabic

  /** A digit as a script writes it. */
  function Written(c: char, script: Script): (r: char)
    requires IsDigit(c)
    ensures LatinDigit(r) == c
  {
    match script
    case Ascii => c
    case Persian => (c as int - '0' as int + 0x06F0) as char
    case Arabic => (c as int - '0' as int + 0x0660) as char
  }

  /** Text without a digit of any script: spaces, dashes, a plus sign. */
  predicate NoDigits(s: string) {
    forall i :: 0 <= i < |s| ==> !IsDigit(LatinDigit(s[i]))
  }

  /** A number written out: each digit in a script of its own, with text in front of
      the first, between any two and after the last. */
  function Spelled(number: string, scripts: seq<Script>, gaps: seq<string>): string
    requires AllDigits(number) && |scripts| == |number| && |gaps| == |number| + 1
  {
    if number == [] then gaps[0] else
      var n := |number| - 1;
      Spelled(number[..n], scripts[..n], gaps[..n + 1]) + [Written(number[n], scripts[n])] + gaps[n + 1]
  }

  lemma {:induction false} KeepDigitsAppend(s: string, t: string)
    ensures KeepDigits(s + t) == KeepDigits(s) + KeepDigits(t)
  {
    if t == [] {
      assert s + t == s;
    } else {
      assert (s + t)[..|s + t| - 1] == s + t[..|t| - 1];
      KeepDigitsAppend(s, t[..|t| - 1]);
    }
  }

  lemma {:induction false} KeepDigitsOfGap(gap: string)
    requires NoDigits(gap)
    ensures KeepDigits(Latin(gap)) == []
  {
    if gap != [] {
      assert Latin(gap)[..|gap| - 1] == Latin(gap[..|gap| - 1]);
      KeepDigitsOfGap(gap[..|gap| - 1]);
    }
  }

  lemma LatinOne(c: char, script: Script)
    requires IsDigit(c)
    ensures Latin([Written(c, script)]) == [c]
  {
  }

  lemma LatinAppend(s: string, t: string)
    ensures Latin(s + t) == Latin(s) + Latin(t)
  {
  }

  /** However a number is written, its digits are read back. */
  lemma {:induction false} SpelledIsRead(number: string, scripts: seq<Script>, gaps: seq<string>)
    requires AllDigits(number) && |scripts| == |number| && |gaps| == |number| + 1
    requires forall i :: 0 <= i < |gaps| ==> NoDigits(gaps[i])
    ensures KeepDigits(Latin(Spelled(number, scripts, gaps))) == number
  {
    hide KeepDigits, Latin, LatinDigit;
    if number == [] {
      KeepDigitsOfGap(gaps[0]);
    } else {
      var n := |number| - 1;
      var front, c, gap := Spelled(number[..n], scripts[..n], gaps[..n + 1]), Written(number[n], scripts[n]), gaps[n + 1];
      SpelledIsRead(number[..n], scripts[..n], gaps[..n + 1]);
      KeepDigitsOfGap(gap);
      LatinAppend(front, [c]);
      LatinAppend(front + [c], gap);
      LatinOne(number[n], scripts[n]);
      KeepDigitsAppend(Latin(front), [number[n]]);
      KeepDigitsAppend(Latin(front) + [number[n]], Latin(gap));
      KeepDigitsOfDigits([number[n]]);
      assert number == number[..n] + [number[n]];
    }
  }

  lemma StoredFormOf(p: string, number: string)
    requires ValidPhone(p) && number in {p, p[1..], "98" + p[1..]}
    ensures StoredForm(number) == p
  {
    assert "0" + p[1..] == p;
    if number == "98" + p[1..] {
      assert number[2..] == p[1..];
    }
  }

  /** The stored form of a mobile number is the same however it was typed: with or
      without the country code or the leading zero, in any mixture of ASCII, Persian
      and Arabic digits, with any separators. */
  lemma SameNumber(p: string, number: string, scripts: seq<Script>, gaps: seq<string>)
    requires ValidPhone(p) && number in {p, p[1..], "98" + p[1..]}
    requires |scripts| == |number| && |gaps| == |number| + 1
    requires forall i :: 0 <= i < |gaps| ==> NoDigits(gaps[i])
    ensures NormalizePhone(Spelled(number, scripts, gaps)) == p
  {
    hide KeepDigits, Latin, Spelled, StoredForm;
    StoredFormOf(p, number);
    SpelledIsRead(number, scripts, gaps);
  }

  /** Any other run of digits is stored as it is, cut after eleven. */
  lemma OtherNumbers(raw: string)
    ensures var digits := KeepDigits(Latin(raw));
      !(|digits| == 12 && digits[..2] == "98") && !(|digits| == 10 && digits[0] == '9') ==>
        NormalizePhone(raw) == if |digits| <= 11 then digits else digits[..11]
  {
    hide KeepDigits, Latin;
  }

  predicate Blank(s: string) {
    forall i :: 0 <= i < |s| ==> s[i] == ' ' || s[i] == '\t' || s[i] == '\n' || s[i] == '\r'
  }

  lemma {:induction false} StripRightOf(s: string, right: string)
    requires Blank(right) && (s == [] || !IsSpace(s[|s| - 1]))
    ensures StripRight(s + right) == s
  {
    if right == [] {
      assert s + right == s;
    } else {
      assert (s + right)[..|s + right| - 1] == s + right[..|right| - 1];
      StripRightOf(s, right[..|right| - 1]);
    }
  }

  lemma {:induction false} StripLeftOf(left: string, s: string)
    requires Blank(left) && (s == [] || !IsSpace(s[0]))
    ensures StripLeft(left + s) == s
  {
    if left == [] {
      assert left + s == s;
    } else {
      assert (left + s)[1..] == left[1..] + s;
      StripLeftOf(left[1..], s);
    }
  }

  function InScript(number: string, scripts: seq<Script>): (r: string)
    requires AllDigits(number) && |scripts| == |number|
    ensures |r| == |number|
  {
    seq(|number|, i requires 0 <= i < |number| => Written(number[i], scripts[i]))
  }

  /** The serializers read a number typed in any mixture of digits, with blanks around
      it but not inside, as its ASCII digits. */
  lemma TypedNumberIsRead(number: string, scripts: seq<Script>, left: string, right: string)
    requires AllDigits(number) && |scripts| == |number| && Blank(left) && Blank(right)
    ensures NormalizeDigits(left + InScript(number, scripts) + right) == number
  {
    hide Latin, StripLeft, StripRight, Written, LatinDigit;
    var typed := InScript(number, scripts);
    LatinAppend(left + typed, right);
    LatinAppend(left, typed);
    LatinOfBlank(left);
    LatinOfBlank(right);
    LatinInScript(number, scripts);
    if number == [] {
      var none: string := [];
      assert left + number + right == none + (left + right);
      StripRightOf(none, left + right);
      StripLeftOf(none, none);
      assert none + none == none;
    } else {
      StripRightOf(left + number, right);
      StripLeftOf(left, number);
    }
  }

  lemma LatinOfBlank(s: string)
    requires Blank(s)
    ensures Latin(s) == s
  {
  }

  lemma LatinInScript(number: string, scripts: seq<Script>)
    requires AllDigits(number) && |scripts| == |number|
    ensures Latin(InScript(number, scripts)) == number
  {
    var typed := InScript(number, scripts);
    assert forall i :: 0 <= i < |number| ==> LatinDigit(typed[i]) == number[i];
  }
}
