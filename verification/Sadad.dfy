/** The Sadad signing input: the plaintext and its padding. */
module Sadad {
  import opened Common
  import opened Text

  type Byte = b: int | 0 <= b < 256

  const BLOCK: nat := 8
  const SEMICOLON: Byte := 59

  /** UTF-8 of ASCII text, one byte a character. */
  function Ascii(s: string): (r: seq<Byte>)
    requires AllDigits(s)
    ensures |r| == |s| && forall i :: 0 <= i < |s| ==> r[i] == s[i] as int
  {
    seq(|s|, i requires 0 <= i < |s| => s[i] as int)
  }

  /** `f"{terminal_id};{order_id};{amount_rial}"`, encoded. */
  function Plaintext(terminal: seq<Byte>, order: nat, amount: nat): seq<Byte> {
    terminal + [SEMICOLON] + Ascii(Decimal(order)) + [SEMICOLON] + Ascii(Decimal(amount))
  }

  function Repeat(b: Byte, n: nat): (r: seq<Byte>)
    ensures |r| == n && forall i :: 0 <= i < n ==> r[i] == b
  {
    seq(n, _ => b)
  }

  /** `_pkcs7_pad` with block 8: the padding of section 6.3 of RFC 5652. */
  function Pad(b: seq<Byte>): seq<Byte> {
    var pad := BLOCK - |b| % BLOCK;
    b + Repeat(pad, pad)
  }

  /** The padding is well formed: a whole number of blocks, ending in `n` bytes of
      value `n`. */
  predicate WellPadded(c: seq<Byte>) {
    && c != [] && |c| % BLOCK == 0
    && 1 <= c[|c| - 1] <= BLOCK
    && forall i :: |c| - c[|c| - 1] <= i < |c| ==> c[i] == c[|c| - 1]
  }

  /** What the receiver does. */
  function Unpad(c: seq<Byte>): Option<seq<Byte>> {
    if WellPadded(c) then Some(c[..|c| - c[|c| - 1]]) else None
  }

  /** Unpadding is the exact inverse of padding: it succeeds on padded inputs and
      on nothing else. */
  lemma UnpadInvertsPad(b: seq<Byte>, c: seq<Byte>)
    ensures Unpad(c) == Some(b) <==> Pad(b) == c
    ensures Pad(b) != [] && |Pad(b)| % 8 == 0 && |b| < |Pad(b)| <= |b| + 8
    ensures Pad(b)[..|b|] == b && forall i :: |b| <= i < |Pad(b)| ==> Pad(b)[i] == |Pad(b)| - |b|
  {
  }

  /** The signed text: the terminal, the order, then the amount, each number in its
      decimal digits, with semicolons between. */
  lemma PlaintextIs(terminal: seq<Byte>, order: nat, amount: nat)
    ensures exists x: string, y: string ::
      && AllDigits(x) && AllDigits(y) && ParseDigits(x) == order && ParseDigits(y) == amount
      && Plaintext(terminal, order, amount) == terminal + [59] + Ascii(x) + [59] + Ascii(y)
    ensures order == 12 && amount == 3 ==> Plaintext(terminal, order, amount) == terminal + [59, 49, 50, 59, 51]
  {
    ParseUndoesDecimal(order);
    ParseUndoesDecimal(amount);
    if order == 12 && amount == 3 {
      assert Decimal(12) == "12" && Decimal(3) == "3";
      assert Ascii("12") == [49, 50] && Ascii("3") == [51];
    }
  }

  lemma SplitAtSemicolon(x: seq<Byte>, y: seq<Byte>, u: seq<Byte>, v: seq<Byte>)
    requires SEMICOLON !in x && SEMICOLON !in u
    requires x + [SEMICOLON] + y == u + [SEMICOLON] + v
    ensures x == u && y == v
  {
    var s, t := x + [SEMICOLON] + y, u + [SEMICOLON] + v;
    assert forall i :: 0 <= i < |x| ==> s[i] == x[i];
    assert forall i :: 0 <= i < |u| ==> t[i] == u[i];
    assert s[|x|] == SEMICOLON && t[|u|] == SEMICOLON;
    assert |x| == |u|;
    assert x == s[..|x|] && u == t[..|u|];
    assert y == s[|x| + 1..] && v == t[|u| + 1..];
  }

  lemma AsciiInjective(s: string, t: string)
    requires AllDigits(s) && AllDigits(t) && Ascii(s) == Ascii(t)
    ensures s == t
  {
  }

  /** For one terminal, different orders or amounts are never signed alike. */
  lemma SigningInputInjective(terminal: seq<Byte>, order: nat, amount: nat, order': nat, amount': nat)
    requires Pad(Plaintext(terminal, order, amount)) == Pad(Plaintext(terminal, order', amount'))
    ensures order == order' && amount == amount'
  {
    var p, q := Plaintext(terminal, order, amount), Plaintext(terminal, order', amount');
    UnpadInvertsPad(p, Pad(p));
    UnpadInvertsPad(q, Pad(p));
    var x, y := Ascii(Decimal(order)), Ascii(Decimal(amount));
    var u, v := Ascii(Decimal(order')), Ascii(Decimal(amount'));
    assert x + [SEMICOLON] + y == p[|terminal| + 1..];
    assert u + [SEMICOLON] + v == q[|terminal| + 1..];
    SplitAtSemicolon(x, y, u, v);
    AsciiInjective(Decimal(order), Decimal(order'));
    AsciiInjective(Decimal(amount), Decimal(amount'));
    DecimalInjective(order, order');
    DecimalInjective(amount, amount');
  }
}
