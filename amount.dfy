/**
 * The amount codec of the HTTP handlers (api.go:154-186): cutting a string
 * at a separator, reading a decimal amount, checking that it has at most two
 * fractional digits, and rendering cents as "D.DD".
 *
 * Amounts are exact: `ParseAmount` yields a `Decimal`, the value
 * units / 10^scale, in place of a float64.
 */
module Amount {
  import opened Types

  // ---------------------------------------------------------------------
  // split (api.go:169-182)
  // ---------------------------------------------------------------------

  /** Number of occurrences of `sep` in `s`. */
  function Count(s: string, sep: char): nat
  {
    if s == [] then 0
    else Count(s[..|s| - 1], sep) + (if s[|s| - 1] == sep then 1 else 0)
  }

  /**
   * The pieces after reading one more character `c`: a separator closes the
   * current (last) piece and opens an empty one; any other character
   * extends the current piece.
   */
  function Extend(pieces: seq<string>, c: char, sep: char): (r: seq<string>)
    requires |pieces| >= 1
    ensures |r| >= 1
  {
    if c == sep then pieces + [""]
    else pieces[..|pieces| - 1] + [pieces[|pieces| - 1] + [c]]
  }

  /** The pieces of `s` between occurrences of `sep`, read from the left. */
  function Pieces(s: string, sep: char): (r: seq<string>)
    ensures |r| >= 1
  {
    if s == [] then [""] else Extend(Pieces(s[..|s| - 1], sep), s[|s| - 1], sep)
  }

  /** The pieces glued back together with `sep` between neighbours. */
  function Join(parts: seq<string>, sep: char): string
    requires |parts| >= 1
  {
    if |parts| == 1 then parts[0]
    else Join(parts[..|parts| - 1], sep) + [sep] + parts[|parts| - 1]
  }

  /**
   * The character loop of api.go:169-182: `parts` collects finished
   * pieces and `current` accumulates the piece being read.
   */
  method Split(s: string, sep: char) returns (parts: seq<string>)
    ensures parts == Pieces(s, sep)
  {
    parts := [];
    var current := "";
    for i := 0 to |s|
      invariant parts + [current] == Pieces(s[..i], sep)
    {
      assert s[..i + 1][..i] == s[..i];
      if s[i] == sep {
        parts := parts + [current];
        current := "";
      } else {
        current := current + [s[i]];
      }
    }
    assert s[..|s|] == s;
    parts := parts + [current];
  }

  /** One more piece than there are separators. */
  lemma {:induction false} PiecesCount(s: string, sep: char)
    ensures |Pieces(s, sep)| == Count(s, sep) + 1
  {
    if s != [] {
      PiecesCount(s[..|s| - 1], sep);
    }
  }

  /** No piece contains the separator. */
  lemma {:induction false} PiecesAvoidSep(s: string, sep: char)
    ensures forall i :: 0 <= i < |Pieces(s, sep)| ==> sep !in Pieces(s, sep)[i]
  {
    if s != [] {
      PiecesAvoidSep(s[..|s| - 1], sep);
    }
  }

  /** Splitting then joining gives back the original string. */
  lemma {:induction false} JoinPieces(s: string, sep: char)
    ensures Join(Pieces(s, sep), sep) == s
  {
    if s != [] {
      var t := s[..|s| - 1];
      var init := Pieces(t, sep);
      JoinPieces(t, sep);
      assert s == t + [s[|s| - 1]];
      if s[|s| - 1] == sep {
        assert (init + [""])[..|init|] == init;
      } else {
        var last := init[|init| - 1];
        var r := init[..|init| - 1] + [last + [s[|s| - 1]]];
        if |init| == 1 {
          assert Join(init, sep) == last;
        } else {
          assert r[..|r| - 1] == init[..|init| - 1];
          assert Join(init, sep) == Join(init[..|init| - 1], sep) + [sep] + last;
        }
      }
    }
  }

  /** A string without the separator is a single piece. */
  lemma {:induction false} PiecesOfPlain(a: string, sep: char)
    requires sep !in a
    ensures Pieces(a, sep) == [a]
  {
    if a != [] {
      assert a[..|a| - 1] + [a[|a| - 1]] == a;
      PiecesOfPlain(a[..|a| - 1], sep);
    }
  }

  /** Reading a character only touches the last piece. */
  lemma ExtendAppend(x: seq<string>, y: seq<string>, c: char, sep: char)
    requires |y| >= 1
    ensures Extend(x + y, c, sep) == x + Extend(y, c, sep)
  {
    var xy := x + y;
    assert xy[..|xy| - 1] == x + y[..|y| - 1];
    assert xy[|xy| - 1] == y[|y| - 1];
  }

  /** Reading one more character extends the pieces read so far. */
  lemma PiecesSnoc(t: string, c: char, sep: char)
    ensures Pieces(t + [c], sep) == Extend(Pieces(t, sep), c, sep)
  {
    var u := t + [c];
    assert u[..|u| - 1] == t && u[|u| - 1] == c;
  }

  /** A separator between `a` and `b` splits their pieces apart. */
  lemma {:induction false} PiecesAround(a: string, b: string, sep: char)
    ensures Pieces(a + [sep] + b, sep) == Pieces(a, sep) + Pieces(b, sep)
  {
    if b == [] {
      assert a + [sep] + b == a + [sep];
      PiecesSnoc(a, sep, sep);
    } else {
      var b' := b[..|b| - 1];
      var c := b[|b| - 1];
      var t := a + [sep] + b';
      assert b == b' + [c];
      assert a + [sep] + b == t + [c];
      PiecesSnoc(t, c, sep);
      PiecesSnoc(b', c, sep);
      PiecesAround(a, b', sep);
      ExtendAppend(Pieces(a, sep), Pieces(b', sep), c, sep);
    }
  }

  /** Joining separator-free pieces and splitting again gives the pieces back. */
  lemma {:induction false} PiecesJoin(parts: seq<string>, sep: char)
    requires |parts| >= 1
    requires forall i :: 0 <= i < |parts| ==> sep !in parts[i]
    ensures Pieces(Join(parts, sep), sep) == parts
  {
    var last := parts[|parts| - 1];
    PiecesOfPlain(last, sep);
    if |parts| > 1 {
      var init := parts[..|parts| - 1];
      PiecesJoin(init, sep);
      PiecesAround(Join(init, sep), last, sep);
      assert init + [last] == parts;
    }
  }

  // ---------------------------------------------------------------------
  // Digits
  // ---------------------------------------------------------------------

  predicate IsDigit(c: char)
  {
    '0' <= c <= '9'
  }

  predicate AllDigits(s: string)
  {
    forall i :: 0 <= i < |s| ==> IsDigit(s[i])
  }

  function DigitValue(c: char): nat
    requires IsDigit(c)
  {
    c as int - '0' as int
  }

  function DigitChar(d: nat): (c: char)
    requires d < 10
    ensures IsDigit(c) && DigitValue(c) == d
  {
    (d + '0' as int) as char
  }

  /** The number a string of decimal digits denotes (0 for the empty string). */
  function DigitsValue(s: string): nat
    requires AllDigits(s)
  {
    if s == [] then 0 else DigitsValue(s[..|s| - 1]) * 10 + DigitValue(s[|s| - 1])
  }

  function Pow10(n: nat): (r: nat)
    ensures r >= 1
  {
    if n == 0 then 1 else 10 * Pow10(n - 1)
  }

  /** Decimal digits of `n`, most significant first, without leading zeros. */
  function NatToString(n: nat): (r: string)
    ensures |r| >= 1 && AllDigits(r)
  {
    if n < 10 then [DigitChar(n)] else NatToString(n / 10) + [DigitChar(n % 10)]
  }

  /** The arithmetic step of DigitsValueAppend, on plain numbers. */
  lemma ShiftDigit(x: nat, p: nat, y: nat, d: nat, v: nat, q: nat, w: nat)
    requires v == (x * p + y) * 10 + d && q == p * 10 && w == y * 10 + d
    ensures v == x * q + w
  {
  }

  lemma AllDigitsConcat(a: string, b: string)
    requires AllDigits(a) && AllDigits(b)
    ensures AllDigits(a + b)
  {
    forall i | 0 <= i < |a + b| ensures IsDigit((a + b)[i]) {
      if i < |a| { assert (a + b)[i] == a[i]; } else { assert (a + b)[i] == b[i - |a|]; }
    }
  }

  lemma {:induction false} DigitsValueAppend(a: string, b: string)
    requires AllDigits(a) && AllDigits(b)
    ensures AllDigits(a + b)
    ensures DigitsValue(a + b) == DigitsValue(a) * Pow10(|b|) + DigitsValue(b)
  {
    AllDigitsConcat(a, b);
    if b == [] {
      assert a + b == a;
    } else {
      var b' := b[..|b| - 1];
      var c := b[|b| - 1];
      var ab := a + b;
      assert ab[..|ab| - 1] == a + b' && ab[|ab| - 1] == c;
      DigitsValueAppend(a, b');
      assert b[..|b| - 1] == b';
      ShiftDigit(DigitsValue(a), Pow10(|b'|), DigitsValue(b'), DigitValue(c), DigitsValue(ab), Pow10(|b|), DigitsValue(b));
    }
  }

  lemma {:induction false} NatToStringValue(n: nat)
    ensures DigitsValue(NatToString(n)) == n
  {
    var r := NatToString(n);
    if n >= 10 {
      NatToStringValue(n / 10);
      assert r[..|r| - 1] == NatToString(n / 10);
    }
  }

  // ---------------------------------------------------------------------
  // parseAmount (api.go:154-156)
  // ---------------------------------------------------------------------

  /** The exact number units / 10^scale; `scale` counts the fractional digits written. */
  datatype Decimal = Decimal(units: int, scale: nat)

  /** Index of the first `c` in `s`, or |s| when there is none. */
  function IndexOf(s: string, c: char): (i: nat)
    ensures i <= |s|
    ensures forall j :: 0 <= j < i ==> s[j] != c
    ensures i < |s| ==> s[i] == c
  {
    if s == [] then 0 else if s[0] == c then 0 else 1 + IndexOf(s[1..], c)
  }

  /** Digits, then optionally '.' and more digits, with at least one digit in all. */
  function ParseUnsigned(body: string): Option<Decimal>
  {
    var dot := IndexOf(body, '.');
    var whole := body[..dot];
    var frac := if dot < |body| then body[dot + 1..] else [];
    if AllDigits(whole) && AllDigits(frac) && |whole| + |frac| > 0
    then Some(Decimal(DigitsValue(whole + frac), |frac|))
    else None
  }

  /**
   * The decimal reading of `s`: an optional '+' or '-', then digits with an
   * optional '.' fraction. A leading '-' is accepted and negates the value.
   */
  function ParseAmount(s: string): (r: Option<Decimal>)
    ensures r.Some? ==> s != []
    ensures r.Some? && r.value.units < 0 ==> s[0] == '-'
  {
    if |s| > 0 && (s[0] == '+' || s[0] == '-') then
      match ParseUnsigned(s[1..])
      case None => None
      case Some(d) => Some(if s[0] == '-' then Decimal(-d.units, d.scale) else d)
    else
      ParseUnsigned(s)
  }

  // ---------------------------------------------------------------------
  // isValidAmount (api.go:158-167)
  // ---------------------------------------------------------------------

  /** Parses, and does not have exactly two '.'-pieces with more than two characters after the '.'. */
  function IsValidAmount(s: string): bool
  {
    if ParseAmount(s).None? then false
    else
      var parts := Pieces(s, '.');
      !(|parts| == 2 && |parts[1]| > 2)
  }

  /** Text that does not parse as a number is never a valid amount. */
  lemma UnparsableInvalid(s: string)
    requires ParseAmount(s).None?
    ensures !IsValidAmount(s)
  {
  }

  /** Exactly one '.', followed by more than two characters: invalid. */
  lemma {:induction false} TooManyDecimalsInvalid(a: string, b: string)
    requires '.' !in a && '.' !in b && |b| > 2
    ensures !IsValidAmount(a + "." + b)
  {
    PiecesAround(a, b, '.');
    PiecesOfPlain(a, '.');
    PiecesOfPlain(b, '.');
  }

  /** What a successful `ParseUnsigned` says about where the point is. */
  lemma UnsignedShape(body: string)
    requires ParseUnsigned(body).Some?
    ensures var dot := IndexOf(body, '.');
      if dot < |body|
      then AllDigits(body[dot + 1..]) && ParseUnsigned(body).value.scale == |body| - dot - 1
      else ParseUnsigned(body).value.scale == 0
  {
  }

  /** Up to the first '.' of the body, `s` holds no '.'. */
  lemma HeadHasNoPoint(s: string, k: nat)
    requires k <= 1 && k <= |s| && (k == 1 ==> s[0] != '.')
    ensures '.' !in s[..k + IndexOf(s[k..], '.')]
  {
    var body := s[k..];
    var head := s[..k + IndexOf(body, '.')];
    forall j | 0 <= j < |head| ensures head[j] != '.' {
      if j >= k { assert head[j] == body[j - k]; }
    }
  }

  lemma DigitsHaveNoPoint(s: string)
    requires AllDigits(s)
    ensures '.' !in s
  {
    forall j | 0 <= j < |s| ensures s[j] != '.' {
      assert IsDigit(s[j]);
    }
  }

  /** Text whose only '.' is at `i` has two '.'-pieces: before and after it. */
  lemma CutAt(s: string, i: nat)
    requires i < |s|
    ensures s == s[..i] + [s[i]] + s[i + 1..]
  {
  }

  lemma PointedPieces(s: string, i: nat)
    requires i < |s| && s[i] == '.' && '.' !in s[..i] && '.' !in s[i + 1..]
    ensures Pieces(s, '.') == [s[..i], s[i + 1..]]
  {
    var head, frac := s[..i], s[i + 1..];
    CutAt(s, i);
    PiecesAround(head, frac, '.');
    PiecesOfPlain(head, '.');
    PiecesOfPlain(frac, '.');
  }

  /**
   * The '.'-pieces of `s` when its body `s[k..]` (after an optional sign)
   * has only digits after its first '.'.
   */
  lemma BodyPieces(s: string, k: nat)
    requires k <= 1 && k <= |s| && (k == 1 ==> s[0] != '.')
    requires var body := s[k..]; var dot := IndexOf(body, '.');
      dot < |body| ==> AllDigits(body[dot + 1..])
    ensures var body := s[k..]; var dot := IndexOf(body, '.');
      if dot < |body| then Pieces(s, '.') == [s[..k + dot], body[dot + 1..]]
      else Pieces(s, '.') == [s]
  {
    var body := s[k..];
    var dot := IndexOf(body, '.');
    var head := s[..k + dot];
    HeadHasNoPoint(s, k);
    if dot < |body| {
      var frac := body[dot + 1..];
      DigitsHaveNoPoint(frac);
      assert s[k + dot + 1..] == frac && s[k + dot] == '.';
      PointedPieces(s, k + dot);
    } else {
      assert s == head;
      PiecesOfPlain(head, '.');
    }
  }

  /** For text that parses, the '.'-pieces are the part before the point and the fraction. */
  lemma ParsedPieces(s: string)
    requires ParseAmount(s).Some?
    ensures var parts := Pieces(s, '.');
      (|parts| == 1 && ParseAmount(s).value.scale == 0) ||
      (|parts| == 2 && |parts[1]| == ParseAmount(s).value.scale)
  {
    var k := if |s| > 0 && (s[0] == '+' || s[0] == '-') then 1 else 0;
    assert s[0..] == s;
    UnsignedShape(s[k..]);
    BodyPieces(s, k);
  }

  /** A valid amount is exactly a parseable one with at most two fractional digits. */
  lemma ValidAmountIff(s: string)
    ensures IsValidAmount(s) <==> ParseAmount(s).Some? && ParseAmount(s).value.scale <= 2
  {
    if ParseAmount(s).Some? {
      ParsedPieces(s);
    }
  }

  /** `cents` hundredths and the decimal `d` are the same number. */
  predicate Denotes(cents: int, d: Decimal)
  {
    cents * Pow10(d.scale) == d.units * 100
  }

  /** The value of a decimal with at most two fractional digits, in cents. */
  function Cents(d: Decimal): (c: int)
    requires d.scale <= 2
    ensures Denotes(c, d)
  {
    assert Pow10(2) == 100 by { assert Pow10(1) == 10; }
    if d.scale == 0 then d.units * 100
    else if d.scale == 1 then d.units * 10
    else d.units
  }

  /** The cents value of a valid amount text. */
  function AmountCents(s: string): int
    requires IsValidAmount(s)
  {
    ValidAmountIff(s);
    Cents(ParseAmount(s).value)
  }

  /** The cents of a valid amount are the number its text denotes. */
  lemma AmountCentsValue(s: string)
    requires IsValidAmount(s)
    ensures ParseAmount(s).Some? && ParseAmount(s).value.scale <= 2
    ensures Denotes(AmountCents(s), ParseAmount(s).value)
  {
    ValidAmountIff(s);
  }

  // ---------------------------------------------------------------------
  // formatAmount (api.go:184-186)
  // ---------------------------------------------------------------------

  /** Renders cents as "D.DD" (with a leading '-' when negative), like "%.2f". */
  function FormatAmount(cents: int): (r: string)
    ensures |r| >= 4
    ensures r[|r| - 3] == '.' && IsDigit(r[|r| - 2]) && IsDigit(r[|r| - 1])
    ensures forall i :: 0 <= i < |r| - 3 ==> r[i] != '.'
    ensures r[0] == '-' <==> cents < 0
  {
    var m := if cents < 0 then -cents else cents;
    var t := m % 100;
    var digits := NatToString(m / 100) + "." + [DigitChar(t / 10), DigitChar(t % 10)];
    assert digits[0] == NatToString(m / 100)[0];
    if cents < 0 then "-" + digits else digits
  }

  /** Reading "whole.frac" for digit strings `whole` and `frac`. */
  lemma ParseUnsignedPointed(whole: string, frac: string)
    requires AllDigits(whole) && AllDigits(frac) && |whole| >= 1
    ensures ParseUnsigned(whole + "." + frac) == Some(Decimal(DigitsValue(whole + frac), |frac|))
  {
    var body := whole + "." + frac;
    assert IndexOf(body, '.') == |whole| by {
      assert body[|whole|] == '.';
      forall j | 0 <= j < |whole| ensures body[j] != '.' {
        assert body[j] == whole[j] && IsDigit(whole[j]);
      }
    }
    assert body[..|whole|] == whole;
    assert body[|whole| + 1..] == frac;
  }

  /** The value of a two-digit string written by `FormatAmount`. */
  lemma TwoDigitsValue(t: nat)
    requires t < 100
    ensures DigitsValue([DigitChar(t / 10), DigitChar(t % 10)]) == t
  {
    var d1, d2 := DigitChar(t / 10), DigitChar(t % 10);
    var frac := [d1, d2];
    assert frac[..1] == [d1] && [d1][..0] == [];
    assert DigitsValue([d1]) == t / 10;
  }

  /** Formatting then parsing gives back the same number of cents, at scale two. */
  lemma {:induction false} FormatThenParse(cents: int)
    ensures ParseAmount(FormatAmount(cents)) == Some(Decimal(cents, 2))
  {
    var m := if cents < 0 then -cents else cents;
    var whole := NatToString(m / 100);
    var frac := [DigitChar(m % 100 / 10), DigitChar(m % 100 % 10)];
    var body := whole + "." + frac;
    ParseUnsignedPointed(whole, frac);
    DigitsValueAppend(whole, frac);
    NatToStringValue(m / 100);
    TwoDigitsValue(m % 100);
    assert Pow10(|frac|) == 100 by { assert Pow10(1) == 10; }
    assert DigitsValue(whole + frac) == m by {
      var q, r := m / 100, m % 100;
      assert DigitsValue(whole + frac) == q * 100 + r;
    }
    assert ParseUnsigned(body) == Some(Decimal(m, 2));
    if cents < 0 {
      assert FormatAmount(cents) == "-" + body;
      assert ("-" + body)[1..] == body;
    } else {
      assert FormatAmount(cents) == body;
      assert body[0] == whole[0];
    }
  }

  /** Every formatted amount is a valid amount. */
  lemma FormatIsValid(cents: int)
    ensures IsValidAmount(FormatAmount(cents))
    ensures AmountCents(FormatAmount(cents)) == cents
  {
    FormatThenParse(cents);
    ValidAmountIff(FormatAmount(cents));
  }

  /**
   * Parse followed by format yields a canonical text: it denotes the same
   * cents, is itself valid, and formatting its value again reproduces it.
   */
  lemma CanonicalForm(s: string)
    requires IsValidAmount(s)
    ensures var t := FormatAmount(AmountCents(s));
      IsValidAmount(t) && AmountCents(t) == AmountCents(s) && FormatAmount(AmountCents(t)) == t
  {
    FormatIsValid(AmountCents(s));
  }

  /** 2575 cents render as "25.75" (api_test.go:246-267). */
  lemma FormatExample()
    ensures FormatAmount(2575) == "25.75"
    ensures FormatAmount(500) == "5.00"
  {
    assert NatToString(25) == "25" by {
      assert NatToString(2) == "2";
    }
    assert NatToString(5) == "5";
  }

  /** "10.123" parses but is rejected for its three fractional digits (api_test.go:219-244). */
  lemma ThreeDecimalsExample()
    ensures ParseAmount("10.123").Some?
    ensures !IsValidAmount("10.123")
  {
    assert "10.123" == "10" + "." + "123";
    assert ParseAmount("10.123").Some? by {
      ParseUnsignedPointed("10", "123");
    }
    TooManyDecimalsInvalid("10", "123");
  }
}
