/**
 Printing a planck amount as a token amount, and reading it back. The printer works on digit
 strings (pad to the number of decimals, then trim zeros); the parser is the plain positional
 meaning of a decimal number and shares nothing with the printer but the digit alphabet.
 */
module Planck {
  import opened Common

  type Digit = d: int | 0 <= d <= 9

  function DigitChar(d: Digit): char {
    '0' + d as char
  }

  predicate IsDigits(s: string) {
    forall i :: 0 <= i < |s| ==> '0' <= s[i] <= '9'
  }

  function Pow10(k: nat): (r: nat)
    ensures r > 0
  {
    if k == 0 then 1 else 10 * Pow10(k - 1)
  }

  /** Decimal digits of `n`, as the standard integer formatter writes them. */
  function Digits(n: nat): (s: string)
    ensures s != [] && IsDigits(s)
  {
    if n < 10 then [DigitChar(n)] else Digits(n / 10) + [DigitChar(n % 10)]
  }

  function Zeros(k: nat): string {
    seq(k, _ => '0')
  }

  /** Left padding with zeros, as in the `{:0>width$}` format. */
  function PadLeft(s: string, width: nat): string {
    if |s| >= width then s else Zeros(width - |s|) + s
  }

  function TrimEndZeros(s: string): (r: string)
    ensures |r| <= |s| && r == s[..|r|]
    ensures s == r + Zeros(|s| - |r|)
    ensures r != [] ==> r[|r| - 1] != '0'
  {
    if s != [] && s[|s| - 1] == '0' then
      var r := TrimEndZeros(s[..|s| - 1]);
      assert s == s[..|s| - 1] + ['0'];
      assert Zeros(|s| - |r|) == Zeros(|s| - 1 - |r|) + ['0'];
      r
    else s
  }

  function Fraction(remainder: nat, decimals: nat): string {
    TrimEndZeros(PadLeft(Digits(remainder), decimals))
  }

  function Render(whole: nat, remainder: nat, decimals: nat): string {
    if remainder == 0 then Digits(whole) else
      var trimmed := Fraction(remainder, decimals);
      if trimmed == [] then Digits(whole) else Digits(whole) + "." + trimmed
  }

  /** Quotient and remainder of the truncating u128 division. */
  function DivRem(n: nat, d: nat): (r: (nat, nat))
    requires d > 0
    ensures n == Mul(r.0, d) + r.1 && r.1 < d
  {
    MulIsProduct(n / d, d);
    (n / d, n % d)
  }

  /** The amount without its symbol. */
  function Amount(planck: nat, decimals: nat): string {
    var (whole, remainder) := DivRem(planck, Pow10(decimals));
    Render(whole, remainder, decimals)
  }

  /** `None` stands for the overflow of 10^decimals in u128 arithmetic. */
  function PlanckToToken(planck: nat, decimals: nat, symbol: string): Option<string>
    requires planck <= U128_MAX && decimals <= 255
  {
    if Pow10(decimals) > U128_MAX then None else Some(Amount(planck, decimals) + " " + symbol)
  }

  // ---- reading an amount back ----

  /** The number a digit string denotes. */
  function Value(s: string): nat
    requires IsDigits(s)
  {
    if s == [] then 0 else 10 * Value(s[..|s| - 1]) + (s[|s| - 1] - '0') as nat
  }

  /** Index of the first `c`, or the length. */
  function IndexOf(s: string, c: char): (i: nat)
    ensures i <= |s| && c !in s[..i] && (i < |s| ==> s[i] == c)
  {
    if s == [] || s[0] == c then 0 else
      var i := 1 + IndexOf(s[1..], c);
      assert s[..i] == [s[0]] + s[1..][..i - 1];
      i
  }

  function WholePart(s: string): string {
    s[..IndexOf(s, '.')]
  }

  function FractionPart(s: string): string {
    var dot := IndexOf(s, '.');
    if dot < |s| then s[dot + 1..] else []
  }

  function ParseAmount(s: string, decimals: nat): Option<nat> {
    var whole, fraction := WholePart(s), FractionPart(s);
    if whole == [] || !IsDigits(whole) || !IsDigits(fraction) || |fraction| > decimals
       || (IndexOf(s, '.') < |s| && fraction == [])
    then None
    else Some(Denotation(Value(whole), Value(fraction), decimals, |fraction|))
  }

  predicate Parses(s: string, decimals: nat, n: nat) {
    ParseAmount(s, decimals).Some? && ParseAmount(s, decimals).value == n
  }

  /** The number with the given whole part and `places` fractional digits, in units of 10^-decimals. */
  function Denotation(whole: nat, fraction: nat, decimals: nat, places: nat): (n: nat)
    requires places <= decimals
  {
    Mul(whole, Pow10(decimals)) + Mul(fraction, Pow10(decimals - places))
  }

  /** The product, by repeated addition: proofs about it stay linear. */
  function Mul(a: nat, b: nat): nat {
    if a == 0 then 0 else b + Mul(a - 1, b)
  }

  lemma {:induction false} MulIsProduct(a: nat, b: nat)
    ensures Mul(a, b) == a * b
  {
    if a > 0 {
      MulIsProduct(a - 1, b);
      assert a * b == (a - 1) * b + b;
    }
  }

  lemma {:induction false} MulByTen(a: nat, b: nat)
    ensures Mul(a, 10 * b) == 10 * Mul(a, b) == Mul(10 * a, b)
  {
    if a > 0 {
      MulByTen(a - 1, b);
      MulAdd(10, 10 * (a - 1), b);
      MulIsProduct(10, b);
    }
  }

  lemma {:induction false} MulAdd(a: nat, b: nat, c: nat)
    ensures Mul(a + b, c) == Mul(a, c) + Mul(b, c)
  {
    if a > 0 {
      MulAdd(a - 1, b, c);
    }
  }

  function Parse(s: string, decimals: nat): Option<(nat, string)> {
    var space := IndexOf(s, ' ');
    if space == |s| then None else
      match ParseAmount(s[..space], decimals)
      case None => None
      case Some(n) => Some((n, s[space + 1..]))
  }

  /** No superfluous zeros: neither leading in the whole part nor trailing in the fraction. */
  predicate Canonical(s: string) {
    var dot := IndexOf(s, '.');
    && (dot > 1 ==> s[0] != '0')
    && (dot < |s| ==> s[|s| - 1] != '0')
  }

  // ---- digit-string arithmetic ----

  lemma {:induction false} Pow10Add(a: nat, b: nat)
    ensures Pow10(a + b) == Mul(Pow10(a), Pow10(b))
  {
    if a == 0 {
      assert Mul(1, Pow10(b)) == Pow10(b) + Mul(0, Pow10(b));
    } else {
      Pow10Add(a - 1, b);
      MulByTen(Pow10(a - 1), Pow10(b));
    }
  }

  lemma {:induction false} ValueOfDigits(n: nat)
    ensures Value(Digits(n)) == n
    ensures |Digits(n)| > 1 ==> Digits(n)[0] != '0'
  {
    if n >= 10 {
      ValueOfDigits(n / 10);
      assert Digits(n)[..|Digits(n)| - 1] == Digits(n / 10);
      if |Digits(n / 10)| == 1 {
        assert n / 10 < 10;
      }
    }
  }

  lemma {:induction false} DigitsFit(n: nat, k: nat)
    requires k > 0 && n < Pow10(k)
    ensures |Digits(n)| <= k
  {
    if n >= 10 {
      assert k > 1;
      DigitsFit(n / 10, k - 1);
    }
  }

  lemma {:induction false} ValueAppend(a: string, b: string)
    requires IsDigits(a) && IsDigits(b)
    ensures IsDigits(a + b)
    ensures Value(a + b) == Mul(Value(a), Pow10(|b|)) + Value(b)
  {
    if b == [] {
      assert a + b == a;
      MulIsProduct(Value(a), 1);
    } else {
      var c := b[..|b| - 1];
      ValueAppend(a, c);
      assert (a + b)[..|a + b| - 1] == a + c;
      MulByTen(Value(a), Pow10(|c|));
    }
  }

  lemma {:induction false} ValueOfZeros(k: nat)
    ensures IsDigits(Zeros(k)) && Value(Zeros(k)) == 0
  {
    if k > 0 {
      ValueOfZeros(k - 1);
      assert Zeros(k)[..k - 1] == Zeros(k - 1);
    }
  }

  lemma {:induction false} ValueBound(s: string)
    requires IsDigits(s)
    ensures Value(s) < Pow10(|s|)
  {
    if s != [] {
      ValueBound(s[..|s| - 1]);
    }
  }

  /** Equal length and equal value determine a digit string. */
  lemma {:induction false} ValueInjective(a: string, b: string)
    requires IsDigits(a) && IsDigits(b) && |a| == |b| && Value(a) == Value(b)
    ensures a == b
  {
    if a != [] {
      assert IsDigits(a[..|a| - 1]) && IsDigits(b[..|b| - 1]);
      ValueInjective(a[..|a| - 1], b[..|b| - 1]);
      assert a == a[..|a| - 1] + [a[|a| - 1]];
      assert b == b[..|b| - 1] + [b[|b| - 1]];
    }
  }

  lemma {:induction false} DigitsOfValue(s: string)
    requires IsDigits(s) && s != [] && (|s| > 1 ==> s[0] != '0')
    ensures Digits(Value(s)) == s
  {
    var init := s[..|s| - 1];
    assert s == init + [s[|s| - 1]];
    if init == [] {
      assert Value(init) == 0;
    } else {
      DigitsOfValue(init);
      NonZeroLead(init);
    }
  }

  lemma {:induction false} NonZeroLead(s: string)
    requires IsDigits(s) && s != [] && s[0] != '0'
    ensures Value(s) > 0
  {
    if |s| > 1 {
      NonZeroLead(s[..|s| - 1]);
    } else {
      assert s[..0] == [];
    }
  }

  // ---- the printer ----

  /** What the printer writes after the point for a nonzero remainder. */
  lemma {:induction false} FractionOf(remainder: nat, decimals: nat)
    requires 0 < remainder < Pow10(decimals)
    ensures var f := Fraction(remainder, decimals);
            && f != [] && IsDigits(f) && |f| <= decimals && f[|f| - 1] != '0'
            && Mul(Value(f), Pow10(decimals - |f|)) == remainder
  {
    var digits := Digits(remainder);
    ValueOfDigits(remainder);
    DigitsFit(remainder, decimals);
    var padded := PadLeft(digits, decimals);
    PaddedValue(digits, decimals);
    var f := TrimEndZeros(padded);
    TrimmedValue(padded, f);
  }

  lemma {:induction false} PaddedValue(s: string, width: nat)
    requires IsDigits(s) && |s| <= width
    ensures var p := PadLeft(s, width); |p| == width && IsDigits(p) && Value(p) == Value(s)
  {
    ValueOfZeros(width - |s|);
    ValueAppend(Zeros(width - |s|), s);
    assert Mul(0, Pow10(|s|)) == 0;
    assert PadLeft(s, width) == Zeros(width - |s|) + s;
  }

  lemma {:induction false} TrimmedValue(s: string, t: string)
    requires IsDigits(s) && |t| <= |s| && s == t + Zeros(|s| - |t|)
    ensures IsDigits(t) && Value(s) == Mul(Value(t), Pow10(|s| - |t|))
  {
    assert IsDigits(t) by {
      assert forall i :: 0 <= i < |t| ==> t[i] == s[i];
    }
    ValueOfZeros(|s| - |t|);
    ValueAppend(t, Zeros(|s| - |t|));
  }

  lemma {:induction false} IndexOfFirst(s: string, c: char, k: nat)
    requires k <= |s| && c !in s[..k] && (k < |s| ==> s[k] == c)
    ensures IndexOf(s, c) == k
  {
    if k > 0 {
      assert s[..k][0] == s[0];
      assert s[1..][..k - 1] == s[..k][1..];
      IndexOfFirst(s[1..], c, k - 1);
    }
  }

  lemma {:induction false} PlainShape(w: string, decimals: nat)
    requires w != [] && IsDigits(w)
    ensures IndexOf(w, '.') == |w| && ' ' !in w
    ensures Parses(w, decimals, Mul(Value(w), Pow10(decimals)))
  {
    assert w[..|w|] == w;
    IndexOfFirst(w, '.', |w|);
    assert Mul(0, Pow10(decimals)) == 0;
  }

  lemma {:induction false} PointShape(w: string, f: string, decimals: nat)
    requires w != [] && f != [] && IsDigits(w) && IsDigits(f) && |f| <= decimals
    ensures var s := w + "." + f;
            && IndexOf(s, '.') == |w| && ' ' !in s
            && Parses(s, decimals, Denotation(Value(w), Value(f), decimals, |f|))
  {
    var s := w + "." + f;
    assert s[..|w|] == w && s[|w| + 1..] == f;
    IndexOfFirst(s, '.', |w|);
  }

  /** Shape and meaning of every rendered amount. */
  lemma {:induction false} RenderShape(whole: nat, remainder: nat, decimals: nat)
    requires remainder < Pow10(decimals)
    ensures Parses(Render(whole, remainder, decimals), decimals, Mul(whole, Pow10(decimals)) + remainder)
    ensures Canonical(Render(whole, remainder, decimals)) && ' ' !in Render(whole, remainder, decimals)
    ensures |Render(whole, remainder, decimals)| - IndexOf(Render(whole, remainder, decimals), '.') <= decimals + 1
  {
    var w := Digits(whole);
    ValueOfDigits(whole);
    if remainder == 0 {
      PlainShape(w, decimals);
      assert Render(whole, remainder, decimals) == w;
    } else {
      FractionOf(remainder, decimals);
      var f := Fraction(remainder, decimals);
      PointShape(w, f, decimals);
      assert Render(whole, remainder, decimals) == w + "." + f;
      assert Denotation(Value(w), Value(f), decimals, |f|) == Mul(whole, Pow10(decimals)) + remainder;
    }
  }

  /** The branch for an all-zero fraction is never taken. */
  lemma {:induction false} EmptyFractionIsUnreachable(planck: nat, decimals: nat)
    ensures var remainder := DivRem(planck, Pow10(decimals)).1;
            remainder != 0 ==> Fraction(remainder, decimals) != []
  {
    var remainder := DivRem(planck, Pow10(decimals)).1;
    if remainder != 0 {
      FractionOf(remainder, decimals);
    }
  }

  /** 10^decimals fits u128 exactly up to 38 decimals. */
  lemma {:induction false} DivisorFits(decimals: nat)
    ensures Pow10(decimals) <= U128_MAX <==> decimals <= 38
  {
    LargePowers();
    if decimals <= 38 {
      Pow10Monotone(decimals, 38);
    } else {
      Pow10Monotone(39, decimals);
    }
  }

  lemma {:induction false} LargePowers()
    ensures Pow10(38) == 100_000_000_000_000_000_000_000_000_000_000_000_000
    ensures Pow10(39) == 1_000_000_000_000_000_000_000_000_000_000_000_000_000
  {
    assert Pow10(13) == 10_000_000_000_000;
    assert Pow10(26) == 10_000_000_000_000 * Pow10(13);
    assert Pow10(39) == 10_000_000_000_000 * Pow10(26);
  }

  lemma {:induction false} Pow10Monotone(a: nat, b: nat)
    requires a <= b
    ensures Pow10(a) <= Pow10(b)
    decreases b
  {
    if a < b {
      Pow10Monotone(a, b - 1);
    }
  }

  lemma {:induction false} ParseWithSymbol(s: string, decimals: nat, symbol: string)
    requires ' ' !in s && ParseAmount(s, decimals).Some?
    ensures Parse(s + " " + symbol, decimals) == Some((ParseAmount(s, decimals).value, symbol))
  {
    var t := s + " " + symbol;
    assert t[..|s|] == s && t[|s| + 1..] == symbol;
    IndexOfFirst(t, ' ', |s|);
  }

  /** Every amount within u128 prints for up to 38 decimals, and reads back exactly. */
  lemma {:induction false} PrintThenParse(planck: nat, decimals: nat, symbol: string)
    requires planck <= U128_MAX && decimals <= 255
    ensures PlanckToToken(planck, decimals, symbol).Some? <==> decimals <= 38
    ensures decimals <= 38
            ==> Parse(PlanckToToken(planck, decimals, symbol).value, decimals) == Some((planck, symbol))
  {
    DivisorFits(decimals);
    if decimals <= 38 {
      var (whole, remainder) := DivRem(planck, Pow10(decimals));
      RenderShape(whole, remainder, decimals);
      assert Parses(Amount(planck, decimals), decimals, planck);
      ParseWithSymbol(Amount(planck, decimals), decimals, symbol);
    }
  }

  /** The fraction is never longer than the decimals, and no zero is superfluous. */
  lemma {:induction false} PrintedIsCanonical(planck: nat, decimals: nat)
    ensures Canonical(Amount(planck, decimals))
    ensures |Amount(planck, decimals)| - IndexOf(Amount(planck, decimals), '.') <= decimals + 1
  {
    var (whole, remainder) := DivRem(planck, Pow10(decimals));
    RenderShape(whole, remainder, decimals);
  }

  lemma {:induction false} ParsedParts(s: string, decimals: nat)
    requires ParseAmount(s, decimals).Some?
    ensures var whole, fraction := WholePart(s), FractionPart(s);
            && IsDigits(whole) && IsDigits(fraction) && |fraction| <= decimals
            && DivRem(ParseAmount(s, decimals).value, Pow10(decimals))
               == (Value(whole), Mul(Value(fraction), Pow10(decimals - |fraction|)))
  {
    var whole, fraction := WholePart(s), FractionPart(s);
    RestFits(fraction, decimals);
    DivRemUnique(ParseAmount(s, decimals).value, Value(whole), Pow10(decimals),
                 Mul(Value(fraction), Pow10(decimals - |fraction|)));
  }

  /** A text in two parts, neither of them with a superfluous zero. */
  predicate TwoParts(s: string, whole: string, fraction: string) {
    && whole != [] && (|whole| > 1 ==> whole[0] != '0')
    && (fraction != [] ==> fraction[|fraction| - 1] != '0')
    && s == if fraction == [] then whole else whole + "." + fraction
  }

  lemma {:induction false} CanonicalParts(s: string)
    requires Canonical(s) && WholePart(s) != [] && (IndexOf(s, '.') < |s| ==> FractionPart(s) != [])
    ensures TwoParts(s, WholePart(s), FractionPart(s))
  {
  }

  lemma {:induction false} RenderOfParts(whole: string, fraction: string, decimals: nat)
    requires IsDigits(whole) && whole != [] && (|whole| > 1 ==> whole[0] != '0')
    requires IsDigits(fraction) && |fraction| <= decimals && (fraction != [] ==> fraction[|fraction| - 1] != '0')
    ensures Render(Value(whole), Mul(Value(fraction), Pow10(decimals - |fraction|)), decimals)
         == if fraction == [] then whole else whole + "." + fraction
  {
    DigitsOfValue(whole);
    if fraction == [] {
      RestFits(fraction, decimals);
    } else {
      FractionIsUnique(fraction, decimals);
    }
  }

  /** Conversely, the printer yields the only canonical text of a number. */
  lemma {:induction false} ParseThenPrint(s: string, decimals: nat)
    requires ParseAmount(s, decimals).Some? && Canonical(s)
    ensures Amount(ParseAmount(s, decimals).value, decimals) == s
  {
    ParsedParts(s, decimals);
    CanonicalParts(s);
    RenderOfParts(WholePart(s), FractionPart(s), decimals);
  }

  lemma {:induction false} FractionIsUnique(fraction: string, decimals: nat)
    requires IsDigits(fraction) && 0 < |fraction| <= decimals && fraction[|fraction| - 1] != '0'
    ensures var rest := Mul(Value(fraction), Pow10(decimals - |fraction|));
            rest > 0 && Fraction(rest, decimals) == fraction
  {
    var rest := Mul(Value(fraction), Pow10(decimals - |fraction|));
    RestFits(fraction, decimals);
    FractionOf(rest, decimals);
    TrimIsUnique(fraction, Fraction(rest, decimals), decimals);
  }

  lemma {:induction false} RestFits(fraction: string, decimals: nat)
    requires IsDigits(fraction) && |fraction| <= decimals
    ensures Mul(Value(fraction), Pow10(decimals - |fraction|)) < Pow10(decimals)
    ensures fraction == [] ==> Mul(Value(fraction), Pow10(decimals - |fraction|)) == 0
    ensures fraction != [] && fraction[|fraction| - 1] != '0'
            ==> Mul(Value(fraction), Pow10(decimals - |fraction|)) > 0
  {
    ValueBound(fraction);
    Pow10Add(|fraction|, decimals - |fraction|);
    MulBounds(Value(fraction), Pow10(|fraction|), Pow10(decimals - |fraction|));
  }

  lemma {:induction false} MulBounds(a: nat, b: nat, c: nat)
    requires a < b && c > 0
    ensures Mul(a, c) < Mul(b, c)
    ensures (a == 0 ==> Mul(a, c) == 0) && (a > 0 ==> Mul(a, c) > 0)
  {
    if a > 0 {
      MulBounds(a - 1, b - 1, c);
    }
  }

  lemma {:induction false} DivRemUnique(n: nat, q: nat, d: nat, r: nat)
    requires d > 0 && r < d && n == Mul(q, d) + r
    ensures DivRem(n, d) == (q, r)
  {
    var (q', r') := DivRem(n, d);
    if q < q' {
      MulDistance(q, q', d);
    } else if q' < q {
      MulDistance(q', q, d);
    }
  }

  lemma {:induction false} MulDistance(a: nat, b: nat, d: nat)
    requires a < b
    ensures Mul(a, d) + d <= Mul(b, d)
  {
    MulAdd(a, b - a, d);
    assert Mul(b - a, d) == d + Mul(b - a - 1, d);
  }

  lemma {:induction false} ZerosAppended(a: string, zeros: nat)
    requires IsDigits(a)
    ensures IsDigits(a + Zeros(zeros)) && Value(a + Zeros(zeros)) == Mul(Value(a), Pow10(zeros))
  {
    ValueOfZeros(zeros);
    ValueAppend(a, Zeros(zeros));
  }

  lemma {:induction false} TrimIsUnique(a: string, b: string, decimals: nat)
    requires IsDigits(a) && IsDigits(b) && 0 < |a| <= decimals && 0 < |b| <= decimals
    requires a[|a| - 1] != '0' && b[|b| - 1] != '0'
    requires Mul(Value(a), Pow10(decimals - |a|)) == Mul(Value(b), Pow10(decimals - |b|))
    ensures a == b
  {
    var x, y := a + Zeros(decimals - |a|), b + Zeros(decimals - |b|);
    ZerosAppended(a, decimals - |a|);
    ZerosAppended(b, decimals - |b|);
    ValueInjective(x, y);
    LastNonZero(a, decimals);
    LastNonZero(b, decimals);
    assert a == x[..|a|] && b == y[..|b|];
  }

  /** The length of a trimmed string can be read off its padded form. */
  lemma {:induction false} LastNonZero(a: string, decimals: nat)
    requires 0 < |a| <= decimals && a[|a| - 1] != '0'
    ensures (a + Zeros(decimals - |a|))[|a| - 1] != '0'
    ensures var x := a + Zeros(decimals - |a|); forall i :: |a| <= i < decimals ==> x[i] == '0'
  {
  }
}
