/**
 * `isFloat` (usdzconvert.py) asks whether Python's `float()` accepts a
 * token.  The model accepts the decimal literals `float()` accepts: an
 * optional sign, digits with an optional fraction (at least one digit
 * in all), and an optional exponent, read by a finite automaton.  The
 * literal read denotes an exact real.
 */
module Floats {
  import opened Outcomes

  predicate IsDigit(c: char) { '0' <= c <= '9' }

  predicate AllDigits(s: string) { forall i :: 0 <= i < |s| ==> IsDigit(s[i]) }

  function DigitsValue(s: string): nat
    requires AllDigits(s)
  {
    if s == [] then 0 else 10 * DigitsValue(s[..|s| - 1]) + (s[|s| - 1] as int - '0' as int)
  }

  function Pow10(n: nat): (r: nat)
    ensures r >= 1
  {
    if n == 0 then 1 else 10 * Pow10(n - 1)
  }

  function Scale(e: int): (r: real)
    ensures r > 0.0
  {
    if e >= 0 then Pow10(e) as real else 1.0 / (Pow10(-e) as real)
  }

  /** Where the automaton is: before anything, after the sign, in the digits
      before the point, just after a point that follows digits, just after a
      point with no digits before it, in the fraction, just after the `e`,
      after the exponent's sign, in the exponent's digits. */
  datatype Phase = Start | Signed | Whole | Point | BarePoint | Fraction | Exponent | ExponentSigned | ExponentDigits

  /** The phase after reading `c`, or None when `c` cannot come next. */
  function Next(phase: Phase, c: char): Option<Phase> {
    match phase
    case Start | Signed =>
      if phase == Start && (c == '+' || c == '-') then Some(Signed)
      else if IsDigit(c) then Some(Whole)
      else if c == '.' then Some(BarePoint)
      else None
    case Whole =>
      if IsDigit(c) then Some(Whole)
      else if c == '.' then Some(Point)
      else if c == 'e' || c == 'E' then Some(Exponent)
      else None
    case Point | Fraction =>
      if IsDigit(c) then Some(Fraction)
      else if c == 'e' || c == 'E' then Some(Exponent)
      else None
    case BarePoint =>
      if IsDigit(c) then Some(Fraction) else None
    case Exponent =>
      if c == '+' || c == '-' then Some(ExponentSigned)
      else if IsDigit(c) then Some(ExponentDigits)
      else None
    case ExponentSigned | ExponentDigits =>
      if IsDigit(c) then Some(ExponentDigits) else None
  }

  /** The phases in which a literal may end. */
  predicate Final(phase: Phase) {
    phase == Whole || phase == Point || phase == Fraction || phase == ExponentDigits
  }

  /** The parts of a literal: sign, digits before and after the point, and
      the exponent's sign and digits. */
  datatype Literal = Literal(negative: bool, whole: string, fraction: string,
                             exponentNegative: bool, exponentDigits: string)
  {
    predicate Valid() {
      AllDigits(whole) && AllDigits(fraction) && AllDigits(exponentDigits) && whole + fraction != []
    }

    function Exponent(): int
      requires Valid()
    {
      if exponentNegative then -(DigitsValue(exponentDigits) as int) else DigitsValue(exponentDigits) as int
    }
  }

  /** Records the character `c` that moved the automaton into `phase`. */
  function Record(l: Literal, phase: Phase, c: char): Literal {
    match phase
    case Signed => l.(negative := c == '-')
    case Whole => l.(whole := l.whole + [c])
    case Fraction => l.(fraction := l.fraction + [c])
    case ExponentSigned => l.(exponentNegative := c == '-')
    case ExponentDigits => l.(exponentDigits := l.exponentDigits + [c])
    case _ => l
  }

  /** What has been read is well formed for the phase reached: only digits
      collected, and some mantissa digit once past the mantissa's first digit. */
  predicate Consistent(phase: Phase, l: Literal) {
    && AllDigits(l.whole) && AllDigits(l.fraction) && AllDigits(l.exponentDigits)
    && (phase in {Whole, Point, Fraction, Exponent, ExponentSigned, ExponentDigits} ==> l.whole + l.fraction != [])
  }

  /** Reading one more character keeps what has been read well formed. */
  lemma RecordConsistent(phase: Phase, l: Literal, c: char)
    requires Consistent(phase, l) && Next(phase, c).Some?
    ensures Consistent(Next(phase, c).value, Record(l, Next(phase, c).value, c))
  {
    var p := Next(phase, c).value;
    var l' := Record(l, p, c);
    assert AllDigits(l'.whole) by {
      assert forall i :: 0 <= i < |l.whole| ==> l'.whole[i] == l.whole[i];
    }
    assert AllDigits(l'.fraction) by {
      assert forall i :: 0 <= i < |l.fraction| ==> l'.fraction[i] == l.fraction[i];
    }
    assert AllDigits(l'.exponentDigits) by {
      assert forall i :: 0 <= i < |l.exponentDigits| ==> l'.exponentDigits[i] == l.exponentDigits[i];
    }
  }

  /** Reads the rest `s` of a token from `phase`, with `l` read so far. */
  function ScanFrom(s: string, phase: Phase, l: Literal): (r: Option<Literal>)
    requires Consistent(phase, l)
    ensures r.Some? ==> r.value.Valid()
    decreases |s|
  {
    if s == [] then
      if Final(phase) then Some(l) else None
    else
      match Next(phase, s[0])
      case None => None
      case Some(p) =>
        var l' := Record(l, p, s[0]);
        RecordConsistent(phase, l, s[0]);
        ScanFrom(s[1..], p, l')
  }

  const Nothing := Literal(false, "", "", false, "")

  /** Reads `s` as a decimal literal, or None when `float()` would raise ValueError. */
  function Scan(s: string): (r: Option<Literal>)
    ensures r.Some? ==> r.value.Valid()
  {
    ScanFrom(s, Start, Nothing)
  }

  /** `isFloat(value)` */
  predicate IsFloat(s: string) {
    Scan(s).Some?
  }

  /** One character read, then the rest. */
  lemma ScanCons(c: char, s: string, phase: Phase, l: Literal)
    requires Consistent(phase, l) && Next(phase, c).Some?
    ensures Consistent(Next(phase, c).value, Record(l, Next(phase, c).value, c))
    ensures ScanFrom([c] + s, phase, l) == ScanFrom(s, Next(phase, c).value, Record(l, Next(phase, c).value, c))
  {
    RecordConsistent(phase, l, c);
    assert ([c] + s)[0] == c && ([c] + s)[1..] == s;
  }

  /** The digits `ds` added to the part of the literal the phase collects. */
  function Extend(l: Literal, phase: Phase, ds: string): Literal {
    match phase
    case Whole => l.(whole := l.whole + ds)
    case Fraction => l.(fraction := l.fraction + ds)
    case ExponentDigits => l.(exponentDigits := l.exponentDigits + ds)
    case _ => l
  }

  /** Collecting a digit and then a run is collecting both. */
  lemma ExtendStep(l: Literal, phase: Phase, d: char, ds: string)
    requires phase == Whole || phase == Fraction || phase == ExponentDigits
    ensures Extend(Record(l, phase, d), phase, ds) == Extend(l, phase, [d] + ds)
  {
    assert l.whole + [d] + ds == l.whole + ([d] + ds);
    assert l.fraction + [d] + ds == l.fraction + ([d] + ds);
    assert l.exponentDigits + [d] + ds == l.exponentDigits + ([d] + ds);
  }

  /** The digits after the first of a run. */
  lemma DigitsTail(ds: string)
    requires ds != [] && AllDigits(ds)
    ensures IsDigit(ds[0]) && AllDigits(ds[1..]) && ds == [ds[0]] + ds[1..]
  {
    forall i | 0 <= i < |ds[1..]| ensures IsDigit(ds[1..][i]) {
      assert ds[1..][i] == ds[i + 1];
    }
  }

  /** In a run of digits the automaton stays where it is and collects them. */
  lemma {:induction false} ScanDigits(ds: string, rest: string, phase: Phase, l: Literal)
    requires phase == Whole || phase == Fraction || phase == ExponentDigits
    requires AllDigits(ds) && Consistent(phase, l)
    ensures Consistent(phase, Extend(l, phase, ds))
    ensures ScanFrom(ds + rest, phase, l) == ScanFrom(rest, phase, Extend(l, phase, ds))
    decreases |ds|
  {
    if ds == [] {
      assert ds + rest == rest;
      assert l.whole + ds == l.whole && l.fraction + ds == l.fraction && l.exponentDigits + ds == l.exponentDigits;
    } else {
      ScanRun(ds, rest, phase, phase, l);
    }
  }

  /** A first digit, from the phase before a run of digits, then the rest of the run. */
  lemma {:induction false} ScanRun(ds: string, rest: string, phase: Phase, into: Phase, l: Literal)
    requires into == Whole || into == Fraction || into == ExponentDigits
    requires ds != [] && AllDigits(ds) && Consistent(phase, l)
    requires Next(phase, ds[0]) == Some(into)
    requires Record(l, into, ds[0]) == Extend(l, into, [ds[0]])
    ensures Consistent(into, Extend(l, into, ds))
    ensures ScanFrom(ds + rest, phase, l) == ScanFrom(rest, into, Extend(l, into, ds))
    decreases |ds|, 0
  {
    DigitsTail(ds);
    ScanCons(ds[0], ds[1..] + rest, phase, l);
    assert ds + rest == [ds[0]] + (ds[1..] + rest);
    ScanDigits(ds[1..], rest, into, Record(l, into, ds[0]));
    ExtendStep(l, into, ds[0], ds[1..]);
  }

  /** The phase the automaton is in after a mantissa. */
  function MantissaEnd(point: string, fraction: string): Phase {
    if fraction != [] then Fraction else if point != [] then Point else Whole
  }

  /** After the whole digits: an optional point and optional fraction digits. */
  lemma ScanPoint(point: string, fraction: string, rest: string, l: Literal)
    requires Consistent(Whole, l) && l.fraction == []
    requires AllDigits(fraction)
    requires point == "" || point == "."
    requires fraction != [] ==> point == "."
    ensures Consistent(MantissaEnd(point, fraction), l.(fraction := fraction))
    ensures ScanFrom(point + fraction + rest, Whole, l) == ScanFrom(rest, MantissaEnd(point, fraction), l.(fraction := fraction))
  {
    if point != "" {
      assert point + fraction + rest == ['.'] + (fraction + rest);
      ScanCons('.', fraction + rest, Whole, l);
      if fraction != [] {
        ScanRun(fraction, rest, Point, Fraction, l);
        assert l.fraction + fraction == fraction;
      } else {
        assert fraction + rest == rest;
        assert l.(fraction := fraction) == l;
      }
    } else {
      assert point + fraction + rest == rest;
      assert l.(fraction := fraction) == l;
    }
  }

  /** The mantissa: digits, an optional point and optional fraction digits,
      with at least one digit. */
  lemma ScanMantissa(whole: string, point: string, fraction: string, rest: string, phase: Phase, l: Literal)
    requires phase == Start || phase == Signed
    requires Consistent(phase, l) && l.whole == [] && l.fraction == []
    requires AllDigits(whole) && AllDigits(fraction) && whole + fraction != []
    requires point == "" || point == "."
    requires fraction != [] ==> point == "."
    ensures Consistent(MantissaEnd(point, fraction), l.(whole := whole, fraction := fraction))
    ensures ScanFrom(whole + point + fraction + rest, phase, l)
         == ScanFrom(rest, MantissaEnd(point, fraction), l.(whole := whole, fraction := fraction))
  {
    if whole != [] {
      assert whole + point + fraction + rest == whole + (point + fraction + rest);
      ScanRun(whole, point + fraction + rest, phase, Whole, l);
      assert l.whole + whole == whole;
      ScanPoint(point, fraction, rest, l.(whole := whole));
    } else {
      ScanBarePoint(fraction, rest, phase, l);
      assert whole + point + fraction + rest == "." + fraction + rest;
    }
  }

  /** A mantissa without whole digits: a point, then the fraction. */
  lemma ScanBarePoint(fraction: string, rest: string, phase: Phase, l: Literal)
    requires phase == Start || phase == Signed
    requires Consistent(phase, l) && l.whole == [] && l.fraction == []
    requires AllDigits(fraction) && fraction != []
    ensures Consistent(Fraction, l.(fraction := fraction))
    ensures ScanFrom("." + fraction + rest, phase, l) == ScanFrom(rest, Fraction, l.(fraction := fraction))
  {
    assert "." + fraction + rest == ['.'] + (fraction + rest);
    ScanCons('.', fraction + rest, phase, l);
    ScanRun(fraction, rest, BarePoint, Fraction, l);
    assert l.fraction + fraction == fraction;
  }

  /** The exponent: nothing, or a marker, an optional sign and digits. */
  lemma ScanExponent(marker: string, exponentSign: string, exponentDigits: string, phase: Phase, l: Literal)
    requires phase == Whole || phase == Point || phase == Fraction
    requires Consistent(phase, l) && l.whole + l.fraction != [] && !l.exponentNegative && l.exponentDigits == []
    requires marker == "" || marker == "e" || marker == "E"
    requires exponentSign == "" || exponentSign == "+" || exponentSign == "-"
    requires AllDigits(exponentDigits)
    requires marker == "" ==> exponentSign == "" && exponentDigits == ""
    requires marker != "" ==> exponentDigits != ""
    ensures ScanFrom(marker + exponentSign + exponentDigits, phase, l)
         == Some(l.(exponentNegative := exponentSign == "-", exponentDigits := exponentDigits))
  {
    if marker != "" {
      assert marker + exponentSign + exponentDigits == [marker[0]] + (exponentSign + exponentDigits);
      ScanCons(marker[0], exponentSign + exponentDigits, phase, l);
      ScanExponentValue(exponentSign, exponentDigits, l);
    }
  }

  /** After the exponent's marker: an optional sign, then digits. */
  lemma ScanExponentValue(exponentSign: string, exponentDigits: string, l: Literal)
    requires Consistent(Exponent, l) && !l.exponentNegative && l.exponentDigits == []
    requires exponentSign == "" || exponentSign == "+" || exponentSign == "-"
    requires AllDigits(exponentDigits) && exponentDigits != ""
    ensures ScanFrom(exponentSign + exponentDigits, Exponent, l)
         == Some(l.(exponentNegative := exponentSign == "-", exponentDigits := exponentDigits))
  {
    var le := l.(exponentNegative := exponentSign == "-");
    assert exponentDigits + [] == exponentDigits;
    if exponentSign != "" {
      assert exponentSign + exponentDigits == [exponentSign[0]] + exponentDigits;
      ScanCons(exponentSign[0], exponentDigits, Exponent, l);
      ScanRun(exponentDigits, [], ExponentSigned, ExponentDigits, le);
    } else {
      assert exponentSign + exponentDigits == exponentDigits;
      ScanRun(exponentDigits, [], Exponent, ExponentDigits, le);
    }
    assert Extend(le, ExponentDigits, exponentDigits) == le.(exponentDigits := exponentDigits);
  }

  /** A literal's text is its sign before the rest. */
  lemma LiteralText(sign: string, mantissa: string, marker: string, exponentSign: string, exponentDigits: string)
    ensures sign + mantissa + marker + exponentSign + exponentDigits
         == sign + (mantissa + (marker + exponentSign + exponentDigits))
  {
    assert sign + mantissa + marker + exponentSign == (sign + mantissa) + (marker + exponentSign);
  }

  /** Every decimal literal `float()` reads is accepted, and read into its parts:
      an optional sign, digits with an optional point and fraction (some digit
      in all), and an optional exponent of `e` or `E`, an optional sign and
      digits. */
  lemma LiteralAccepted(sign: string, whole: string, point: string, fraction: string,
                        marker: string, exponentSign: string, exponentDigits: string)
    requires sign == "" || sign == "+" || sign == "-"
    requires AllDigits(whole) && AllDigits(fraction) && whole + fraction != []
    requires point == "" || point == "."
    requires fraction != [] ==> point == "."
    requires marker == "" || marker == "e" || marker == "E"
    requires exponentSign == "" || exponentSign == "+" || exponentSign == "-"
    requires AllDigits(exponentDigits)
    requires marker == "" ==> exponentSign == "" && exponentDigits == ""
    requires marker != "" ==> exponentDigits != ""
    ensures Scan(sign + whole + point + fraction + marker + exponentSign + exponentDigits)
         == Some(Literal(sign == "-", whole, fraction, exponentSign == "-", exponentDigits))
  {
    var exponent := marker + exponentSign + exponentDigits;
    var tail := whole + point + fraction + exponent;
    LiteralText(sign, whole + point + fraction, marker, exponentSign, exponentDigits);
    assert sign + whole + point + fraction + marker + exponentSign + exponentDigits == sign + tail;
    var phase := if sign == "" then Start else Signed;
    var l := Nothing.(negative := sign == "-");
    var lm := l.(whole := whole, fraction := fraction);
    ScanSign(sign, tail);
    ScanMantissa(whole, point, fraction, exponent, phase, l);
    ScanExponent(marker, exponentSign, exponentDigits, MantissaEnd(point, fraction), lm);
    calc {
      Scan(sign + tail);
      ScanFrom(tail, phase, l);
      ScanFrom(exponent, MantissaEnd(point, fraction), lm);
      Some(lm.(exponentNegative := exponentSign == "-", exponentDigits := exponentDigits));
    }
  }

  /** The optional sign at the start. */
  lemma ScanSign(sign: string, tail: string)
    requires sign == "" || sign == "+" || sign == "-"
    ensures ScanFrom(sign + tail, Start, Nothing)
         == ScanFrom(tail, if sign == "" then Start else Signed, Nothing.(negative := sign == "-"))
  {
    if sign != "" {
      assert sign + tail == [sign[0]] + tail;
      ScanCons(sign[0], tail, Start, Nothing);
    } else {
      assert sign + tail == tail;
    }
  }

  /** The real number a valid literal denotes. */
  function Value(l: Literal): real
    requires l.Valid()
  {
    var magnitude := DigitsValue(l.whole + l.fraction) as real * Scale(l.Exponent() - |l.fraction|);
    if l.negative then -magnitude else magnitude
  }

  /** `float(s)` for an accepted token. */
  function FloatValue(s: string): real
    requires IsFloat(s)
  {
    Value(Scan(s).value)
  }

  /** Past the sign, the sign recorded never changes. */
  lemma {:induction false} SignKept(s: string, phase: Phase, l: Literal)
    requires Consistent(phase, l) && phase != Start
    requires ScanFrom(s, phase, l).Some?
    ensures ScanFrom(s, phase, l).value.negative == l.negative
    decreases |s|
  {
    if s != [] {
      var p := Next(phase, s[0]).value;
      SignKept(s[1..], p, Record(l, p, s[0]));
    }
  }

  /** An accepted token is not empty, is negative exactly when it starts with a
      minus sign, and after a minus sign comes a digit or a point.  So no
      directive flag such as `-m` or `-v` is a float. */
  lemma FloatShape(s: string)
    requires IsFloat(s)
    ensures s != []
    ensures Scan(s).value.negative <==> s[0] == '-'
    ensures s[0] == '-' ==> |s| >= 2 && (IsDigit(s[1]) || s[1] == '.')
  {
    var p := Next(Start, s[0]).value;
    var l := Record(Nothing, p, s[0]);
    SignKept(s[1..], p, l);
    if s[0] == '-' {
      assert ScanFrom(s[1..], Signed, l).Some?;
    }
  }

  predicate HasNonZeroDigit(s: string) { exists i :: 0 <= i < |s| && s[i] != '0' }

  /** A run of digits has a positive value exactly when one digit is not zero. */
  lemma {:induction false} DigitsValuePositive(s: string)
    requires AllDigits(s)
    ensures DigitsValue(s) > 0 <==> HasNonZeroDigit(s)
  {
    if s != [] {
      var init := s[..|s| - 1];
      DigitsValuePositive(init);
      if HasNonZeroDigit(init) {
        var i :| 0 <= i < |init| && init[i] != '0';
        assert s[i] != '0';
      }
      if HasNonZeroDigit(s) && s[|s| - 1] == '0' {
        var i :| 0 <= i < |s| && s[i] != '0';
        assert init[i] != '0';
      }
    }
  }

  lemma ProductPositive(a: real, b: real)
    requires a > 0.0 && b > 0.0
    ensures a * b > 0.0
  {
  }

  /** A literal denotes a positive number exactly when it has no minus sign and some non-zero digit. */
  lemma ValuePositive(l: Literal)
    requires l.Valid()
    ensures Value(l) > 0.0 <==> !l.negative && HasNonZeroDigit(l.whole + l.fraction)
  {
    var d := DigitsValue(l.whole + l.fraction);
    var sc := Scale(l.Exponent() - |l.fraction|);
    DigitsValuePositive(l.whole + l.fraction);
    if d > 0 {
      ProductPositive(d as real, sc);
    } else {
      assert d as real * sc == 0.0;
    }
  }

  /** So `float(v) <= 0` fails exactly for tokens without a minus sign and with a non-zero digit. */
  lemma PositiveFloat(s: string)
    requires IsFloat(s)
    ensures FloatValue(s) > 0.0 <==> s[0] != '-' && HasNonZeroDigit(Scan(s).value.whole + Scan(s).value.fraction)
  {
    FloatShape(s);
    ValuePositive(Scan(s).value);
  }
}
