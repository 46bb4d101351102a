/**
 * Cleaning of money cells (app.py:20-26, 30-36, 40-46; visualiseringer.py:18-23,
 * 120-125, 212-217): keep only the characters 0-9 , . -, turn every comma into a
 * dot, then read the text as a decimal number, giving null when it is not one.
 * Values are exact decimals (`real`).
 */
module Money {
  import opened Wrappers
  import Text

  predicate IsDigit(c: char)
  {
    '0' <= c <= '9'
  }

  /** The characters the cleaning keeps. */
  predicate IsMoneyChar(c: char)
  {
    IsDigit(c) || c == ',' || c == '.' || c == '-'
  }

  /** Removal of every character other than digits, comma, dot and minus. */
  function KeepMoneyChars(s: string): string
  {
    if |s| == 0 then ""
    else (if IsMoneyChar(s[0]) then [s[0]] else "") + KeepMoneyChars(s[1..])
  }

  /** Every comma turned into a dot. */
  function CommaToDot(s: string): string
  {
    if |s| == 0 then ""
    else [if s[0] == ',' then '.' else s[0]] + CommaToDot(s[1..])
  }

  function CleanText(s: string): string
  {
    CommaToDot(KeepMoneyChars(s))
  }

  /** What one character contributes to the cleaned text. */
  function CleanChar(c: char): string
  {
    if !IsMoneyChar(c) then "" else if c == ',' then "." else [c]
  }

  lemma {:induction false} KeepConcat(a: string, b: string)
    ensures KeepMoneyChars(a + b) == KeepMoneyChars(a) + KeepMoneyChars(b)
    decreases |a|
  {
    if |a| == 0 {
      assert a + b == b;
    } else {
      assert (a + b)[0] == a[0];
      assert (a + b)[1..] == a[1..] + b;
      KeepConcat(a[1..], b);
      var h := if IsMoneyChar(a[0]) then [a[0]] else "";
      assert KeepMoneyChars(a + b) == h + KeepMoneyChars(a[1..] + b);
      assert KeepMoneyChars(a) == h + KeepMoneyChars(a[1..]);
    }
  }

  lemma {:induction false} DotConcat(a: string, b: string)
    ensures CommaToDot(a + b) == CommaToDot(a) + CommaToDot(b)
    decreases |a|
  {
    if |a| == 0 {
      assert a + b == b;
    } else {
      assert (a + b)[1..] == a[1..] + b;
      DotConcat(a[1..], b);
    }
  }

  /**
   * Cleaning works character by character: it distributes over concatenation,
   * and each character is dropped, kept, or (a comma) turned into a dot.
   */
  lemma CleanTextConcat(a: string, b: string)
    ensures CleanText(a + b) == CleanText(a) + CleanText(b)
  {
    KeepConcat(a, b);
    DotConcat(KeepMoneyChars(a), KeepMoneyChars(b));
  }

  lemma CleanTextChar(c: char)
    ensures CleanText([c]) == CleanChar(c)
  {
    assert [c][1..] == "";
    assert KeepMoneyChars([c]) == if IsMoneyChar(c) then [c] else "";
    if IsMoneyChar(c) {
      assert CommaToDot([c]) == [if c == ',' then '.' else c] + CommaToDot("");
    }
  }

  /** Cleaning a non-empty text is cleaning its first character, then the rest. */
  lemma CleanFirst(s: string)
    requires |s| > 0
    ensures CleanText(s) == CleanChar(s[0]) + CleanText(s[1..])
  {
    assert s == [s[0]] + s[1..];
    CleanTextConcat([s[0]], s[1..]);
    CleanTextChar(s[0]);
  }

  /** The cleaned text holds only digits, dots and minus signs, so cleaning twice changes nothing. */
  lemma {:induction false} CleanTextIdempotent(s: string)
    ensures forall i :: 0 <= i < |CleanText(s)| ==> IsDigit(CleanText(s)[i]) || CleanText(s)[i] in ".-"
    ensures CleanText(CleanText(s)) == CleanText(s)
    decreases |s|
  {
    if |s| > 0 {
      assert s == [s[0]] + s[1..];
      CleanTextConcat([s[0]], s[1..]);
      CleanTextChar(s[0]);
      CleanTextIdempotent(s[1..]);
      var h := CleanChar(s[0]);
      CleanTextConcat(h, CleanText(s[1..]));
      if |h| == 1 {
        CleanTextChar(h[0]);
        assert [h[0]] == h;
      } else {
        assert h == "";
        assert h + CleanText(s[1..]) == CleanText(s[1..]);
      }
    }
  }

  function DigitValue(c: char): nat
    requires IsDigit(c)
  {
    c as int - '0' as int
  }

  predicate AllDigits(s: string)
  {
    forall i :: 0 <= i < |s| ==> IsDigit(s[i])
  }

  /** The number a string of digits denotes. */
  function DigitsValue(s: string): nat
    requires AllDigits(s)
  {
    if |s| == 0 then 0 else DigitsValue(s[..|s| - 1]) * 10 + DigitValue(s[|s| - 1])
  }

  /** The value of the digits after the decimal separator: "05" is 0.05. */
  function FracValue(f: string): real
    requires AllDigits(f)
  {
    if |f| == 0 then 0.0 else (DigitValue(f[0]) as real + FracValue(f[1..])) / 10.0
  }

  function DotCount(s: string): nat
  {
    if |s| == 0 then 0 else (if s[0] == '.' then 1 else 0) + DotCount(s[1..])
  }

  /** Position of the first dot, or |s| when there is none. */
  function FirstDot(s: string): (k: nat)
    ensures k <= |s|
    ensures k < |s| ==> s[k] == '.'
    ensures forall i :: 0 <= i < k ==> s[i] != '.'
  {
    if |s| == 0 then 0 else if s[0] == '.' then 0 else 1 + FirstDot(s[1..])
  }

  /** The text without one leading minus sign. */
  function Magnitude(s: string): string
  {
    if |s| > 0 && s[0] == '-' then s[1..] else s
  }

  /**
   * A decimal literal as `pd.to_numeric` reads it once the cleaning has run:
   * an optional leading minus, then digits with at most one dot among them,
   * and at least one digit.
   */
  ghost predicate IsDecimalLiteral(s: string)
  {
    var m := Magnitude(s);
    && (forall i :: 0 <= i < |m| ==> IsDigit(m[i]) || m[i] == '.')
    && DotCount(m) <= 1
    && (exists i :: 0 <= i < |m| && IsDigit(m[i]))
  }

  function ParseUnsigned(m: string): Option<real>
  {
    var whole, frac := WholePart(m), FracPart(m);
    if AllDigits(whole) && AllDigits(frac) && |whole| + |frac| > 0 then
      Some(DigitsValue(whole) as real + FracValue(frac))
    else None
  }

  /** Numeric conversion of one string, failures made null: a number, or null. */
  function ParseDecimal(s: string): (r: Option<real>)
    ensures r.Some? <==> IsDecimalLiteral(s)
  {
    ParseUnsignedIff(Magnitude(s));
    if |s| > 0 && s[0] == '-' then
      match ParseUnsigned(s[1..])
      case None => None
      case Some(x) => Some(-x)
    else ParseUnsigned(s)
  }

  lemma {:induction false} DotCountConcat(a: string, b: string)
    ensures DotCount(a + b) == DotCount(a) + DotCount(b)
    decreases |a|
  {
    if |a| == 0 {
      assert a + b == b;
    } else {
      assert (a + b)[1..] == a[1..] + b;
      DotCountConcat(a[1..], b);
    }
  }

  lemma {:induction false} NoDotCount(s: string)
    ensures DotCount(s) == 0 <==> forall i :: 0 <= i < |s| ==> s[i] != '.'
    decreases |s|
  {
    if |s| > 0 {
      NoDotCount(s[1..]);
      assert forall i :: 1 <= i < |s| ==> s[i] == s[1..][i - 1];
    }
  }

  /** Text before the first dot, and after it (empty when there is no dot). */
  function WholePart(m: string): string
  {
    m[..FirstDot(m)]
  }

  function FracPart(m: string): string
  {
    var k := FirstDot(m);
    if k < |m| then m[k + 1..] else ""
  }

  lemma SplitAround(m: string, k: nat)
    requires k < |m|
    ensures m == m[..k] + ([m[k]] + m[k + 1..])
  {
  }

  lemma DotSplit(m: string)
    ensures DotCount(WholePart(m)) == 0
    ensures DotCount(m) == DotCount(FracPart(m)) + (if FirstDot(m) < |m| then 1 else 0)
  {
    var k, w, f := FirstDot(m), WholePart(m), FracPart(m);
    NoDotCount(w);
    if k < |m| {
      var dot := [m[k]];
      SplitAround(m, k);
      DotCountConcat(w, dot + f);
      DotCountConcat(dot, f);
      assert DotCount(dot) == 1 by {
        assert dot[1..] == "";
      }
    } else {
      assert m == w;
    }
  }

  lemma ParseUnsignedSound(m: string)
    requires ParseUnsigned(m).Some?
    ensures forall i :: 0 <= i < |m| ==> IsDigit(m[i]) || m[i] == '.'
    ensures DotCount(m) <= 1
    ensures exists i :: 0 <= i < |m| && IsDigit(m[i])
  {
    DotSplit(m);
    var k, w, f := FirstDot(m), WholePart(m), FracPart(m);
    NoDotCount(f);
    forall i | 0 <= i < |m| ensures IsDigit(m[i]) || m[i] == '.' {
      if i < k {
        assert m[i] == w[i];
      } else if k < i {
        assert m[i] == f[i - k - 1];
      }
    }
    if |w| > 0 {
      assert IsDigit(m[0]);
    } else {
      assert IsDigit(m[FirstDot(m) + 1]);
    }
  }

  lemma ParseUnsignedComplete(m: string)
    requires forall i :: 0 <= i < |m| ==> IsDigit(m[i]) || m[i] == '.'
    requires DotCount(m) <= 1
    requires exists i :: 0 <= i < |m| && IsDigit(m[i])
    ensures ParseUnsigned(m).Some?
  {
    var k := FirstDot(m);
    DotSplit(m);
    var w, f := WholePart(m), FracPart(m);
    assert AllDigits(w) by {
      forall i | 0 <= i < |w| ensures IsDigit(w[i]) {
        assert w[i] == m[i];
      }
    }
    if k < |m| {
      NoDotCount(f);
      assert AllDigits(f) by {
        forall i | 0 <= i < |f| ensures IsDigit(f[i]) {
          assert f[i] == m[k + 1 + i];
        }
      }
    }
    var j :| 0 <= j < |m| && IsDigit(m[j]);
    assert j != k;
  }

  lemma ParseUnsignedIff(m: string)
    ensures ParseUnsigned(m).Some? <==>
      && (forall i :: 0 <= i < |m| ==> IsDigit(m[i]) || m[i] == '.')
      && DotCount(m) <= 1
      && (exists i :: 0 <= i < |m| && IsDigit(m[i]))
  {
    if ParseUnsigned(m).Some? {
      ParseUnsignedSound(m);
    }
    if && (forall i :: 0 <= i < |m| ==> IsDigit(m[i]) || m[i] == '.')
       && DotCount(m) <= 1
       && (exists i :: 0 <= i < |m| && IsDigit(m[i]))
    {
      ParseUnsignedComplete(m);
    }
  }

  /** The cleaning pipeline on a cell's text: a number, or null — never an error. */
  function CleanMoney(s: string): (r: Option<real>)
    ensures r.Some? <==> IsDecimalLiteral(CleanText(s))
  {
    ParseDecimal(CleanText(s))
  }

  /** Rendering a count and reading it back gives the count. */
  lemma {:induction false} DigitsValueShowNat(n: nat)
    ensures AllDigits(Text.ShowNat(n)) && DigitsValue(Text.ShowNat(n)) == n
  {
    var r := Text.ShowNat(n);
    if n >= 10 {
      DigitsValueShowNat(n / 10);
      assert r[..|r| - 1] == Text.ShowNat(n / 10);
    }
  }

  lemma ParseUnsignedShowNat(n: nat)
    ensures ParseUnsigned(Text.ShowNat(n)) == Some(n as real)
  {
    var r := Text.ShowNat(n);
    DigitsValueShowNat(n);
    var k := FirstDot(r);
    assert k == |r|;
    assert WholePart(r) == r;
    assert FracPart(r) == "";
  }

  lemma ParseShowNat(n: nat)
    ensures ParseDecimal(Text.ShowNat(n)) == Some(n as real)
    ensures ParseDecimal("-" + Text.ShowNat(n)) == Some(-(n as real))
  {
    var r := Text.ShowNat(n);
    ParseUnsignedShowNat(n);
    assert r[0] != '-';
    assert ("-" + r)[1..] == r;
  }

  /** Cleaning leaves a string of digits as it is. */
  lemma {:induction false} CleanDigits(w: string)
    requires AllDigits(w)
    ensures CleanText(w) == w
    decreases |w|
  {
    if |w| > 0 {
      CleanFirst(w);
      CleanDigits(w[1..]);
      assert w == [w[0]] + w[1..];
    }
  }

  /** Cleaning removes text without digits, commas, dots or minus signs altogether. */
  lemma {:induction false} CleanNoise(t: string)
    requires forall i :: 0 <= i < |t| ==> !IsMoneyChar(t[i])
    ensures CleanText(t) == ""
    decreases |t|
  {
    if |t| > 0 {
      CleanFirst(t);
      CleanNoise(t[1..]);
    }
  }

  /** Digits, one dot, digits: the whole part plus the fraction, scaled by its length. */
  lemma ParseWholeFrac(w: string, f: string)
    requires AllDigits(w) && AllDigits(f) && |w| + |f| > 0
    ensures ParseUnsigned(w + "." + f) == Some(AmountValue(w, f))
  {
    var m := w + "." + f;
    var k := FirstDot(m);
    assert m[|w|] == '.';
    assert forall i :: 0 <= i < |w| ==> m[i] == w[i];
    assert k == |w|;
    assert WholePart(m) == w;
    assert FracPart(m) == f;
  }

  /** The value of digits w, a decimal separator and digits f. */
  function AmountValue(w: string, f: string): real
    requires AllDigits(w) && AllDigits(f)
  {
    DigitsValue(w) as real + FracValue(f)
  }

  /**
   * A Danish amount with a decimal comma, any text without digits, commas,
   * dots or minus signs after it (" kr"), and an optional leading minus is
   * read exactly.
   */
  lemma DecimalCommaAmount(w: string, f: string, t: string)
    requires AllDigits(w) && AllDigits(f) && |w| + |f| > 0
    requires forall i :: 0 <= i < |t| ==> !IsMoneyChar(t[i])
    ensures CleanMoney(w + "," + f + t) == Some(AmountValue(w, f))
    ensures CleanMoney("-" + w + "," + f + t) == Some(-AmountValue(w, f))
  {
    var m := w + "." + f;
    CleanAmount(w, f, t);
    CleanSignedAmount(w, f, t);
    ParseWholeFrac(w, f);
    assert m[0] != '-' by {
      if |w| > 0 { assert m[0] == w[0]; } else { assert m[0] == '.'; }
    }
    ParseSigned(m);
  }

  /** A text that does not start with a minus reads as its unsigned value, and with a minus in front as its negation. */
  lemma ParseSigned(m: string)
    requires |m| > 0 && m[0] != '-' && ParseUnsigned(m).Some?
    ensures ParseDecimal(m) == ParseUnsigned(m)
    ensures ParseDecimal("-" + m) == Some(-ParseUnsigned(m).value)
  {
    assert ("-" + m)[1..] == m;
  }

  /** Cleaning such an amount leaves its digits around a dot. */
  lemma CleanAmount(w: string, f: string, t: string)
    requires AllDigits(w) && AllDigits(f)
    requires forall i :: 0 <= i < |t| ==> !IsMoneyChar(t[i])
    ensures CleanText(w + "," + f + t) == w + "." + f
  {
    CleanDigits(w);
    CleanDigits(f);
    CleanNoise(t);
    CleanTextChar(',');
    CleanTextConcat(w, ",");
    assert CleanText(w + ",") == w + ".";
    CleanTextConcat(w + ",", f);
    assert CleanText(w + "," + f) == w + "." + f;
    CleanTextConcat(w + "," + f, t);
    assert (w + "." + f) + "" == w + "." + f;
  }

  /** ... and keeps the minus in front of them. */
  lemma CleanSignedAmount(w: string, f: string, t: string)
    requires AllDigits(w) && AllDigits(f)
    requires forall i :: 0 <= i < |t| ==> !IsMoneyChar(t[i])
    ensures CleanText("-" + w + "," + f + t) == "-" + (w + "." + f)
  {
    var a := w + "," + f + t;
    CleanAmount(w, f, t);
    CleanTextChar('-');
    CleanTextConcat("-", a);
    assert "-" + w + "," + f + t == "-" + a;
  }

  /** Dots and commas, counted together. */
  function MarkCount(s: string): nat
  {
    if |s| == 0 then 0 else (if s[0] == '.' || s[0] == ',' then 1 else 0) + MarkCount(s[1..])
  }

  /** Every dot and every comma of a text is a dot after cleaning. */
  lemma {:induction false} CleanMarks(s: string)
    ensures DotCount(CleanText(s)) == MarkCount(s)
    decreases |s|
  {
    if |s| > 0 {
      CleanFirst(s);
      CleanMarks(s[1..]);
      DotCountConcat(CleanChar(s[0]), CleanText(s[1..]));
      if IsMoneyChar(s[0]) {
        assert CleanChar(s[0])[1..] == "";
      }
    }
  }

  lemma {:induction false} MarkCountOne(s: string, j: nat)
    requires j < |s| && (s[j] == '.' || s[j] == ',')
    ensures MarkCount(s) >= 1
  {
    if j > 0 {
      MarkCountOne(s[1..], j - 1);
    }
  }

  lemma {:induction false} MarkCountTwo(s: string, i: nat, j: nat)
    requires i < j < |s|
    requires s[i] == '.' || s[i] == ','
    requires s[j] == '.' || s[j] == ','
    ensures MarkCount(s) >= 2
  {
    if i == 0 {
      MarkCountOne(s[1..], j - 1);
    } else {
      MarkCountTwo(s[1..], i - 1, j - 1);
    }
  }

  /**
   * Two separators make an amount null: a thousands dot next to the decimal
   * comma (a fully formatted Danish amount such as "1.500,00 kr") leaves two
   * dots after the comma is turned into a dot.
   */
  lemma TwoSeparatorsAreNull(s: string, i: nat, j: nat)
    requires i < j < |s|
    requires s[i] == '.' || s[i] == ','
    requires s[j] == '.' || s[j] == ','
    ensures CleanMoney(s) == None
  {
    var c := CleanText(s);
    CleanMarks(s);
    MarkCountTwo(s, i, j);
    if |c| > 0 && c[0] == '-' {
      assert c == [c[0]] + c[1..];
      DotCountConcat([c[0]], c[1..]);
      assert [c[0]][1..] == "";
    }
  }

  /** "1.500,00 kr" is null. */
  lemma ThousandsDotExample()
    ensures CleanMoney("1.500,00 kr") == None
  {
    TwoSeparatorsAreNull("1.500,00 kr", 1, 5);
  }

  /** An empty cell, which pandas stringifies as "nan", becomes null. */
  lemma EmptyCellExample()
    ensures CleanMoney("nan") == None
  {
    assert CleanText("nan") == "";
  }
}
