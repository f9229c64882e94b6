/** One money cell of the flow table and the four rewrites that
    clean_etf_data applies to it (df.py:20-30), in order:
      1. a parenthesised amount "(1,234.5)" becomes "-1,234.5";
      2. every thousands separator ',' is removed;
      3. a cell that is exactly "-" becomes the number 0;
      4. what remains is parsed as a number, or the cell is rejected.
    Amounts are exact decimals (Dafny reals); no floating point. */
module Cells {
  import opened Outcomes

  /** A parsed date, as the date reader (a parameter of the cleaning) gives
      it. Its meaning is not modelled: a Date is only carried through. */
  datatype Date = Date(text: string)

  /** A table cell: text as scraped, a number, or a date. */
  datatype Cell = Text(text: string) | Num(value: real) | When(date: Date)

  predicate IsDigit(c: char) {
    '0' <= c <= '9'
  }

  /** The character class [0-9.,] inside the outflow pattern. */
  predicate InAmountClass(c: char) {
    IsDigit(c) || c == '.' || c == ','
  }

  predicate AllDigits(s: string) {
    forall k :: 0 <= k < |s| ==> IsDigit(s[k])
  }

  predicate AllInAmountClass(s: string) {
    forall k :: 0 <= k < |s| ==> InAmountClass(s[k])
  }

  // ---------------------------------------------------------------------
  // Step 1: re.sub(r"\(([0-9.,]+)\)", r"-\1", s)
  // ---------------------------------------------------------------------

  /** The end of the longest run of [0-9.,] that starts at i. */
  function RunEnd(s: string, i: nat): (j: nat)
    requires i <= |s|
    ensures i <= j <= |s|
    ensures forall k :: i <= k < j ==> InAmountClass(s[k])
    ensures j == |s| || !InAmountClass(s[j])
    decreases |s| - i
  {
    if i < |s| && InAmountClass(s[i]) then RunEnd(s, i + 1) else i
  }

  /** The outflow pattern \(([0-9.,]+)\) matches s[i..j] exactly. */
  predicate MatchesAt(s: string, i: nat, j: nat) {
    i + 2 < j <= |s| && s[i] == '(' && s[j - 1] == ')' &&
    forall k :: i < k < j - 1 ==> InAmountClass(s[k])
  }

  /** Where the pattern, tried at the start of s, ends (greedy scan). */
  function MatchEnd(s: string): (m: Option<nat>)
    ensures m.Some? ==> MatchesAt(s, 0, m.value)
  {
    if |s| > 0 && s[0] == '(' then
      var e := RunEnd(s, 1);
      if 1 < e < |s| && s[e] == ')' then Some(e + 1) else None
    else None
  }

  /** The greedy scan finds every match of the pattern at the start, so the
      match is unique: ')' is not in the class and ends the amount. */
  lemma MatchEndExact(s: string, j: nat)
    requires MatchesAt(s, 0, j)
    ensures MatchEnd(s) == Some(j)
  {
    assert RunEnd(s, 1) == j - 1;
  }

  /** Leftmost, non-overlapping replacement of every parenthesised amount
      by the same amount with a leading minus; all other text is kept. */
  function NegateParens(s: string): (r: string)
    ensures |r| <= |s|
    decreases |s|
  {
    if s == [] then []
    else match MatchEnd(s)
      case Some(j) => "-" + s[1..j - 1] + NegateParens(s[j..])
      case None => [s[0]] + NegateParens(s[1..])
  }

  /** Text without an opening parenthesis is left alone. */
  lemma {:induction false} NegateParensPlain(s: string)
    requires forall k :: 0 <= k < |s| ==> s[k] != '('
    ensures NegateParens(s) == s
    decreases |s|
  {
    if s != [] {
      assert MatchEnd(s).None?;
      NegateParensPlain(s[1..]);
    }
  }

  /** Text in which the pattern matches nowhere is left alone: every '('
      that starts no parenthesised amount is kept. */
  lemma {:induction false} NoMatchUnchanged(s: string)
    requires forall i, j :: 0 <= i < j <= |s| ==> !MatchesAt(s, i, j)
    ensures NegateParens(s) == s
    decreases |s|
  {
    if s != [] {
      var t := s[1..];
      forall i, j | 0 <= i < j <= |t| ensures !MatchesAt(t, i, j) {
        MatchShift(s, i, j);
      }
      NoMatchUnchanged(t);
      assert s == [s[0]] + t;
    }
  }

  /** A match in the tail of s is a match in s, one position later. */
  lemma MatchShift(s: string, i: nat, j: nat)
    requires |s| > 0 && i < j <= |s| - 1
    ensures MatchesAt(s[1..], i, j) ==> MatchesAt(s, i + 1, j + 1)
  {
    var t := s[1..];
    if MatchesAt(t, i, j) {
      forall k | i + 1 < k < j ensures InAmountClass(s[k]) {
        assert s[k] == t[k - 1];
      }
    }
  }

  /** A parenthesised amount at the front becomes a leading minus; the
      rest of the text is rewritten on its own. */
  lemma NegateParensWrapped(t: string, rest: string)
    requires |t| > 0 && AllInAmountClass(t)
    ensures NegateParens("(" + t + ")" + rest) == "-" + t + NegateParens(rest)
  {
    var s := "(" + t + ")" + rest;
    assert MatchesAt(s, 0, |t| + 2);
    MatchEndExact(s, |t| + 2);
    assert s[1..|t| + 1] == t;
    assert s[|t| + 2..] == rest;
  }

  // ---------------------------------------------------------------------
  // Step 2: re.sub(r",", "", s)
  // ---------------------------------------------------------------------

  /** Every ',' removed, every other character kept in order. */
  function StripCommas(s: string): (r: string)
    ensures |r| <= |s|
    ensures forall k :: 0 <= k < |r| ==> r[k] != ','
  {
    if s == [] then [] else (if s[0] == ',' then "" else [s[0]]) + StripCommas(s[1..])
  }

  lemma {:induction false} StripCommasAppend(a: string, b: string)
    ensures StripCommas(a + b) == StripCommas(a) + StripCommas(b)
    decreases |a|
  {
    if a != [] {
      assert (a + b)[1..] == a[1..] + b;
      StripCommasAppend(a[1..], b);
    } else {
      assert a + b == b;
    }
  }

  /** Text without separators is left alone. */
  lemma {:induction false} StripCommasPlain(s: string)
    requires forall k :: 0 <= k < |s| ==> s[k] != ','
    ensures StripCommas(s) == s
    decreases |s|
  {
    if s != [] {
      StripCommasPlain(s[1..]);
    }
  }

  // ---------------------------------------------------------------------
  // Step 4: pd.to_numeric on one value
  // ---------------------------------------------------------------------

  function Pow10(k: nat): (p: nat)
    ensures p >= 1
  {
    if k == 0 then 1 else 10 * Pow10(k - 1)
  }

  function DigitValue(c: char): nat
    requires IsDigit(c)
  {
    c as int - '0' as int
  }

  function DigitChar(d: nat): (c: char)
    requires d < 10
    ensures IsDigit(c) && DigitValue(c) == d
  {
    ('0' as int + d) as char
  }

  /** The natural number a string of decimal digits denotes. */
  function DigitsValue(s: string): nat
    requires AllDigits(s)
  {
    if s == [] then 0 else DigitsValue(s[..|s| - 1]) * 10 + DigitValue(s[|s| - 1])
  }

  lemma {:induction false} DigitsValueAppend(a: string, b: string)
    requires AllDigits(a) && AllDigits(b)
    ensures AllDigits(a + b)
    ensures DigitsValue(a + b) == DigitsValue(a) * Pow10(|b|) + DigitsValue(b)
    decreases |b|
  {
    if b == [] {
      assert a + b == a;
    } else {
      var b' := b[..|b| - 1];
      assert (a + b)[..|a + b| - 1] == a + b';
      assert (a + b)[|a + b| - 1] == b[|b| - 1];
      DigitsValueAppend(a, b');
      assert DigitsValue(a + b) == DigitsValue(a + b') * 10 + DigitValue(b[|b| - 1]);
      assert Pow10(|b|) == Pow10(|b'|) * 10;
      assert DigitsValue(b) == DigitsValue(b') * 10 + DigitValue(b[|b| - 1]);
      ShiftDigit(DigitsValue(a), Pow10(|b'|), DigitsValue(b'), DigitValue(b[|b| - 1]));
    }
  }

  /** Appending one digit to a concatenation shifts both halves. */
  lemma ShiftDigit(x: int, p: int, y: int, d: int)
    ensures (x * p + y) * 10 + d == x * (p * 10) + (y * 10 + d)
  {
  }

  /** Index of the first '.', or |s| when there is none. */
  function DotIndex(s: string): (d: nat)
    ensures d <= |s|
    ensures forall k :: 0 <= k < d ==> s[k] != '.'
    ensures d < |s| ==> s[d] == '.'
  {
    if s == [] then 0 else if s[0] == '.' then 0 else 1 + DotIndex(s[1..])
  }

  /** The exact value n / 10^k, one decimal place at a time. */
  function Scaled(n: nat, k: nat): (r: real)
    ensures r >= 0.0
  {
    if k == 0 then n as real else Scaled(n, k - 1) / 10.0
  }

  /** Scaled(n, k) is the number that 10^k times gives back n. */
  lemma {:induction false} ScaledTimesPow10(n: nat, k: nat)
    ensures Scaled(n, k) * Pow10(k) as real == n as real
  {
    if k > 0 {
      ScaledTimesPow10(n, k - 1);
      var x := Scaled(n, k - 1);
      var p := Pow10(k - 1) as real;
      assert Pow10(k) as real == 10.0 * p;
      assert (x / 10.0) * (10.0 * p) == x * p;
    }
  }

  lemma {:induction false} ScaledAdd(a: nat, b: nat, k: nat)
    ensures Scaled(a + b, k) == Scaled(a, k) + Scaled(b, k)
  {
    if k > 0 {
      ScaledAdd(a, b, k - 1);
    }
  }

  lemma {:induction false} ScaledTen(x: nat, k: nat)
    requires k >= 1
    ensures Scaled(x * 10, k) == Scaled(x, k - 1)
  {
    if k > 1 {
      ScaledTen(x, k - 1);
    }
  }

  /** Unsigned decimal text: digits with at most one '.', at least one digit. */
  function ParseUnsigned(s: string): (r: Option<real>)
    ensures r.Some? ==> r.value >= 0.0
  {
    var d := DotIndex(s);
    var whole := s[..d];
    var frac := if d < |s| then s[d + 1..] else [];
    if AllDigits(whole) && AllDigits(frac) && |whole| + |frac| > 0 then
      Some(DigitsValue(whole) as real + Scaled(DigitsValue(frac), |frac|))
    else None
  }

  predicate IsSign(c: char) {
    c == '-' || c == '+'
  }

  /** Decimal text with an optional sign. The parser accepts exactly the
      decimal grammar, and a leading minus negates. */
  function ParseNumber(s: string): (r: Option<real>)
    ensures r.Some? <==> IsDecimalText(s)
    ensures r.Some? && |s| > 0 && s[0] == '-' ==> r == Some(-ParseUnsigned(s[1..]).value)
  {
    if |s| > 0 && IsSign(s[0]) then
      ParseUnsignedAccepts(s[1..]);
      match ParseUnsigned(s[1..])
      case Some(v) => Some(if s[0] == '-' then -v else v)
      case None => None
    else
      ParseUnsignedAccepts(s);
      ParseUnsigned(s)
  }

  /** The decimal grammar stated without the parser: an optional sign, then
      digits and dots only, at least one digit and at most one dot. */
  predicate IsUnsignedText(b: string) {
    && (exists k :: 0 <= k < |b| && IsDigit(b[k]))
    && (forall k :: 0 <= k < |b| ==> IsDigit(b[k]) || b[k] == '.')
    && (forall k, l :: 0 <= k < l < |b| && b[k] == '.' ==> b[l] != '.')
  }

  predicate IsDecimalText(s: string) {
    if |s| > 0 && IsSign(s[0]) then IsUnsignedText(s[1..]) else IsUnsignedText(s)
  }

  lemma ParseUnsignedAccepts(b: string)
    ensures ParseUnsigned(b).Some? <==> IsUnsignedText(b)
  {
    var d := DotIndex(b);
    var whole := b[..d];
    var frac := if d < |b| then b[d + 1..] else [];
    if ParseUnsigned(b).Some? {
      assert forall k :: 0 <= k < |b| && k != d ==> IsDigit(b[k]) by {
        forall k | 0 <= k < |b| && k != d ensures IsDigit(b[k]) {
          if k < d {
            assert b[k] == whole[k];
          } else {
            assert b[k] == frac[k - d - 1];
          }
        }
      }
      if |whole| > 0 {
        assert IsDigit(b[0]);
      } else {
        assert IsDigit(b[d + 1]);
      }
    }
    if IsUnsignedText(b) {
      var k :| 0 <= k < |b| && IsDigit(b[k]);
      assert AllDigits(whole);
      assert AllDigits(frac) by {
        forall i | 0 <= i < |frac| ensures IsDigit(frac[i]) {
          assert frac[i] == b[d + 1 + i];
          assert b[d + 1 + i] != '.';
        }
      }
      if k < d {
        assert |whole| > 0;
      } else {
        assert k != d;
        assert |frac| > 0;
      }
    }
  }

  /** "D" denotes D. */
  lemma ParseWhole(whole: string)
    requires AllDigits(whole) && |whole| > 0
    ensures ParseUnsigned(whole) == Some(DigitsValue(whole) as real)
  {
    assert DotIndex(whole) == |whole|;
    assert whole[..|whole|] == whole;
    assert ParseUnsigned(whole).Some?;
    assert Scaled(0, 0) == 0.0;
  }

  lemma DotIndexAfterDigits(whole: string, frac: string)
    requires AllDigits(whole)
    ensures DotIndex(whole + "." + frac) == |whole|
    ensures (whole + "." + frac)[..|whole|] == whole
    ensures (whole + "." + frac)[|whole| + 1..] == frac
  {
    var s := whole + "." + frac;
    assert forall k :: 0 <= k < |whole| ==> s[k] == whole[k];
    assert s[|whole|] == '.';
  }

  lemma ParseUnsignedAt(s: string, whole: string, frac: string)
    requires AllDigits(whole) && AllDigits(frac) && |whole| > 0
    requires DotIndex(s) == |whole| < |s|
    requires s[..|whole|] == whole && s[|whole| + 1..] == frac
    ensures ParseUnsigned(s) == Some(DigitsValue(whole) as real + Scaled(DigitsValue(frac), |frac|))
  {
  }

  /** "D.F" denotes D + F / 10^|F|. */
  lemma ParseFraction(whole: string, frac: string)
    requires AllDigits(whole) && AllDigits(frac) && |whole| > 0
    ensures ParseUnsigned(whole + "." + frac)
         == Some(DigitsValue(whole) as real + Scaled(DigitsValue(frac), |frac|))
  {
    DotIndexAfterDigits(whole, frac);
    ParseUnsignedAt(whole + "." + frac, whole, frac);
  }

  // ---------------------------------------------------------------------
  // The whole per-cell rewrite
  // ---------------------------------------------------------------------

  /** Step 1 on one cell; non-text cells are skipped by the regex replace. */
  function NegateCell(c: Cell): Cell {
    if c.Text? then Text(NegateParens(c.text)) else c
  }

  /** Step 2 on one cell. */
  function StripCell(c: Cell): Cell {
    if c.Text? then Text(StripCommas(c.text)) else c
  }

  /** Step 3: df.replace("-", 0) replaces whole cells equal to "-". */
  function DashCell(c: Cell): Cell {
    if c == Text("-") then Num(0.0) else c
  }

  /** Step 4: pd.to_numeric on one value. Numbers pass, text is parsed,
      and a date in a money column is not a number. */
  function ToNumber(c: Cell): Option<real> {
    match c
    case Num(v) => Some(v)
    case Text(s) => ParseNumber(s)
    case When(_) => None
  }

  /** Steps 1 to 4 on one money cell: numbers are already clean, dates
      are never amounts, a text that is a lone dash once rewritten counts
      as zero, and any other text is parsed after the rewrites. */
  function CleanAmount(c: Cell): (r: Option<real>)
    ensures c.Num? ==> r == Some(c.value)
    ensures c.When? ==> r == None
    ensures c.Text? && Rewritten(c.text) == "-" ==> r == Some(0.0)
    ensures c.Text? && Rewritten(c.text) != "-" ==> r == ParseNumber(Rewritten(c.text))
  {
    ToNumber(DashCell(StripCell(NegateCell(c))))
  }

  /** The text that step 4 sees for a text cell. */
  function Rewritten(s: string): string {
    StripCommas(NegateParens(s))
  }

  /** A text cell fails exactly when its rewritten text is neither the
      placeholder dash nor decimal text. */
  lemma CleanAmountFails(s: string)
    ensures CleanAmount(Text(s)).None? <==> Rewritten(s) != "-" && !IsDecimalText(Rewritten(s))
  {
  }

  /** Plain text (no parenthesis, no separator, not the dash) reaches the
      parser unchanged: steps 1 to 3 are no-ops on it. A sign minus such
      as "-5" is therefore parsed as it stands. */
  lemma CleanAmountPlain(s: string)
    requires forall k :: 0 <= k < |s| ==> s[k] != '(' && s[k] != ','
    requires s != "-"
    ensures Rewritten(s) == s
    ensures CleanAmount(Text(s)) == ParseNumber(s)
  {
    NegateParensPlain(s);
    StripCommasPlain(s);
  }

  // ---------------------------------------------------------------------
  // How the flow page prints amounts, and the round trip
  // ---------------------------------------------------------------------

  /** Decimal digits of n, no leading zeros. */
  function Digits(n: nat): (s: string)
    ensures |s| > 0 && AllDigits(s) && DigitsValue(s) == n
  {
    if n < 10 then [DigitChar(n)]
    else
      var s := Digits(n / 10) + [DigitChar(n % 10)];
      assert s[..|s| - 1] == Digits(n / 10);
      s
  }

  /** The lowest w decimal digits of n, with leading zeros. */
  function Padded(n: nat, w: nat): (s: string)
    ensures |s| == w && AllDigits(s)
  {
    if w == 0 then [] else Padded(n / 10, w - 1) + [DigitChar(n % 10)]
  }

  lemma {:induction false} PaddedStep(n: nat, w: nat)
    requires w > 0
    ensures DigitsValue(Padded(n, w)) == DigitsValue(Padded(n / 10, w - 1)) * 10 + n % 10
  {
    var s := Padded(n, w);
    assert s[..|s| - 1] == Padded(n / 10, w - 1);
  }

  /** A number below 10^w is exactly its w padded digits. */
  lemma {:induction false} PaddedValue(n: nat, w: nat)
    requires n < Pow10(w)
    ensures DigitsValue(Padded(n, w)) == n
  {
    if w > 0 {
      var q, d := n / 10, n % 10;
      DivTenBound(n, Pow10(w - 1));
      PaddedValue(q, w - 1);
      PaddedStep(n, w);
      LastDigit(n);
      Recombine(DigitsValue(Padded(n, w)), DigitsValue(Padded(q, w - 1)), q, d, n);
    }
  }

  lemma Recombine(v: int, u: int, q: int, d: int, n: int)
    requires v == u * 10 + d && u == q && n == q * 10 + d
    ensures v == n
  {
  }

  lemma DivTenBound(n: nat, p: nat)
    requires n < 10 * p
    ensures n / 10 < p
  {
  }

  /** n / 10^k, one decimal place at a time. */
  function WholePart(n: nat, k: nat): nat {
    if k == 0 then n else WholePart(n / 10, k - 1)
  }

  /** n is its whole part followed by its k lowest digits as decimals. */
  lemma {:induction false} DecimalSplit(n: nat, k: nat)
    ensures WholePart(n, k) as real + Scaled(DigitsValue(Padded(n, k)), k) == Scaled(n, k)
  {
    if k > 0 {
      var q, d := n / 10, n % 10;
      DecimalSplit(q, k - 1);
      PaddedStep(n, k);
      LastDigit(n);
      SplitStep(n, q, d, DigitsValue(Padded(q, k - 1)), DigitsValue(Padded(n, k)), k);
    }
  }

  lemma LastDigit(n: nat)
    ensures n == (n / 10) * 10 + n % 10 && n % 10 < 10
  {
  }

  /** The step of DecimalSplit, with the last digit d of n = 10q + d and
      the padded digits p = 10x + d of n named. */
  lemma SplitStep(n: nat, q: nat, d: nat, x: nat, p: nat, k: nat)
    requires k > 0 && n == q * 10 + d && p == x * 10 + d
    requires WholePart(q, k - 1) as real + Scaled(x, k - 1) == Scaled(q, k - 1)
    ensures WholePart(q, k - 1) as real + Scaled(p, k) == Scaled(n, k)
  {
    ScaledDigit(x, d, k);
    ScaledDigit(q, d, k);
  }

  lemma ScaledDigit(x: nat, d: nat, k: nat)
    requires k > 0
    ensures Scaled(x * 10 + d, k) == Scaled(x, k - 1) + Scaled(d, k)
  {
    ScaledAdd(x * 10, d, k);
    ScaledTen(x, k);
  }

  /** Digits of n with a ',' between every group of three. */
  function Grouped(n: nat): (s: string)
    ensures |s| > 0 && AllInAmountClass(s) && IsDigit(s[0])
    decreases n
  {
    if n < 1000 then Digits(n)
    else Grouped(n / 1000) + "," + Padded(n % 1000, 3)
  }

  /** Removing the separators from the grouped digits gives digits that
      denote n again, starting with the same digit. */
  lemma {:induction false} GroupedStrip(n: nat)
    ensures AllDigits(StripCommas(Grouped(n)))
    ensures DigitsValue(StripCommas(Grouped(n))) == n
    ensures |StripCommas(Grouped(n))| > 0 && StripCommas(Grouped(n))[0] == Grouped(n)[0]
    decreases n
  {
    if n < 1000 {
      StripCommasPlain(Digits(n));
    } else {
      var q, r := n / 1000, n % 1000;
      assert Pow10(3) == 1000;
      PaddedValue(r, 3);
      GroupedStrip(q);
      assert Grouped(n) == Grouped(q) + "," + Padded(r, 3);
      GroupStep(Grouped(q), Padded(r, 3), q, r);
      assert n == q * 1000 + r;
    }
  }

  /** One separator step of GroupedStrip: a group of three digits after a
      comma shifts the value of the head by 1000. */
  lemma GroupStep(head: string, tail: string, hv: nat, tv: nat)
    requires var h := StripCommas(head);
      |h| > 0 && AllDigits(h) && DigitsValue(h) == hv && h[0] == head[0]
    requires |tail| == 3 && AllDigits(tail) && DigitsValue(tail) == tv
    ensures var g := StripCommas(head + "," + tail);
      |g| > 0 && AllDigits(g) && DigitsValue(g) == hv * 1000 + tv && g[0] == (head + "," + tail)[0]
  {
    var h := StripCommas(head);
    StripGroup(head, tail);
    GroupValue(h, tail, hv, tv);
    assert |head| > 0;
    assert (head + "," + tail)[0] == head[0];
  }

  lemma StripGroup(head: string, tail: string)
    requires AllDigits(tail)
    ensures StripCommas(head + "," + tail) == StripCommas(head) + tail
  {
    var sep := "," + tail;
    assert sep[0] == ',' && sep[1..] == tail;
    assert StripCommas(sep) == StripCommas(tail);
    StripCommasPlain(tail);
    assert head + "," + tail == head + sep;
    StripCommasAppend(head, sep);
  }

  lemma GroupValue(h: string, tail: string, hv: nat, tv: nat)
    requires |h| > 0 && AllDigits(h) && DigitsValue(h) == hv
    requires |tail| == 3 && AllDigits(tail) && DigitsValue(tail) == tv
    ensures |h + tail| > 0 && AllDigits(h + tail) && DigitsValue(h + tail) == hv * 1000 + tv
    ensures (h + tail)[0] == h[0]
  {
    DigitsValueAppend(h, tail);
    assert Pow10(3) == 1000;
  }



  /** The unsigned part of a printed amount a / 10^k: the whole part,
      grouped or not, then k decimals when k > 0. */
  function AmountBody(a: nat, k: nat, grouped: bool): string {
    var whole := WholePart(a, k);
    var digits := if grouped then Grouped(whole) else Digits(whole);
    if k == 0 then digits else digits + "." + Padded(a, k)
  }

  /** The page's rendering of the amount m / 10^k: k decimals, thousands
      separators when grouped, and an outflow in parentheses. */
  function Accounting(m: int, k: nat, grouped: bool): string {
    if m < 0 then Enclosed(AmountBody(-m, k, grouped)) else AmountBody(m, k, grouped)
  }

  /** How an outflow is marked: in parentheses. */
  function Enclosed(body: string): string {
    "(" + body + ")"
  }

  /** The whole part of a printed amount, grouped or not, loses its
      separators and denotes the whole part again. */
  lemma WholeDigits(whole: nat, grouped: bool)
    ensures var plain := StripCommas(if grouped then Grouped(whole) else Digits(whole));
      |plain| > 0 && AllDigits(plain) && DigitsValue(plain) == whole
  {
    if grouped {
      GroupedStrip(whole);
    } else {
      StripCommasPlain(Digits(whole));
    }
  }

  lemma StripBeforeFraction(digits: string, fracText: string)
    requires AllDigits(fracText)
    ensures StripCommas(digits + "." + fracText) == StripCommas(digits) + "." + fracText
  {
    var tail := "." + fracText;
    assert digits + "." + fracText == digits + tail;
    StripCommasAppend(digits, tail);
    forall k | 0 <= k < |tail| ensures tail[k] != ',' {
      if k > 0 {
        assert tail[k] == fracText[k - 1];
      }
    }
    StripCommasPlain(tail);
    assert StripCommas(digits) + tail == StripCommas(digits) + "." + fracText;
  }


  /** The printed body is an amount the outflow pattern can enclose, and
      without its separators it parses back to a / 10^k. */
  predicate BodyParses(body: string, a: nat, k: nat) {
    && |body| > 0 && AllInAmountClass(body)
    && |StripCommas(body)| > 0 && IsDigit(StripCommas(body)[0])
    && ParseUnsigned(StripCommas(body)) == Some(Scaled(a, k))
  }

  lemma AmountBodyParses(a: nat, k: nat, grouped: bool)
    ensures BodyParses(AmountBody(a, k, grouped), a, k)
  {
    var whole := WholePart(a, k);
    var frac := DigitsValue(Padded(a, k));
    var digits := if grouped then Grouped(whole) else Digits(whole);
    WholeDigits(whole, grouped);
    DecimalSplit(a, k);
    if k == 0 {
      WholeBodyParses(digits, a, whole, frac);
    } else {
      FractionBodyParses(digits, Padded(a, k), a, k, whole, frac);
    }
  }

  lemma WholeBodyParses(digits: string, a: nat, whole: nat, frac: nat)
    requires |digits| > 0 && AllInAmountClass(digits) && IsDigit(digits[0])
    requires var plain := StripCommas(digits); |plain| > 0 && AllDigits(plain) && DigitsValue(plain) == whole
    requires whole as real + Scaled(frac, 0) == Scaled(a, 0) && frac == 0
    ensures BodyParses(digits, a, 0)
  {
    ParseWhole(StripCommas(digits));
  }

  lemma FractionBodyParses(digits: string, fracText: string, a: nat, k: nat, whole: nat, frac: nat)
    requires |digits| > 0 && AllInAmountClass(digits) && IsDigit(digits[0])
    requires var plain := StripCommas(digits); |plain| > 0 && AllDigits(plain) && DigitsValue(plain) == whole
    requires |fracText| == k && AllDigits(fracText) && DigitsValue(fracText) == frac
    requires whole as real + Scaled(frac, k) == Scaled(a, k)
    ensures BodyParses(digits + "." + fracText, a, k)
  {
    var plain := StripCommas(digits);
    StripBeforeFraction(digits, fracText);
    FractionValue(plain, fracText, a, k, whole, frac);
    FractionInAmountClass(digits, fracText);
  }

  /** The digits of an amount, a dot and its decimals parse to its value
      and start with a digit. */
  lemma FractionValue(plain: string, fracText: string, a: nat, k: nat, whole: nat, frac: nat)
    requires |plain| > 0 && AllDigits(plain) && DigitsValue(plain) == whole
    requires |fracText| == k && AllDigits(fracText) && DigitsValue(fracText) == frac
    requires whole as real + Scaled(frac, k) == Scaled(a, k)
    ensures ParseUnsigned(plain + "." + fracText) == Some(Scaled(a, k))
    ensures |plain + "." + fracText| > 0 && IsDigit((plain + "." + fracText)[0])
  {
    ParseFraction(plain, fracText);
    assert (plain + "." + fracText)[0] == plain[0];
  }

  lemma FractionInAmountClass(digits: string, fracText: string)
    requires AllInAmountClass(digits) && AllDigits(fracText)
    ensures AllInAmountClass(digits + "." + fracText)
  {
    var body := digits + "." + fracText;
    forall i | 0 <= i < |body| ensures InAmountClass(body[i]) {
      if i < |digits| {
        assert body[i] == digits[i];
      } else if i > |digits| {
        assert body[i] == fracText[i - |digits| - 1];
      }
    }
  }

  lemma {:induction false} NoParenInAmount(t: string)
    requires AllInAmountClass(t)
    ensures forall i :: 0 <= i < |t| ==> t[i] != '('
  {
  }

  lemma NegatedSign(t: string)
    requires |t| > 0 && IsDigit(t[0])
    ensures ParseNumber("-" + t) == (match ParseUnsigned(t) case Some(v) => Some(-v) case None => None)
    ensures "-" + t != "-"
  {
    assert ("-" + t)[1..] == t;
  }

  /** The exact amount m / 10^k. */
  function Amount(m: int, k: nat): real {
    if m < 0 then -Scaled(-m, k) else Scaled(m, k)
  }

  /** Amount(m, k) is m / 10^k: scaling it back by 10^k gives m. */
  lemma AmountTimesPow10(m: int, k: nat)
    ensures Amount(m, k) * Pow10(k) as real == m as real
  {
    if m < 0 {
      ScaledTimesPow10(-m, k);
    } else {
      ScaledTimesPow10(m, k);
    }
  }

  /** What happens to a text cell: the dash placeholder becomes zero and
      any other rewritten text goes to the parser. */
  lemma CleanAmountText(s: string)
    ensures CleanAmount(Text(s))
         == if Rewritten(s) == "-" then Some(0.0) else ParseNumber(Rewritten(s))
  {
  }

  /** A parenthesised amount is rewritten to the same amount, separators
      removed, with a leading minus. */
  lemma RewriteOutflow(body: string)
    requires |body| > 0 && AllInAmountClass(body)
    ensures Rewritten("(" + body + ")") == "-" + StripCommas(body)
  {
    assert "(" + body + ")" == "(" + body + ")" + [];
    NegateParensWrapped(body, []);
    assert NegateParens("(" + body + ")") == "-" + body;
    StripCommasAppend("-", body);
  }

  lemma CleansTo(s: string, t: string, v: real)
    requires Rewritten(s) == t && |t| > 0 && IsDigit(t[0]) && ParseUnsigned(t) == Some(v)
    ensures CleanAmount(Text(s)) == Some(v)
  {
    CleanAmountText(s);
  }

  lemma CleansToNegated(s: string, t: string, v: real)
    requires Rewritten(s) == "-" + t && |t| > 0 && IsDigit(t[0]) && ParseUnsigned(t) == Some(v)
    ensures CleanAmount(Text(s)) == Some(-v)
  {
    CleanAmountText(s);
    NegatedSign(t);
  }

  /** A parenthesised body cleans to the negated amount. */
  lemma OutflowCleans(body: string, a: nat, k: nat)
    requires BodyParses(body, a, k)
    ensures CleanAmount(Text(Enclosed(body))) == Some(-Scaled(a, k))
  {
    RewriteOutflow(body);
    CleansToNegated("(" + body + ")", StripCommas(body), Scaled(a, k));
  }

  /** A bare body cleans to the amount itself. */
  lemma InflowCleans(body: string, a: nat, k: nat)
    requires BodyParses(body, a, k)
    ensures CleanAmount(Text(body)) == Some(Scaled(a, k))
  {
    NoParenInAmount(body);
    NegateParensPlain(body);
    CleansTo(body, StripCommas(body), Scaled(a, k));
  }

  lemma OutflowRoundTrip(a: nat, k: nat, grouped: bool)
    ensures CleanAmount(Text(Enclosed(AmountBody(a, k, grouped)))) == Some(-Scaled(a, k))
  {
    AmountBodyParses(a, k, grouped);
    OutflowCleans(AmountBody(a, k, grouped), a, k);
  }

  lemma InflowRoundTrip(m: nat, k: nat, grouped: bool)
    ensures CleanAmount(Text(Accounting(m, k, grouped))) == Some(Amount(m, k))
  {
    AmountBodyParses(m, k, grouped);
    InflowCleans(AmountBody(m, k, grouped), m, k);
  }

  /** Cleaning undoes the page's formatting: whatever grouping and sign
      style is used, the cell cleans to the exact amount printed. Thousands
      separators never change the value. */
  lemma AccountingRoundTrip(m: int, k: nat, grouped: bool)
    ensures CleanAmount(Text(Accounting(m, k, grouped))) == Some(Amount(m, k))
  {
    if m < 0 {
      AccountingOutflow(m, k, grouped);
    } else {
      InflowRoundTrip(m, k, grouped);
    }
  }

  lemma AccountingOutflow(m: int, k: nat, grouped: bool)
    requires m < 0
    ensures CleanAmount(Text(Accounting(m, k, grouped))) == Some(Amount(m, k))
  {
    var a: nat := -m;
    assert Amount(m, k) == -Scaled(a, k);
    assert Accounting(m, k, grouped) == Enclosed(AmountBody(a, k, grouped));
    OutflowRoundTrip(a, k, grouped);
  }

  /** A sample outflow, -1234.5 printed with one
      decimal and separators. */
  lemma ExampleOutflow()
    ensures CleanAmount(Text("(1,234.5)")) == Some(-1234.5)
  {
    AccountingRoundTrip(-12345, 1, true);
    PrintedOutflow();
    assert Scaled(12345, 1) == 1234.5;
  }

  lemma PrintedOutflow()
    ensures Accounting(-12345, 1, true) == "(1,234.5)"
  {
    assert Accounting(-12345, 1, true) == Enclosed(AmountBody(12345, 1, true));
    assert WholePart(12345, 1) == 1234;
    assert AmountBody(12345, 1, true) == Grouped(1234) + "." + Padded(12345, 1);
    PaddedDigits();
    GroupedSample();
    SampleText("1,234", "5");
  }

  lemma SampleText(whole: string, frac: string)
    requires whole == "1,234" && frac == "5"
    ensures Enclosed(whole + "." + frac) == "(1,234.5)"
  {
  }

  lemma PaddedDigits()
    ensures Padded(12345, 1) == "5"
    ensures Padded(234, 3) == "234"
  {
    assert Padded(2, 1) == ['2'];
    assert Padded(23, 2) == ['2', '3'];
    assert Padded(234, 3) == ['2', '3', '4'];
    assert Padded(12345, 1) == ['5'];
  }

  lemma GroupedSample()
    ensures Grouped(1234) == "1,234"
  {
    PaddedDigits();
    assert Grouped(1234) == Digits(1) + "," + Padded(234, 3);
    assert Digits(1) == ['1'];
    assert ['1'] + "," + "234" == "1,234";
  }

  lemma ExamplePlaceholder()
    ensures CleanAmount(Text("-")) == Some(0.0)
  {
    NegateParensPlain("-");
    StripCommasPlain("-");
  }

  lemma ExampleInflow()
    ensures CleanAmount(Text("500")) == Some(500.0)
  {
    AccountingRoundTrip(500, 0, false);
    PrintedInflow();
    assert Amount(500, 0) == 500.0;
  }

  lemma PrintedInflow()
    ensures Accounting(500, 0, false) == "500"
  {
    assert Accounting(500, 0, false) == Digits(500);
    assert Digits(5) == ['5'];
    assert Digits(50) == ['5', '0'];
    assert Digits(500) == ['5', '0', '0'];
  }

  /** The class accepts a comma-only amount, so "(,)" becomes "-," and then
      the placeholder "-": such a cell counts as zero rather than failing. */
  lemma CommaOnlyParensIsZero()
    ensures CleanAmount(Text("(,)")) == Some(0.0)
  {
    NegateParensWrapped(",", "");
    assert "(" + "," + ")" + "" == "(,)";
    assert StripCommas("-,") == "-";
  }

  /** A sign minus is not the placeholder: "-5" stays -5. */
  lemma ExampleSignedMinus()
    ensures CleanAmount(Text("-5")) == Some(-5.0)
  {
    CleanAmountPlain("-5");
    assert "-5" == "-" + "5";
    NegatedSign("5");
    ParseWhole("5");
  }

  /** An opening parenthesis not followed by an amount character starts
      no match and stays at the front of the rewritten text, so such a
      cell never cleans, whatever follows it. */
  lemma UnmatchedParenFails(t: string)
    requires |t| > 0 && !InAmountClass(t[0])
    ensures |Rewritten("(" + t)| > 0 && Rewritten("(" + t)[0] == '('
    ensures CleanAmount(Text("(" + t)) == None
  {
    var s := "(" + t;
    assert s[1..] == t;
    assert RunEnd(s, 1) == 1;
    assert NegateParens(s) == "(" + NegateParens(t);
    StripCommasAppend("(", NegateParens(t));
    assert StripCommas("(") == "(";
    var w := Rewritten(s);
    assert w == "(" + StripCommas(NegateParens(t));
    assert !IsSign(w[0]) && !IsDigit(w[0]) && w[0] != '.';
    assert !IsUnsignedText(w);
  }

  /** An opening parenthesis not followed by an amount character is kept,
      with the text after it when that holds no '(' and no ','. */
  lemma UnmatchedParenKept(t: string)
    requires |t| > 0 && !InAmountClass(t[0])
    requires forall k :: 0 <= k < |t| ==> t[k] != '(' && t[k] != ','
    ensures Rewritten("(" + t) == "(" + t
    ensures CleanAmount(Text("(" + t)) == None
  {
    var s := "(" + t;
    assert s[1..] == t;
    assert RunEnd(s, 1) == 1;
    assert NegateParens(s) == [s[0]] + NegateParens(t);
    NegateParensPlain(t);
    forall k | 0 <= k < |s| ensures s[k] != ',' {
      if k > 0 {
        assert s[k] == t[k - 1];
      }
    }
    StripCommasPlain(s);
    UnmatchedParenFails(t);
  }

  /** "(n/a)" is not rewritten and does not clean. */
  lemma ExampleNotAmount()
    ensures Rewritten("(n/a)") == "(n/a)"
    ensures CleanAmount(Text("(n/a)")) == None
  {
    UnmatchedParenKept("n/a)");
    assert "(" + "n/a)" == "(n/a)";
  }

  /** Thousands separators never change the value of a printed amount. */
  lemma SeparatorsIrrelevant(m: int, k: nat)
    ensures CleanAmount(Text(Accounting(m, k, true))) == CleanAmount(Text(Accounting(m, k, false)))
  {
    AccountingRoundTrip(m, k, true);
    AccountingRoundTrip(m, k, false);
  }
}
