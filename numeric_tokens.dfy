/** The numeric parse that the target-size check and the easy-language font-size check share:
    `+value.match(/\d*\.{0,1}\d+/g)?.join('')`. The global match is modelled as the regex engine
    runs it (leftmost, greedy, with backtracking), and `Number(...)` of the joined matches as a
    decimal literal. */
module NumericTokens {
  import opened Js

  /** A JavaScript number as far as these checks need one: a finite value or NaN. */
  datatype JsNumber = Num(value: real) | NaN

  /** `n < k` in JavaScript: every comparison with NaN is false. */
  predicate LessThan(n: JsNumber, k: real)
  {
    n.Num? && n.value < k
  }

  /** `!n` in JavaScript: 0 and NaN are the falsy numbers. */
  predicate IsFalsy(n: JsNumber)
  {
    n == NaN || n == Num(0.0)
  }

  predicate IsDigit(c: char)
  {
    '0' <= c <= '9'
  }

  /** Length of the run of digits in `s` that starts at `p`. */
  function DigitRun(s: string, p: nat): (n: nat)
    requires p <= |s|
    decreases |s| - p
    ensures p + n <= |s|
    ensures forall q :: p <= q < p + n ==> IsDigit(s[q])
    ensures p + n < |s| ==> !IsDigit(s[p + n])
  {
    if p < |s| && IsDigit(s[p]) then 1 + DigitRun(s, p + 1) else 0
  }

  /** End of the match of `\d*\.?\d+` that starts at `p`, if one does. `\d*` first takes the
      whole run of digits; `\.?` then takes a dot when a digit follows it, and `\d+` the digits
      after it; otherwise the engine backtracks `\d*` by one digit so that `\d+` can take the
      last digit of the run, and a run of no digits gives no match. */
  function MatchAt(s: string, p: nat): (e: Option<nat>)
    requires p < |s|
    ensures e.Some? ==> p < e.value <= |s|
    ensures e.Some? ==> forall q :: p <= q < e.value ==> Kept(s, q)
    ensures e.Some? ==> e.value == |s| || !Kept(s, e.value) || s[e.value] == '.'
    ensures e.None? <==> !Kept(s, p)
    ensures e.Some? ==> IsDigit(s[e.value - 1])
    ensures e.Some? ==> forall q, q' :: p <= q < q' < e.value && s[q] == '.' ==> IsDigit(s[q'])
  {
    var n := DigitRun(s, p);
    if p + n + 1 < |s| && s[p + n] == '.' && IsDigit(s[p + n + 1]) then
      Some(p + n + 1 + DigitRun(s, p + n + 1))
    else if n > 0 then
      Some(p + n)
    else
      None
  }

  /** The matches of the global regex in `s` from index `p` on, in order. */
  function TokensFrom(s: string, p: nat): seq<string>
    requires p <= |s|
    decreases |s| - p
  {
    if p == |s| then []
    else
      match MatchAt(s, p)
      case Some(e) => [s[p..e]] + TokensFrom(s, e)
      case None => TokensFrom(s, p + 1)
  }

  /** `tokens.join('')`. */
  function Concat(ts: seq<string>): string
  {
    if ts == [] then [] else ts[0] + Concat(ts[1..])
  }

  /** A character some match covers: a digit, or a dot immediately followed by a digit. */
  predicate Kept(s: string, q: nat)
    requires q < |s|
  {
    IsDigit(s[q]) || (s[q] == '.' && q + 1 < |s| && IsDigit(s[q + 1]))
  }

  /** The characters of `s` from index `p` on that some match covers. */
  function KeptFrom(s: string, p: nat): (r: string)
    requires p <= |s|
    decreases |s| - p
    ensures forall k :: 0 <= k < |r| ==> IsDigit(r[k]) || r[k] == '.'
  {
    if p == |s| then [] else (if Kept(s, p) then [s[p]] else []) + KeptFrom(s, p + 1)
  }

  /** When every character of `s[p..e]` is kept, `KeptFrom` takes the whole slice. */
  lemma {:induction false} KeptSlice(s: string, p: nat, e: nat)
    requires p <= e <= |s|
    requires forall q :: p <= q < e ==> Kept(s, q)
    ensures KeptFrom(s, p) == s[p..e] + KeptFrom(s, e)
    decreases e - p
  {
    if p < e {
      KeptSlice(s, p + 1, e);
      assert s[p..e] == [s[p]] + s[p + 1..e];
    }
  }

  /** The joined matches of the global regex are exactly the digits of `s` and the dots that
      precede a digit, in order; and the match is `null` exactly when there are none. */
  lemma {:induction false} TokensAreKeptCharacters(s: string, p: nat)
    requires p <= |s|
    ensures Concat(TokensFrom(s, p)) == KeptFrom(s, p)
    ensures TokensFrom(s, p) == [] <==> KeptFrom(s, p) == []
    decreases |s| - p
  {
    if p < |s| {
      match MatchAt(s, p)
      case Some(e) =>
        TokensAreKeptCharacters(s, e);
        KeptSlice(s, p, e);
        var ts := TokensFrom(s, p);
        assert ts == [s[p..e]] + TokensFrom(s, e);
        assert ts[1..] == TokensFrom(s, e);
        assert Concat(ts) == s[p..e] + Concat(TokensFrom(s, e));
        assert |s[p..e]| > 0;
      case None =>
        TokensAreKeptCharacters(s, p + 1);
    }
  }

  /** The numeric value of a string of decimal digits. */
  function DigitsValue(d: string): (v: nat)
    requires forall k :: 0 <= k < |d| ==> IsDigit(d[k])
  {
    if d == [] then 0
    else
      assert IsDigit(d[|d| - 1]);
      10 * DigitsValue(d[..|d| - 1]) + (d[|d| - 1] as int - '0' as int)
  }

  function Pow10(n: nat): (r: nat)
    ensures r >= 1
  {
    if n == 0 then 1 else 10 * Pow10(n - 1)
  }

  /** The value of a decimal literal `whole.fraction`. */
  function LiteralValue(whole: string, fraction: string): (v: real)
    requires forall k :: 0 <= k < |whole| ==> IsDigit(whole[k])
    requires forall k :: 0 <= k < |fraction| ==> IsDigit(fraction[k])
    ensures v >= DigitsValue(whole) as real
  {
    var scaled := DigitsValue(fraction) as real / Pow10(|fraction|) as real;
    assert scaled >= 0.0;
    DigitsValue(whole) as real + scaled
  }

  /** `Number(t)` for a string of digits and dots: a decimal literal with at most one dot, whose
      digits may be missing on one side of the dot but not on both; anything else is NaN. */
  function ToNumber(t: string): (n: JsNumber)
    requires forall k :: 0 <= k < |t| ==> IsDigit(t[k]) || t[k] == '.'
    ensures n.Num? ==> n.value >= 0.0
    ensures (forall k :: 0 <= k < |t| ==> IsDigit(t[k])) ==> n == Num(DigitsValue(t) as real)
  {
    SingleCharOccurrences(t, '.');
    IndexOfSpec(t, ".", 0);
    match IndexOf(t, ".", 0)
    case None =>
      Num(DigitsValue(t) as real)
    case Some(i) =>
      IndexOfSpec(t, ".", i + 1);
      if IndexOf(t, ".", i + 1).Some? || t == "." then NaN
      else
        var whole := t[..i];
        var fraction := t[i + 1..];
        assert forall k :: 0 <= k < |fraction| ==> fraction[k] == t[i + 1 + k];
        Num(LiteralValue(whole, fraction))
  }

  /** `Number` of the joined matches is NaN exactly when they hold two dots or are a lone dot. */
  lemma ToNumberNaN(t: string)
    requires forall k :: 0 <= k < |t| ==> IsDigit(t[k]) || t[k] == '.'
    ensures ToNumber(t) == NaN <==> (exists i, j :: 0 <= i < j < |t| && t[i] == '.' && t[j] == '.') || t == "."
  {
    SingleCharOccurrences(t, '.');
    IndexOfSpec(t, ".", 0);
    if IndexOf(t, ".", 0).Some? {
      var i := IndexOf(t, ".", 0).value;
      IndexOfSpec(t, ".", i + 1);
      if IndexOf(t, ".", i + 1).Some? {
        var j := IndexOf(t, ".", i + 1).value;
        assert t[i] == '.' && t[j] == '.';
      }
    }
  }

  /** A literal with one dot: the digits before it give the whole part, the digits after it
      the fraction. */
  lemma ToNumberDecimal(whole: string, fraction: string)
    requires forall k :: 0 <= k < |whole| ==> IsDigit(whole[k])
    requires forall k :: 0 <= k < |fraction| ==> IsDigit(fraction[k])
    requires whole != [] || fraction != []
    ensures var t := whole + "." + fraction;
      && (forall k :: 0 <= k < |t| ==> IsDigit(t[k]) || t[k] == '.')
      && ToNumber(t) == Num(LiteralValue(whole, fraction))
  {
    var t := whole + "." + fraction;
    var i := |whole|;
    forall k | 0 <= k < |t| && k != i
      ensures IsDigit(t[k])
    {
      if k < i {
        assert t[k] == whole[k];
      } else {
        assert t[k] == fraction[k - i - 1];
      }
    }
    SingleCharOccurrences(t, '.');
    IndexOfFindsFirst(t, ".", 0, i);
    IndexOfSpec(t, ".", i + 1);
    assert t[..i] == whole;
    assert t[i + 1..] == fraction;
  }

  /** A one-character pattern occurs exactly where that character stands. */
  lemma SingleCharOccurrences(t: string, c: char)
    ensures forall k :: 0 <= k < |t| ==> (OccursAt(t, [c], k) <==> t[k] == c)
    ensures forall k :: |t| <= k ==> !OccursAt(t, [c], k)
  {
    forall k | 0 <= k < |t|
      ensures OccursAt(t, [c], k) <==> t[k] == c
    {
      assert t[k..k + 1] == [t[k]];
    }
  }

  /** `+s.match(/\d*\.{0,1}\d+/g)?.join('')`: NaN when nothing matches (`+undefined`), otherwise
      the number the joined matches spell. */
  function NumberOfMatches(s: string): (n: JsNumber)
    ensures KeptFrom(s, 0) == [] ==> n == NaN
    ensures n.Num? ==> n.value >= 0.0
  {
    var ts := TokensFrom(s, 0);
    TokensAreKeptCharacters(s, 0);
    if ts == [] then NaN else ToNumber(Concat(ts))
  }

  /** A size written as digits followed by a unit without digits, such as `'44px'`, parses to
      the number the digits spell. */
  lemma IntegerWithUnit(digits: string, unit: string)
    requires digits != [] && forall k :: 0 <= k < |digits| ==> IsDigit(digits[k])
    requires forall k :: 0 <= k < |unit| ==> !IsDigit(unit[k])
    ensures NumberOfMatches(digits + unit) == Num(DigitsValue(digits) as real)
  {
    var s := digits + unit;
    KeptOfNumberAndUnit(digits, unit);
    TokensAreKeptCharacters(s, 0);
  }

  /** A size written as a decimal literal followed by a unit without digits, such as
      `'43.5px'` or `'1.2rem'`, parses to the value of the literal. */
  lemma DecimalWithUnit(whole: string, fraction: string, unit: string)
    requires forall k :: 0 <= k < |whole| ==> IsDigit(whole[k])
    requires fraction != [] && forall k :: 0 <= k < |fraction| ==> IsDigit(fraction[k])
    requires forall k :: 0 <= k < |unit| ==> !IsDigit(unit[k])
    ensures NumberOfMatches(whole + "." + fraction + unit) == Num(LiteralValue(whole, fraction))
  {
    var literal := whole + "." + fraction;
    var s := literal + unit;
    KeptOfLiteralAndUnit(whole, fraction, unit);
    TokensAreKeptCharacters(s, 0);
    ToNumberDecimal(whole, fraction);
    assert Concat(TokensFrom(s, 0)) == literal;
  }

  /** The regex keeps exactly the literal of `whole.fraction + unit`. */
  lemma KeptOfLiteralAndUnit(whole: string, fraction: string, unit: string)
    requires forall k :: 0 <= k < |whole| ==> IsDigit(whole[k])
    requires fraction != [] && forall k :: 0 <= k < |fraction| ==> IsDigit(fraction[k])
    requires forall k :: 0 <= k < |unit| ==> !IsDigit(unit[k])
    ensures KeptFrom(whole + "." + fraction + unit, 0) == whole + "." + fraction
  {
    var literal := whole + "." + fraction;
    var s := literal + unit;
    forall k | 0 <= k < |literal|
      ensures Kept(s, k)
    {
      LiteralCharacterKept(whole, fraction, unit, k);
    }
    KeptSlice(s, 0, |literal|);
    assert s[0..|literal|] == literal;
    KeptOfUnit(literal, unit);
  }

  /** Each character of a decimal literal is kept: a digit, or the dot before the first digit of
      the fraction. */
  lemma LiteralCharacterKept(whole: string, fraction: string, unit: string, k: nat)
    requires forall k :: 0 <= k < |whole| ==> IsDigit(whole[k])
    requires fraction != [] && forall k :: 0 <= k < |fraction| ==> IsDigit(fraction[k])
    requires k < |whole| + 1 + |fraction|
    ensures k < |whole + "." + fraction + unit| && Kept(whole + "." + fraction + unit, k)
  {
    var s := whole + "." + fraction + unit;
    var d := |whole|;
    if k < d {
      assert s[k] == whole[k];
    } else if k == d {
      assert s[k] == '.' && s[k + 1] == fraction[0];
    } else {
      assert s[k] == fraction[k - d - 1];
    }
  }

  /** What the regex keeps of `literal + unit` past the literal is what it keeps of `unit`
      alone, which is nothing when `unit` has no digit. */
  lemma KeptOfUnit(literal: string, unit: string)
    requires forall k :: 0 <= k < |unit| ==> !IsDigit(unit[k])
    ensures KeptFrom(literal + unit, |literal|) == []
  {
    var s := literal + unit;
    forall k | |literal| <= k < |s|
      ensures !IsDigit(s[k])
    {
      assert s[k] == unit[k - |literal|];
    }
    NoDigitIsNaN(s, |literal|);
  }

  /** The regex keeps exactly the digits of `digits + unit`. */
  lemma KeptOfNumberAndUnit(digits: string, unit: string)
    requires forall k :: 0 <= k < |digits| ==> IsDigit(digits[k])
    requires forall k :: 0 <= k < |unit| ==> !IsDigit(unit[k])
    ensures KeptFrom(digits + unit, 0) == digits
  {
    var s := digits + unit;
    forall k | 0 <= k < |digits|
      ensures Kept(s, k)
    {
      assert s[k] == digits[k];
    }
    KeptSlice(s, 0, |digits|);
    assert s[0..|digits|] == digits;
    KeptOfUnit(digits, unit);
  }

  /** A value without a digit parses to NaN (`'auto'`, `'none'`, `'inherit'`). */
  lemma {:induction false} NoDigitIsNaN(s: string, p: nat)
    requires p <= |s|
    requires forall k :: p <= k < |s| ==> !IsDigit(s[k])
    ensures KeptFrom(s, p) == []
    ensures p == 0 ==> NumberOfMatches(s) == NaN
    decreases |s| - p
  {
    if p < |s| {
      NoDigitIsNaN(s, p + 1);
    }
  }
}
