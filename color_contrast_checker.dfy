/** The contrast-result classifier (utility/colorContrastChecker.js): cleans two CSS colour
    strings, parses them, refuses a translucent background, composites a translucent foreground
    over the background and reports the WCAG 2.1 contrast ratio of the pair. */
module ColorContrastChecker {
  import opened Js

  /** `ErrorTypes`. The source's `None` member is called `NoError` here. */
  datatype ErrorType = ParsingError | BackgroundTransparencyError | NoError

  /** The numeric value each `ErrorTypes` member has in the source. */
  function ErrorCode(t: ErrorType): (code: nat)
    ensures code <= 2
  {
    match t
    case ParsingError => 0
    case BackgroundTransparencyError => 1
    case NoError => 2
  }

  /** The reverse mapping the compiled enum also builds (`ErrorTypes[0] === 'ParsingError'`):
      a code names a member exactly when it is one of the three codes, and then the member
      that carries it. */
  function ErrorTypeOfCode(code: int): (t: Option<ErrorType>)
    ensures t.Some? <==> 0 <= code <= 2
    ensures t.Some? ==> ErrorCode(t.value) == code
  {
    if code == 0 then Some(ParsingError)
    else if code == 1 then Some(BackgroundTransparencyError)
    else if code == 2 then Some(NoError)
    else None
  }

  /** The two directions of the enum agree: every member is found again from its code, so no
      two members share a code. */
  lemma ErrorCodeRoundTrip(t: ErrorType, u: ErrorType)
    ensures ErrorTypeOfCode(ErrorCode(t)) == Some(t)
    ensures ErrorCode(t) == ErrorCode(u) ==> t == u
  {
    match t
    case ParsingError =>
    case BackgroundTransparencyError =>
    case NoError =>
  }

  /** A colour as the `color` package holds it: red, green and blue channels and an alpha. */
  datatype Rgba = Rgba(red: real, green: real, blue: real, alpha: real)

  /** The two parts of the `color` package the checker calls: `Color(s)`, which parses a CSS
      colour string and throws on one it cannot parse, and `a.contrast(b)`, the WCAG 2.1
      contrast ratio. Both are foreign code and stay abstract. */
  datatype ColorLibrary = ColorLibrary(parse: string -> Option<Rgba>, contrast: (Rgba, Rgba) -> real)

  /** `{error, errorType, contrastRatio}`, with `null` as `None`. */
  datatype ContrastResult = ContrastResult(error: bool, errorType: ErrorType, contrastRatio: Option<real>)

  const Important: string := "!important"

  /** `s.replace('!important', '').trim()`. */
  function Clean(s: string): string
  {
    Trim(RemoveFirst(s, Important))
  }

  /** `x` lies between `a` and `b`, whichever is larger. */
  predicate Between(x: real, a: real, b: real)
  {
    (a <= x <= b) || (b <= x <= a)
  }

  /** One channel of the foreground laid over the background with the foreground's alpha. */
  function Blend(f: real, b: real, alpha: real): real
  {
    f * alpha + b * (1.0 - alpha)
  }

  /** The foreground composited channel by channel over the background, then made opaque. Each
      channel is blended with the foreground's own alpha, which the source sets to 1 only after
      the three channels. */
  function Composite(fg: Rgba, bg: Rgba): Rgba
  {
    Rgba(Blend(fg.red, bg.red, fg.alpha), Blend(fg.green, bg.green, fg.alpha),
         Blend(fg.blue, bg.blue, fg.alpha), 1.0)
  }

  /** The colour whose contrast is measured: a translucent foreground is composited first. */
  function EffectiveForeground(fg: Rgba, bg: Rgba): Rgba
  {
    if fg.alpha < 1.0 then Composite(fg, bg) else fg
  }

  /** `checkColorContrast(foregroundColor, backgroundColor)`. A parse failure of either string
      is reported first, then a translucent background; otherwise the ratio is the library's
      contrast of the background with the effective foreground. */
  function CheckColorContrast(lib: ColorLibrary, foreground: string, background: string): (r: ContrastResult)
    ensures r.error <==> r.errorType != NoError
    ensures r.error <==> r.contrastRatio.None?
    ensures r.errorType == ParsingError <==>
      lib.parse(Clean(foreground)).None? || lib.parse(Clean(background)).None?
    ensures r.errorType == BackgroundTransparencyError <==>
      && lib.parse(Clean(foreground)).Some? && lib.parse(Clean(background)).Some?
      && lib.parse(Clean(background)).value.alpha < 1.0
    ensures !r.error ==>
      var fg, bg := lib.parse(Clean(foreground)).value, lib.parse(Clean(background)).value;
      r.contrastRatio == Some(lib.contrast(bg, EffectiveForeground(fg, bg)))
  {
    var fg := lib.parse(Clean(foreground));
    var bg := lib.parse(Clean(background));
    if fg.None? || bg.None? then
      ContrastResult(true, ParsingError, None)
    else if bg.value.alpha < 1.0 then
      ContrastResult(true, BackgroundTransparencyError, None)
    else
      ContrastResult(false, NoError, Some(lib.contrast(bg.value, EffectiveForeground(fg.value, bg.value))))
  }

  /** Compositing with an alpha between 0 and 1 gives an opaque colour each of whose channels lies
      between the foreground's and the background's, so it stays in the channels' range. */
  lemma CompositeBetween(fg: Rgba, bg: Rgba)
    requires 0.0 <= fg.alpha <= 1.0
    ensures Composite(fg, bg).alpha == 1.0
    ensures Between(Composite(fg, bg).red, fg.red, bg.red)
    ensures Between(Composite(fg, bg).green, fg.green, bg.green)
    ensures Between(Composite(fg, bg).blue, fg.blue, bg.blue)
  {
    BlendBetween(fg.red, bg.red, fg.alpha);
    BlendBetween(fg.green, bg.green, fg.alpha);
    BlendBetween(fg.blue, bg.blue, fg.alpha);
  }

  lemma BlendBetween(f: real, b: real, alpha: real)
    requires 0.0 <= alpha <= 1.0
    ensures Between(Blend(f, b, alpha), f, b)
  {
    var d := f - b;
    assert Blend(f, b, alpha) == b + d * alpha;
    assert d * alpha - d == d * (alpha - 1.0);
    if d <= 0.0 {
      assert d * alpha <= 0.0;
      assert d * (alpha - 1.0) >= 0.0;
    } else {
      assert d * alpha >= 0.0;
      assert d * (alpha - 1.0) <= 0.0;
    }
  }

  /** An opaque foreground is measured as parsed; a fully transparent one takes the background's
      channels, so it is measured against itself. */
  lemma EffectiveForegroundExtremes(fg: Rgba, bg: Rgba)
    ensures fg.alpha >= 1.0 ==> EffectiveForeground(fg, bg) == fg
    ensures fg.alpha == 0.0 ==> EffectiveForeground(fg, bg) == bg.(alpha := 1.0)
  {
  }

  /** A parse failure wins over every alpha test: whatever colour the other string names, the
      result is a parsing error with no ratio. */
  lemma ParseFailureFirst(lib: ColorLibrary, foreground: string, background: string)
    requires lib.parse(Clean(foreground)).None? || lib.parse(Clean(background)).None?
    ensures CheckColorContrast(lib, foreground, background) == ContrastResult(true, ParsingError, None)
  {
  }

  /** `'!'` opens `'!important'` and appears nowhere else in it. */
  lemma ImportantHasOneBang()
    ensures Important[0] == '!'
    ensures forall k :: 0 < k < |Important| ==> Important[k] != '!'
  {
    assert Important == ['!', 'i', 'm', 'p', 'o', 'r', 't', 'a', 'n', 't'];
  }

  /** No occurrence of a pattern `p` whose first character appears nowhere else in it starts
      inside `t` once `p` is appended to a `t` that does not hold it: an occurrence wholly inside
      `t` is excluded, and one straddling the seam would need a second copy of `p[0]`. */
  lemma NotInside(t: string, p: string, j: nat)
    requires |p| > 0 && forall k :: 0 < k < |p| ==> p[k] != p[0]
    requires forall i :: 0 <= i ==> !OccursAt(t, p, i)
    requires j < |t|
    ensures !OccursAt(t + p, p, j)
  {
    var s := t + p;
    var n := |p|;
    if j + n <= |t| {
      assert s[j..j + n] == t[j..j + n];
      assert !OccursAt(t, p, j);
    } else if j + n <= |s| {
      var k := |t| - j;
      assert s[|t|] == p[0];
      assert s[j..j + n][k] == s[|t|];
      assert s[j..j + n][k] != p[k];
    }
  }

  /** `'!important'` never overlaps itself, so appended to a string that does not hold it, it is
      the occurrence `replace` removes; the colour before it is what gets parsed. */
  lemma ImportantSuffixRemoved(t: string)
    requires IndexOf(t, Important, 0).None?
    ensures RemoveFirst(t + Important, Important) == t
    ensures Clean(t + Important) == Trim(t)
  {
    var s := t + Important;
    assert OccursAt(s, Important, |t|) by {
      assert s[|t|..|t| + |Important|] == Important;
    }
    IndexOfSpec(t, Important, 0);
    ImportantHasOneBang();
    forall j | 0 <= j < |t|
      ensures !OccursAt(s, Important, j)
    {
      NotInside(t, Important, j);
    }
    IndexOfFindsFirst(s, Important, 0, |t|);
    assert s[..|t|] == t;
    assert s[|t| + |Important|..] == [];
    assert RemoveFirst(s, Important) == t + [];
  }
}
