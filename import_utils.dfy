/**
 * The import utilities: price sanitising, slugs and derived SKUs, chunking of a
 * list for bulk inserts, and the canonical record behind the row hash.
 */
module ImportUtils {
  import opened Wrappers
  import opened JsText
  import opened JsNumber
  import opened StagedItems

  // ---------------------------------------------------------------- prices

  /** A character the price cleaner deletes: `$`, `,` or whitespace (the class `[$,\s]`). */
  predicate IsPriceNoise(c: char)
  {
    c == '$' || c == ',' || IsWhitespace(c)
  }

  /** `replace(/[$,\s]/g, '')`. */
  function StripPriceNoise(s: string): (r: string)
    ensures |r| <= |s|
    ensures forall i :: 0 <= i < |r| ==> !IsPriceNoise(r[i])
  {
    if s == [] then []
    else if IsPriceNoise(s[0]) then StripPriceNoise(s[1..])
    else [s[0]] + StripPriceNoise(s[1..])
  }

  /**
   * `sanitizePrice`: the empty string gives `null`; otherwise every `$`, `,` and
   * whitespace character is removed, an empty remainder gives `null`, and the rest
   * goes through `parseFloat`, whose NaN becomes `null`.
   */
  function SanitizePrice(priceStr: string): (r: Option<Number>)
    ensures priceStr == [] ==> r == None
    ensures r.Some? ==> !r.value.NaN?
  {
    if priceStr == [] then None
    else
      var cleaned := Trim(StripPriceNoise(priceStr));
      if cleaned == [] then None
      else
        var parsed := ParseFloat(cleaned);
        if parsed.NaN? then None else Some(parsed)
  }

  lemma {:induction false} StripPriceNoiseOfClean(s: string)
    requires forall i :: 0 <= i < |s| ==> !IsPriceNoise(s[i])
    ensures StripPriceNoise(s) == s
  {
    if s != [] {
      StripPriceNoiseOfClean(s[1..]);
    }
  }

  /**
   * Only what is left after deleting `$`, `,` and whitespace matters: the price of a
   * string is the price of its cleaned form.
   */
  lemma SanitizeSeesOnlyCleaned(s: string)
    ensures SanitizePrice(s) == SanitizePrice(StripPriceNoise(s))
  {
    var c := StripPriceNoise(s);
    StripPriceNoiseOfClean(c);
    if c != [] {
      TrimOfTrimmed(c);
    }
  }

  /**
   * `sanitizePrice` gives `null` exactly when nothing is left once `$`, `,` and
   * whitespace are deleted, or when `parseFloat` of what is left is NaN; otherwise
   * it gives that number.
   */
  lemma SanitizeNullIff(s: string)
    ensures SanitizePrice(s).None? <==> StripPriceNoise(s) == [] || ParseFloat(StripPriceNoise(s)).NaN?
    ensures SanitizePrice(s).Some? ==> SanitizePrice(s).value == ParseFloat(StripPriceNoise(s))
  {
    var c := StripPriceNoise(s);
    if c != [] {
      TrimOfTrimmed(c);
    }
  }

  /**
   * A text whose cleaned form starts with a character no number can start with
   * (a letter other than the `I` of `Infinity`, say) is no price: `'abc'` gives `null`.
   */
  lemma SanitizeRejectsNonNumeric(s: string)
    requires StripPriceNoise(s) != []
    requires var c := StripPriceNoise(s)[0]; !IsDigit(c) && c != '.' && c != '+' && c != '-' && c != 'I'
    ensures SanitizePrice(s) == None
  {
    SanitizeNullIff(s);
    NoNumericStartIsNaN(StripPriceNoise(s));
  }

  /** A price whose cleaned form is `whole.frac` is exactly that decimal. */
  lemma {:induction false} SanitizeDecimal(s: string, whole: string, frac: string)
    requires whole != [] && AllDigits(whole) && AllDigits(frac)
    requires StripPriceNoise(s) == whole + "." + frac
    ensures SanitizePrice(s) == Some(Finite(Mantissa(whole, frac)))
  {
    var c := whole + "." + frac;
    assert c[0] == whole[0];
    TrimOfTrimmed(c);
    DecimalParse(whole, frac);
  }

  /** Deleting `$`, `,` and whitespace works character by character. */
  lemma {:induction false} StripPriceNoiseAppend(x: string, y: string)
    ensures StripPriceNoise(x + y) == StripPriceNoise(x) + StripPriceNoise(y)
  {
    if x == [] {
      assert x + y == y;
    } else {
      assert (x + y)[1..] == x[1..] + y;
      StripPriceNoiseAppend(x[1..], y);
    }
  }

  lemma StripNoiseThenDigits(n: char, d: string)
    requires IsPriceNoise(n) && AllDigits(d)
    ensures StripPriceNoise([n] + d) == d
  {
    assert ([n] + d)[1..] == d;
    StripPriceNoiseOfClean(d);
  }

  lemma StripPointThenDigits(d: string)
    requires AllDigits(d)
    ensures StripPriceNoise(['.'] + d) == ['.'] + d
  {
    assert (['.'] + d)[1..] == d;
    StripPriceNoiseOfClean(d);
  }

  /**
   * A peso amount written with a dollar sign and a thousands comma, `$a,b.c`, is the
   * plain decimal `ab.c`.
   */
  lemma SanitizeGroupedDollars(s: string, a: string, b: string, c: string)
    requires a != [] && AllDigits(a) && AllDigits(b) && AllDigits(c)
    requires s == (['$'] + a) + ([','] + b) + (['.'] + c)
    ensures SanitizePrice(s) == Some(Finite(Mantissa(a + b, c)))
  {
    var x, y, z := ['$'] + a, [','] + b, ['.'] + c;
    StripPriceNoiseAppend(x + y, z);
    StripPriceNoiseAppend(x, y);
    StripNoiseThenDigits('$', a);
    StripNoiseThenDigits(',', b);
    StripPointThenDigits(c);
    assert a + b + z == (a + b) + "." + c;
    assert AllDigits(a + b);
    SanitizeDecimal(s, a + b, c);
  }

  /** A plain amount `whole.frac`, with no sign, grouping or currency mark, is that decimal. */
  lemma SanitizePlainDecimal(s: string, whole: string, frac: string)
    requires whole != [] && AllDigits(whole) && AllDigits(frac)
    requires s == whole + "." + frac
    ensures SanitizePrice(s) == Some(Finite(Mantissa(whole, frac)))
  {
    DecimalHasNoNoise(whole, frac);
    StripPriceNoiseOfClean(s);
    SanitizeDecimal(s, whole, frac);
  }

  lemma DecimalHasNoNoise(whole: string, frac: string)
    requires AllDigits(whole) && AllDigits(frac)
    ensures forall i :: 0 <= i < |whole + "." + frac| ==> !IsPriceNoise((whole + "." + frac)[i])
  {
  }

  /** `$1,234.56` is 1234.56. */
  lemma GroupedPriceSample(s: string)
    requires s == "$1,234.56"
    ensures SanitizePrice(s) == Some(Finite(1234.56))
  {
    GroupedPriceSpelling(s);
    SanitizeGroupedDollars(s, "1", "234", "56");
    MantissaSample();
  }

  lemma GroupedPriceSpelling(s: string)
    requires s == "$1,234.56"
    ensures s == (['$'] + "1") + ([','] + "234") + (['.'] + "56")
  {
  }

  lemma MantissaSample()
    ensures Mantissa("1" + "234", "56") == 1234.56
  {
    assert "1" + "234" == "1234";
    assert "1234"[..3] == "123" && "123"[..2] == "12" && "12"[..1] == "1" && "1"[..0] == "";
    assert "56"[..1] == "5" && "5"[..0] == "";
    assert DigitsValue("1234") == 1234 && DigitsValue("56") == 56;
    assert Pow10(2) == 100.0;
  }

  // ---------------------------------------------------------------- slugs

  /** A character `[^\w\s-]` does not delete. */
  predicate IsKeptSlugChar(c: char)
  {
    IsWordChar(c) || IsWhitespace(c) || c == '-'
  }

  /** A character of the class `[\s_-]`. */
  predicate IsSeparator(c: char)
  {
    IsWhitespace(c) || c == '_' || c == '-'
  }

  predicate IsSlugChar(c: char)
  {
    ('a' <= c <= 'z') || IsDigit(c) || c == '-'
  }

  predicate AllSlugChars(s: string)
  {
    forall i :: 0 <= i < |s| ==> IsSlugChar(s[i])
  }

  predicate NoDoubleHyphen(s: string)
  {
    forall i :: 0 <= i < |s| - 1 ==> !(s[i] == '-' && s[i + 1] == '-')
  }

  /** What `slugify` promises of its output: `[a-z0-9-]` only, no hyphen at either end, no two hyphens in a row. */
  predicate IsSlug(s: string)
  {
    AllSlugChars(s) && NoDoubleHyphen(s) && (s != [] ==> s[0] != '-' && s[|s| - 1] != '-')
  }

  /**
   * `replace(/[^\w\s-]/g, '')`: the result holds only `[\w\s-]`, and text made
   * of those characters alone passes unchanged.
   */
  function KeepSlugChars(s: string): (r: string)
    ensures |r| <= |s|
    ensures forall i :: 0 <= i < |r| ==> IsKeptSlugChar(r[i])
    ensures (forall i :: 0 <= i < |s| ==> IsKeptSlugChar(s[i])) ==> r == s
  {
    if s == [] then []
    else if IsKeptSlugChar(s[0]) then [s[0]] + KeepSlugChars(s[1..])
    else KeepSlugChars(s[1..])
  }

  predicate NoCapitals(s: string)
  {
    forall i :: 0 <= i < |s| ==> !('A' <= s[i] <= 'Z')
  }

  /** Characters the filter keeps, none of them an ASCII capital. */
  predicate IsSlugSource(s: string)
  {
    forall i :: 0 <= i < |s| ==> IsKeptSlugChar(s[i]) && !('A' <= s[i] <= 'Z')
  }

  /** The filter keeps only `[\w\s-]`, and adds no capital. */
  lemma {:induction false} KeepSlugCharsShape(s: string)
    requires NoCapitals(s)
    ensures IsSlugSource(KeepSlugChars(s))
  {
    if s != [] {
      KeepSlugCharsShape(s[1..]);
    }
  }

  /** The rest of `s` after its leading run of separators. */
  function DropSeparators(s: string): (r: string)
    ensures |r| <= |s| && r == s[|s| - |r|..]
    ensures r == [] || !IsSeparator(r[0])
  {
    if s != [] && IsSeparator(s[0]) then DropSeparators(s[1..]) else s
  }

  /**
   * `replace(/[\s_-]+/g, '-')`: every maximal run of separators becomes one hyphen.
   * The result is empty only for empty text, starts with a hyphen exactly where the
   * text starts with a separator, has no separator but `-`, and no two in a row.
   */
  function CollapseSeparators(s: string): (r: string)
    ensures |r| <= |s|
    ensures r == [] <==> s == []
    ensures r != [] ==> r[0] == if IsSeparator(s[0]) then '-' else s[0]
    ensures forall i :: 0 <= i < |r| ==> IsSeparator(r[i]) ==> r[i] == '-'
    ensures forall i :: 0 <= i < |r| - 1 ==> !(IsSeparator(r[i]) && IsSeparator(r[i + 1]))
    decreases |s|
  {
    if s == [] then []
    else if IsSeparator(s[0]) then "-" + CollapseSeparators(DropSeparators(s[1..]))
    else [s[0]] + CollapseSeparators(s[1..])
  }

  /**
   * Collapsing text made of `[a-z0-9_\s-]` leaves only `[a-z0-9-]`, no two hyphens
   * in a row, and a leading hyphen only where the text starts with a separator.
   */
  lemma {:induction false} CollapseShape(s: string)
    requires IsSlugSource(s)
    ensures AllSlugChars(CollapseSeparators(s)) && NoDoubleHyphen(CollapseSeparators(s))
    ensures CollapseSeparators(s) != [] && CollapseSeparators(s)[0] == '-' ==> IsSeparator(s[0])
    decreases |s|
  {
    if s != [] {
      var rest := if IsSeparator(s[0]) then DropSeparators(s[1..]) else s[1..];
      assert IsSlugSource(rest) by {
        forall i | 0 <= i < |rest|
          ensures IsKeptSlugChar(rest[i]) && !('A' <= rest[i] <= 'Z')
        {
          assert rest[i] == s[|s| - |rest| + i];
        }
      }
      CollapseShape(rest);
      var tail := CollapseSeparators(rest);
      var head := if IsSeparator(s[0]) then '-' else s[0];
      assert CollapseSeparators(s) == [head] + tail;
      assert IsSeparator(s[0]) ==> tail == [] || tail[0] != '-';
      var r := [head] + tail;
      forall i | 0 <= i < |r| - 1
        ensures !(r[i] == '-' && r[i + 1] == '-')
      {
        if i > 0 {
          assert r[i] == tail[i - 1] && r[i + 1] == tail[i];
        }
      }
      forall i | 0 <= i < |r|
        ensures IsSlugChar(r[i])
      {
        if i > 0 {
          assert r[i] == tail[i - 1];
        }
      }
    }
  }

  function DropLeadingHyphens(s: string): (r: string)
    ensures |r| <= |s| && r == s[|s| - |r|..]
    ensures r == [] || r[0] != '-'
  {
    if s != [] && s[0] == '-' then DropLeadingHyphens(s[1..]) else s
  }

  function DropTrailingHyphens(s: string): (r: string)
    ensures |r| <= |s| && r == s[..|r|]
    ensures r == [] || r[|r| - 1] != '-'
  {
    if s != [] && s[|s| - 1] == '-' then DropTrailingHyphens(s[..|s| - 1]) else s
  }

  /** `slugify`: lower-case, trim, drop `[^\w\s-]`, collapse `[\s_-]+` to `-`, strip end hyphens. */
  function Slugify(text: string): (r: string)
    ensures IsSlug(r)
  {
    var lowered := Trim(Lower(text));
    var kept := KeepSlugChars(lowered);
    var collapsed := CollapseSeparators(kept);
    var stripped := DropTrailingHyphens(DropLeadingHyphens(collapsed));
    SlugOfCollapsed(text, lowered, kept, collapsed, stripped);
    stripped
  }

  /** Lower-case then trim leaves no ASCII capital. */
  lemma NoCapitalsAfterLower(text: string)
    ensures NoCapitals(Trim(Lower(text)))
  {
    TrimLowerCommute(text);
  }

  /** A slice of a string of slug characters without double hyphens keeps both properties. */
  lemma SliceKeepsSlugShape(s: string, lo: nat, hi: nat)
    requires lo <= hi <= |s|
    requires AllSlugChars(s) && NoDoubleHyphen(s)
    ensures AllSlugChars(s[lo..hi]) && NoDoubleHyphen(s[lo..hi])
  {
    var t := s[lo..hi];
    forall i | 0 <= i < |t| - 1
      ensures !(t[i] == '-' && t[i + 1] == '-')
    {
      assert t[i] == s[lo + i] && t[i + 1] == s[lo + i + 1];
    }
  }

  lemma SlugOfCollapsed(text: string, lowered: string, kept: string, collapsed: string, stripped: string)
    requires lowered == Trim(Lower(text)) && kept == KeepSlugChars(lowered)
    requires collapsed == CollapseSeparators(kept)
    requires stripped == DropTrailingHyphens(DropLeadingHyphens(collapsed))
    ensures IsSlug(stripped)
  {
    NoCapitalsAfterLower(text);
    KeepSlugCharsShape(lowered);
    CollapseShape(kept);
    StripKeepsSlugShape(collapsed);
  }

  /** Stripping the end hyphens off `[a-z0-9-]` text without double hyphens leaves a slug. */
  lemma StripKeepsSlugShape(c: string)
    requires AllSlugChars(c) && NoDoubleHyphen(c)
    ensures IsSlug(DropTrailingHyphens(DropLeadingHyphens(c)))
  {
    var a := DropLeadingHyphens(c);
    var stripped := DropTrailingHyphens(a);
    SliceKeepsSlugShape(c, |c| - |a|, |c|);
    SliceKeepsSlugShape(a, 0, |stripped|);
    if stripped != [] {
      assert stripped[0] == a[0];
    }
  }

  lemma {:induction false} KeepSlugCharsFix(s: string)
    requires AllSlugChars(s)
    ensures KeepSlugChars(s) == s
  {
    if s != [] {
      assert AllSlugChars(s[1..]);
      KeepSlugCharsFix(s[1..]);
    }
  }

  lemma {:induction false} CollapseFix(s: string)
    requires AllSlugChars(s) && NoDoubleHyphen(s)
    ensures CollapseSeparators(s) == s
  {
    if s != [] {
      var rest := s[1..];
      SliceKeepsSlugShape(s, 1, |s|);
      CollapseFix(rest);
      if s[0] == '-' {
        DropSeparatorsOfSlugTail(s);
        assert CollapseSeparators(s) == "-" + CollapseSeparators(DropSeparators(rest));
      } else {
        assert !IsSeparator(s[0]);
        assert CollapseSeparators(s) == [s[0]] + CollapseSeparators(rest);
      }
      assert s == [s[0]] + rest;
    }
  }

  lemma DropSeparatorsOfSlugTail(s: string)
    requires AllSlugChars(s) && NoDoubleHyphen(s) && s != [] && s[0] == '-'
    ensures DropSeparators(s[1..]) == s[1..]
  {
    if |s| > 1 {
      assert IsSlugChar(s[1]) && s[1] != '-';
      assert !IsSeparator(s[1]);
    }
  }

  lemma SlugStagesFix(s: string)
    requires IsSlug(s)
    ensures Lower(s) == s
    ensures KeepSlugChars(s) == s
    ensures CollapseSeparators(s) == s
    ensures DropTrailingHyphens(DropLeadingHyphens(s)) == s
  {
    KeepSlugCharsFix(s);
    CollapseFix(s);
    forall i | 0 <= i < |s|
      ensures Lower(s)[i] == s[i]
    {
      assert IsSlugChar(s[i]);
    }
  }

  /** A slug is its own slug, so applying `slugify` twice changes nothing. */
  lemma {:induction false} SlugifyIdempotent(text: string)
    ensures Slugify(Slugify(text)) == Slugify(text)
  {
    var s := Slugify(text);
    SlugStagesFix(s);
    SlugIsTrimmed(s);
    TrimOfTrimmed(s);
  }

  lemma SlugIsTrimmed(s: string)
    requires IsSlug(s)
    ensures IsTrimmed(s)
  {
    if s != [] {
      assert IsSlugChar(s[0]) && IsSlugChar(s[|s| - 1]);
    }
  }

  // ------------------------------------------------------ slug contents

  /** The characters a slug keeps as they are: lower-case ASCII letters and digits. */
  predicate IsSlugWordChar(c: char)
  {
    ('a' <= c <= 'z') || IsDigit(c)
  }

  /** The lower-case ASCII letters and digits of `s`, in order. */
  function SlugWordChars(s: string): string
  {
    if s == [] then []
    else (if IsSlugWordChar(s[0]) then [s[0]] else []) + SlugWordChars(s[1..])
  }

  lemma {:induction false} SlugWordCharsAppend(a: string, b: string)
    ensures SlugWordChars(a + b) == SlugWordChars(a) + SlugWordChars(b)
  {
    if a == [] {
      assert a + b == b;
    } else {
      var t := a[1..] + b;
      assert (a + b)[0] == a[0] && (a + b)[1..] == t;
      SlugWordCharsAppend(a[1..], b);
      if IsSlugWordChar(a[0]) {
        assert SlugWordChars(a + b) == [a[0]] + SlugWordChars(t);
        assert SlugWordChars(a) == [a[0]] + SlugWordChars(a[1..]);
      } else {
        assert SlugWordChars(a + b) == SlugWordChars(t);
        assert SlugWordChars(a) == SlugWordChars(a[1..]);
      }
    }
  }

  /** A string without letters or digits, such as a run of whitespace or hyphens, contributes none. */
  lemma {:induction false} SlugWordCharsOfNone(s: string)
    requires forall i :: 0 <= i < |s| ==> !IsSlugWordChar(s[i])
    ensures SlugWordChars(s) == []
  {
    if s != [] {
      SlugWordCharsOfNone(s[1..]);
    }
  }

  lemma SlugWordCharsOfTrimStart(s: string)
    ensures SlugWordChars(TrimStart(s)) == SlugWordChars(s)
  {
    var a := TrimStart(s);
    var gap := s[..|s| - |a|];
    assert s == gap + a;
    SlugWordCharsOfNone(gap);
    SlugWordCharsAppend(gap, a);
  }

  lemma SlugWordCharsOfTrimEnd(s: string)
    ensures SlugWordChars(TrimEnd(s)) == SlugWordChars(s)
  {
    var b := TrimEnd(s);
    var gap := s[|b|..];
    assert s == b + gap;
    SlugWordCharsOfNone(gap);
    SlugWordCharsAppend(b, gap);
  }

  lemma {:induction false} SlugWordCharsOfKept(s: string)
    ensures SlugWordChars(KeepSlugChars(s)) == SlugWordChars(s)
  {
    if s != [] {
      SlugWordCharsOfKept(s[1..]);
      if IsKeptSlugChar(s[0]) {
        SlugWordCharsAppend([s[0]], KeepSlugChars(s[1..]));
      }
    }
  }

  lemma {:induction false} SlugWordCharsOfDropSeparators(s: string)
    ensures SlugWordChars(DropSeparators(s)) == SlugWordChars(s)
  {
    if s != [] && IsSeparator(s[0]) {
      SlugWordCharsOfDropSeparators(s[1..]);
    }
  }

  lemma {:induction false} SlugWordCharsOfCollapse(s: string)
    ensures SlugWordChars(CollapseSeparators(s)) == SlugWordChars(s)
    decreases |s|
  {
    if s != [] {
      if IsSeparator(s[0]) {
        var rest := DropSeparators(s[1..]);
        SlugWordCharsOfDropSeparators(s[1..]);
        SlugWordCharsOfCollapse(rest);
        SlugWordCharsAppend("-", CollapseSeparators(rest));
      } else {
        SlugWordCharsOfCollapse(s[1..]);
        SlugWordCharsAppend([s[0]], CollapseSeparators(s[1..]));
      }
    }
  }

  lemma {:induction false} SlugWordCharsOfDropLeading(s: string)
    ensures SlugWordChars(DropLeadingHyphens(s)) == SlugWordChars(s)
  {
    if s != [] && s[0] == '-' {
      SlugWordCharsOfDropLeading(s[1..]);
    }
  }

  lemma {:induction false} SlugWordCharsOfDropTrailing(s: string)
    ensures SlugWordChars(DropTrailingHyphens(s)) == SlugWordChars(s)
    decreases |s|
  {
    if s != [] && s[|s| - 1] == '-' {
      var init := s[..|s| - 1];
      SlugWordCharsOfDropTrailing(init);
      assert s == init + "-";
      SlugWordCharsAppend(init, "-");
    }
  }

  /**
   * What a slug keeps: its letters and digits are exactly those of the lower-cased
   * input, in the same order; everything else in it is a single hyphen between
   * two of them. The slug is empty exactly when the lower-cased input has none.
   */
  lemma SlugifyKeepsLettersAndDigits(text: string)
    ensures SlugWordChars(Slugify(text)) == SlugWordChars(Lower(text))
    ensures Slugify(text) == [] <==> SlugWordChars(Lower(text)) == []
  {
    var lowered := Trim(Lower(text));
    var kept := KeepSlugChars(lowered);
    var collapsed := CollapseSeparators(kept);
    var a := DropLeadingHyphens(collapsed);
    var r := Slugify(text);
    SlugWordCharsOfTrimStart(Lower(text));
    SlugWordCharsOfTrimEnd(TrimStart(Lower(text)));
    SlugWordCharsOfKept(lowered);
    SlugWordCharsOfCollapse(kept);
    SlugWordCharsOfDropLeading(collapsed);
    SlugWordCharsOfDropTrailing(a);
    SlugHasWordChars(r);
  }

  /** A non-empty slug has a letter or digit: its first character. */
  lemma SlugHasWordChars(r: string)
    requires IsSlug(r)
    ensures r == [] <==> SlugWordChars(r) == []
  {
    if r != [] {
      assert IsSlugChar(r[0]) && r[0] != '-';
      assert SlugWordChars(r) == [r[0]] + SlugWordChars(r[1..]);
    }
  }

  // ------------------------------------------------------ slug samples

  /** A word: no character of `[\s_-]`. */
  predicate NoSeparators(w: string)
  {
    forall i :: 0 <= i < |w| ==> !IsSeparator(w[i])
  }

  /** A non-empty run of `[\s_-]`. */
  predicate SeparatorRun(run: string)
  {
    run != [] && forall i :: 0 <= i < |run| ==> IsSeparator(run[i])
  }

  lemma WordOfSlugWordChars(w: string)
    requires forall i :: 0 <= i < |w| ==> IsSlugWordChar(w[i])
    ensures NoSeparators(w)
  {
    forall i | 0 <= i < |w|
      ensures !IsSeparator(w[i])
    {
      assert IsSlugWordChar(w[i]);
    }
  }

  /** A word passes through the collapse unchanged. */
  lemma {:induction false} CollapseWord(w: string, rest: string)
    requires NoSeparators(w)
    ensures CollapseSeparators(w + rest) == w + CollapseSeparators(rest)
    decreases |w|
  {
    if w == [] {
      assert w + rest == rest;
    } else {
      assert (w + rest)[0] == w[0] && (w + rest)[1..] == w[1..] + rest;
      CollapseWord(w[1..], rest);
    }
  }

  lemma {:induction false} DropSeparatorsRun(run: string, rest: string)
    requires forall i :: 0 <= i < |run| ==> IsSeparator(run[i])
    requires rest == [] || !IsSeparator(rest[0])
    ensures DropSeparators(run + rest) == rest
  {
    if run == [] {
      assert run + rest == rest;
    } else {
      assert (run + rest)[0] == run[0] && (run + rest)[1..] == run[1..] + rest;
      DropSeparatorsRun(run[1..], rest);
    }
  }

  /** A whole run of separators becomes one hyphen. */
  lemma CollapseRun(run: string, rest: string)
    requires SeparatorRun(run)
    requires rest == [] || !IsSeparator(rest[0])
    ensures CollapseSeparators(run + rest) == "-" + CollapseSeparators(rest)
  {
    assert (run + rest)[0] == run[0] && (run + rest)[1..] == run[1..] + rest;
    DropSeparatorsRun(run[1..], rest);
  }

  /** A word followed by a run of separators and more text. */
  lemma CollapseWordThenRun(a: string, run: string, rest: string)
    requires NoSeparators(a) && SeparatorRun(run)
    requires rest != [] && !IsSeparator(rest[0])
    ensures CollapseSeparators(a + (run + rest)) == a + ("-" + CollapseSeparators(rest))
  {
    CollapseWord(a, run + rest);
    CollapseRun(run, rest);
  }

  /** Two words joined by a run of separators collapse to the words joined by one hyphen. */
  lemma CollapseTwoWords(a: string, run: string, b: string)
    requires NoSeparators(a) && NoSeparators(b) && b != [] && SeparatorRun(run)
    ensures CollapseSeparators(a + (run + b)) == a + ("-" + b)
  {
    CollapseWordThenRun(a, run, b);
    CollapseWord(b, []);
    assert b + [] == b;
  }

  /** Three words joined by two runs of separators collapse to the words joined by hyphens. */
  lemma CollapseThreeWords(a: string, run1: string, b: string, run2: string, c: string)
    requires NoSeparators(a) && NoSeparators(b) && NoSeparators(c) && b != [] && c != []
    requires SeparatorRun(run1) && SeparatorRun(run2)
    ensures CollapseSeparators(a + (run1 + (b + (run2 + c)))) == a + ("-" + (b + ("-" + c)))
  {
    var tail := b + (run2 + c);
    assert tail[0] == b[0];
    CollapseWordThenRun(a, run1, tail);
    CollapseTwoWords(b, run2, c);
  }

  lemma {:induction false} KeepSlugCharsAppend(a: string, b: string)
    ensures KeepSlugChars(a + b) == KeepSlugChars(a) + KeepSlugChars(b)
  {
    if a == [] {
      assert a + b == b;
    } else {
      var t := a[1..] + b;
      assert (a + b)[0] == a[0] && (a + b)[1..] == t;
      KeepSlugCharsAppend(a[1..], b);
      if IsKeptSlugChar(a[0]) {
        assert KeepSlugChars(a + b) == [a[0]] + KeepSlugChars(t);
        assert KeepSlugChars(a) == [a[0]] + KeepSlugChars(a[1..]);
      } else {
        assert KeepSlugChars(a + b) == KeepSlugChars(t);
        assert KeepSlugChars(a) == KeepSlugChars(a[1..]);
      }
    }
  }

  /** A string that neither starts nor ends with a hyphen keeps its ends. */
  lemma DropHyphensOfInner(s: string)
    requires s != [] && s[0] != '-' && s[|s| - 1] != '-'
    ensures DropTrailingHyphens(DropLeadingHyphens(s)) == s
  {
  }

  lemma LowerSampleName(s: string)
    requires s == "Test Product Name"
    ensures Lower(s) == "test product name"
  {
  }

  lemma KeepSampleName(s: string)
    requires s == "test product name"
    ensures KeepSlugChars(s) == s
  {
  }

  lemma SplitSampleName(s: string, a: string, run1: string, b: string, run2: string, c: string)
    requires s == "test product name"
    requires a == "test" && run1 == " " && b == "product" && run2 == " " && c == "name"
    ensures s == a + (run1 + (b + (run2 + c)))
  {
  }

  lemma CollapseSampleNamePieces(a: string, run1: string, b: string, run2: string, c: string)
    requires a == "test" && run1 == " " && b == "product" && run2 == " " && c == "name"
    ensures CollapseSeparators(a + (run1 + (b + (run2 + c)))) == "test-product-name"
  {
    WordOfSlugWordChars(a);
    WordOfSlugWordChars(b);
    WordOfSlugWordChars(c);
    CollapseThreeWords(a, run1, b, run2, c);
  }

  lemma CollapseSampleName(s: string)
    requires s == "test product name"
    ensures CollapseSeparators(s) == "test-product-name"
  {
    var a, run1, b, run2, c := "test", " ", "product", " ", "name";
    SplitSampleName(s, a, run1, b, run2, c);
    CollapseSampleNamePieces(a, run1, b, run2, c);
  }

  /** `slugify('Test Product Name')` is `'test-product-name'`. */
  lemma SlugifySampleName(s: string)
    requires s == "Test Product Name"
    ensures Slugify(s) == "test-product-name"
  {
    var lowered := Lower(s);
    LowerSampleName(s);
    TrimOfTrimmed(lowered);
    KeepSampleName(lowered);
    CollapseSampleName(lowered);
    DropHyphensOfInner(CollapseSeparators(lowered));
  }

  lemma LowerSamplePunctuation(s: string)
    requires s == "Test & Product!"
    ensures Lower(s) == "test & product!"
  {
  }

  lemma {:induction false} KeepSlugCharsOfPieces(a: string, b: string, c: string, d: string)
    ensures KeepSlugChars(a + (b + (c + d)))
         == KeepSlugChars(a) + (KeepSlugChars(b) + (KeepSlugChars(c) + KeepSlugChars(d)))
  {
    KeepSlugCharsAppend(a, b + (c + d));
    KeepSlugCharsAppend(b, c + d);
    KeepSlugCharsAppend(c, d);
  }

  lemma KeepSampleWords(a: string, b: string)
    requires a == "test " && b == " product"
    ensures KeepSlugChars(a) == a && KeepSlugChars(b) == b
  {
  }

  lemma KeepSampleMarks(amp: string, bang: string)
    requires amp == "&" && bang == "!"
    ensures KeepSlugChars(amp) == [] && KeepSlugChars(bang) == []
  {
  }

  lemma SplitSamplePunctuation(s: string, a: string, amp: string, b: string, bang: string)
    requires s == "test & product!"
    requires a == "test " && amp == "&" && b == " product" && bang == "!"
    ensures s == a + (amp + (b + bang))
  {
  }

  lemma KeepSamplePunctuationPieces(a: string, amp: string, b: string, bang: string)
    requires a == "test " && amp == "&" && b == " product" && bang == "!"
    ensures KeepSlugChars(a + (amp + (b + bang))) == "test  product"
  {
    KeepSlugCharsOfPieces(a, amp, b, bang);
    KeepSampleWords(a, b);
    KeepSampleMarks(amp, bang);
  }

  /** The filter drops `&` and `!` and keeps both spaces. */
  lemma KeepSamplePunctuation(s: string)
    requires s == "test & product!"
    ensures KeepSlugChars(s) == "test  product"
  {
    var a, amp, b, bang := "test ", "&", " product", "!";
    SplitSamplePunctuation(s, a, amp, b, bang);
    KeepSamplePunctuationPieces(a, amp, b, bang);
  }

  lemma SplitTwoWords(s: string, a: string, run: string, b: string)
    requires s == "test  product" || s == "test    product"
    requires a == "test" && b == "product" && run == s[4..|s| - 7]
    ensures s == a + (run + b)
    ensures SeparatorRun(run)
  {
  }

  lemma CollapseTwoSampleWords(a: string, run: string, b: string)
    requires a == "test" && b == "product" && SeparatorRun(run)
    ensures CollapseSeparators(a + (run + b)) == "test-product"
  {
    WordOfSlugWordChars(a);
    WordOfSlugWordChars(b);
    CollapseTwoWords(a, run, b);
  }

  /** Both two-word samples, whatever the run of spaces between the words, collapse to `test-product`. */
  lemma CollapseSampleTwoWords(s: string)
    requires s == "test  product" || s == "test    product"
    ensures CollapseSeparators(s) == "test-product"
  {
    var a, run, b := "test", s[4..|s| - 7], "product";
    SplitTwoWords(s, a, run, b);
    CollapseTwoSampleWords(a, run, b);
  }

  /** `slugify('Test & Product!')` is `'test-product'`: the punctuation goes, the spaces around it collapse. */
  lemma SlugifySamplePunctuation(s: string)
    requires s == "Test & Product!"
    ensures Slugify(s) == "test-product"
  {
    var lowered := Lower(s);
    LowerSamplePunctuation(s);
    TrimOfTrimmed(lowered);
    KeepSamplePunctuation(lowered);
    CollapseSampleTwoWords(KeepSlugChars(lowered));
    DropHyphensOfInner(CollapseSeparators(KeepSlugChars(lowered)));
  }

  lemma LowerSampleSpaces(s: string)
    requires s == "Test    Product"
    ensures Lower(s) == "test    product"
  {
  }

  lemma KeepSampleSpaces(s: string)
    requires s == "test    product"
    ensures KeepSlugChars(s) == s
  {
  }

  /** `slugify('Test    Product')` is `'test-product'`: a run of spaces becomes one hyphen. */
  lemma SlugifySampleSpaces(s: string)
    requires s == "Test    Product"
    ensures Slugify(s) == "test-product"
  {
    var lowered := Lower(s);
    LowerSampleSpaces(s);
    TrimOfTrimmed(lowered);
    KeepSampleSpaces(lowered);
    CollapseSampleTwoWords(lowered);
    DropHyphensOfInner(CollapseSeparators(lowered));
  }

  // ---------------------------------------------------------------- SKUs

  /**
   * `replace(/[^\w-]/g, '-')` on one character. Without the `u` flag the pattern
   * sees UTF-16 code units, so a character outside the Basic Multilingual Plane,
   * a surrogate pair, becomes two hyphens.
   */
  function SkuUnits(c: char): (r: string)
    ensures |r| == Utf16Length([c])
    ensures IsSkuText(r)
    ensures IsWordChar(c) || c == '-' ==> r == [c]
  {
    assert [c][1..] == [];
    if IsWordChar(c) || c == '-' then [c] else if IsAstral(c) then "--" else "-"
  }

  /** `replace(/[^\w-]/g, '-')`: one character of `[\w-]` per UTF-16 code unit of the input. */
  function SkuChars(s: string): (r: string)
    ensures |r| == Utf16Length(s)
    ensures IsSkuText(r)
  {
    if s == [] then [] else SkuUnits(s[0]) + SkuChars(s[1..])
  }

  lemma {:induction false} SkuCharsAppend(a: string, b: string)
    ensures SkuChars(a + b) == SkuChars(a) + SkuChars(b)
  {
    if a == [] {
      assert a + b == b;
    } else {
      assert (a + b)[1..] == a[1..] + b;
      SkuCharsAppend(a[1..], b);
    }
  }

  /**
   * On text inside the Basic Multilingual Plane the replacement works position by
   * position: a character of `[\w-]` stays, any other becomes one `-`.
   */
  lemma {:induction false} SkuCharsOfBmp(s: string)
    requires forall i :: 0 <= i < |s| ==> !IsAstral(s[i])
    ensures |SkuChars(s)| == |s|
    ensures forall i :: 0 <= i < |s| ==>
      SkuChars(s)[i] == if IsWordChar(s[i]) || s[i] == '-' then s[i] else '-'
  {
    if s != [] {
      SkuCharsOfBmp(s[1..]);
    }
  }

  /** A character outside the Basic Multilingual Plane becomes `--`: `"A\U{1F600}B"` gives `"A--B"`. */
  lemma AstralGivesTwoHyphens(a: string, c: char, b: string)
    requires IsAstral(c)
    ensures SkuChars(a + [c] + b) == SkuChars(a) + "--" + SkuChars(b)
  {
    SkuCharsAppend(a + [c], b);
    SkuCharsAppend(a, [c]);
    AstralSkuChars(c);
  }

  lemma AstralSkuChars(c: char)
    requires IsAstral(c)
    ensures SkuChars([c]) == "--"
  {
    assert [c][1..] == [];
  }

  /** `substring(0, n)`. */
  function Prefix(s: string, n: nat): (r: string)
    ensures |r| <= n && |r| <= |s| && r == s[..|r|]
    ensures |s| <= n ==> r == s
  {
    if |s| <= n then s else s[..n]
  }

  /**
   * The part of a derived SKU that comes from the supplier's own code: only
   * `[A-Z0-9_-]`, at least one character for each character of the trimmed code.
   */
  function SkuPart(providerSku: string): (r: string)
    ensures IsSkuText(r)
    ensures forall i :: 0 <= i < |r| ==> !('a' <= r[i] <= 'z')
    ensures |r| >= |Trim(providerSku)|
  {
    var upper := Upper(Trim(providerSku));
    SkuCharsNoSmallLetters(upper);
    SkuChars(upper)
  }

  /** The replacement brings in no small letter: it keeps characters or writes hyphens. */
  lemma {:induction false} SkuCharsNoSmallLetters(s: string)
    requires forall i :: 0 <= i < |s| ==> !('a' <= s[i] <= 'z')
    ensures forall i :: 0 <= i < |SkuChars(s)| ==> !('a' <= SkuChars(s)[i] <= 'z')
  {
    if s != [] {
      SkuCharsNoSmallLetters(s[1..]);
      var head := SkuUnits(s[0]);
      assert forall i :: 0 <= i < |head| ==> head[i] == s[0] || head[i] == '-';
      assert SkuChars(s) == head + SkuChars(s[1..]);
    }
  }

  /** Text in `[A-Za-z0-9_-]`. */
  predicate IsSkuText(s: string)
  {
    forall i :: 0 <= i < |s| ==> IsWordChar(s[i]) || s[i] == '-'
  }

  /**
   * `generateSku`: the cleaned supplier code, a hyphen and the first 20 characters
   * of the name's slug, cut to 100 characters. The result holds only `[A-Za-z0-9_-]`.
   */
  function GenerateSku(providerSku: string, name: string): (r: string)
    ensures |r| <= 100
    ensures IsSkuText(r)
  {
    var sku := SkuPart(providerSku);
    var slug := Prefix(Slugify(name), 20);
    SkuAlphabet(sku, Slugify(name), 20, 100);
    Prefix(sku + "-" + slug, 100)
  }

  lemma SkuAlphabet(sku: string, slug: string, n: nat, m: nat)
    requires IsSkuText(sku) && IsSlug(slug)
    ensures IsSkuText(Prefix(sku + "-" + Prefix(slug, n), m))
  {
    var cut := Prefix(slug, n);
    SliceKeepsSlugShape(slug, 0, |cut|);
    var whole := sku + "-" + cut;
    var r := Prefix(whole, m);
    forall i | 0 <= i < |r|
      ensures IsWordChar(r[i]) || r[i] == '-'
    {
      assert r[i] == whole[i];
      if i > |sku| {
        assert whole[i] == cut[i - |sku| - 1];
      }
    }
  }

  /** A character a supplier code may hold and keep unchanged: `[A-Z0-9_-]`. */
  predicate IsSkuCodeChar(c: char)
  {
    ('A' <= c <= 'Z') || IsDigit(c) || c == '_' || c == '-'
  }

  /** A supplier code already in `[A-Z0-9_-]` and shorter than 100 characters is kept at the front of the derived SKU. */
  lemma GenerateSkuKeepsCleanCode(providerSku: string, name: string)
    requires |providerSku| < 100
    requires forall i :: 0 <= i < |providerSku| ==> IsSkuCodeChar(providerSku[i])
    ensures StartsWith(GenerateSku(providerSku, name), providerSku + "-")
  {
    CleanCodeIsSkuPart(providerSku);
    PrefixKeepsHead(providerSku + "-", Prefix(Slugify(name), 20), 100);
  }

  lemma PrefixKeepsHead(head: string, tail: string, n: nat)
    requires |head| <= n
    ensures StartsWith(Prefix(head + tail, n), head)
  {
    assert (head + tail)[..|head|] == head;
  }

  lemma CleanCodeIsSkuPart(p: string)
    requires forall i :: 0 <= i < |p| ==> IsSkuCodeChar(p[i])
    ensures SkuPart(p) == p
  {
    CleanCodeIsTrimmed(p);
    CleanCodeIsUpper(p);
    CleanCodeIsSkuChars(p);
  }

  lemma CleanCodeIsTrimmed(p: string)
    requires forall i :: 0 <= i < |p| ==> IsSkuCodeChar(p[i])
    ensures Trim(p) == p
  {
    if p != [] {
      assert IsSkuCodeChar(p[0]) && IsSkuCodeChar(p[|p| - 1]);
      CodeCharNotWhitespace(p[0]);
      CodeCharNotWhitespace(p[|p| - 1]);
    }
    TrimOfTrimmed(p);
  }

  lemma CleanCodeIsUpper(p: string)
    requires forall i :: 0 <= i < |p| ==> IsSkuCodeChar(p[i])
    ensures Upper(p) == p
  {
    forall i | 0 <= i < |p|
      ensures Upper(p)[i] == p[i]
    {
      assert IsSkuCodeChar(p[i]);
    }
  }

  lemma CleanCodeIsSkuChars(p: string)
    requires forall i :: 0 <= i < |p| ==> IsSkuCodeChar(p[i])
    ensures SkuChars(p) == p
  {
    SkuCharsOfBmp(p);
    forall i | 0 <= i < |p|
      ensures SkuChars(p)[i] == p[i]
    {
      assert IsSkuCodeChar(p[i]);
    }
  }

  lemma CodeCharNotWhitespace(c: char)
    requires IsSkuCodeChar(c)
    ensures !IsWhitespace(c)
  {
  }

  // ---------------------------------------------------------------- chunking

  function Min(a: int, b: int): int
  {
    if a <= b then a else b
  }

  /** The concatenation of a list of lists. */
  function Concat<T>(xss: seq<seq<T>>): seq<T>
  {
    if xss == [] then [] else xss[0] + Concat(xss[1..])
  }

  /** The chunks `batchArray` is meant to produce: `a` cut into pieces of `n`, the last one possibly shorter. */
  function Chunks<T>(a: seq<T>, n: nat): (r: seq<seq<T>>)
    requires n > 0
    ensures forall k :: 0 <= k < |r| ==> 0 < |r[k]| <= n
    ensures forall k :: 0 <= k < |r| - 1 ==> |r[k]| == n
    decreases |a|
  {
    if a == [] then []
    else if |a| <= n then [a]
    else [a[..n]] + Chunks(a[n..], n)
  }

  /**
   * `batchArray`: the slices `a[i .. i + chunkSize]` for `i = 0, chunkSize, 2 chunkSize, ...`.
   * They are the chunks of `a`, so they concatenate back to `a` and there are
   * `ceil(|a| / chunkSize)` of them: enough to hold `a`, and one fewer would not be.
   */
  method BatchArray<T>(a: seq<T>, chunkSize: nat) returns (batches: seq<seq<T>>)
    requires chunkSize > 0
    ensures batches == Chunks(a, chunkSize)
    ensures Concat(batches) == a
    ensures |a| <= |batches| * chunkSize < |a| + chunkSize
  {
    batches := [];
    var i := 0;
    while i < |a|
      invariant batches + Chunks(a[Min(i, |a|)..], chunkSize) == Chunks(a, chunkSize)
      decreases |a| - i
    {
      var chunk := a[i .. Min(i + chunkSize, |a|)];
      ChunksStep(a, chunkSize, i);
      batches := batches + [chunk];
      i := i + chunkSize;
    }
    assert a[Min(i, |a|)..] == [];
    ChunksConcat(a, chunkSize);
    ChunksCount(a, chunkSize);
  }

  /** The chunks of `a[i..]` are the chunk starting at `i` followed by the chunks after it. */
  lemma ChunksStep<T>(a: seq<T>, n: nat, i: nat)
    requires n > 0 && i < |a|
    ensures Chunks(a[i..], n) == [a[i .. Min(i + n, |a|)]] + Chunks(a[Min(i + n, |a|)..], n)
  {
    var t := a[i..];
    if |t| <= n {
      assert Min(i + n, |a|) == |a|;
      assert Chunks(t, n) == [t];
      assert a[Min(i + n, |a|)..] == [];
      assert Chunks(a[Min(i + n, |a|)..], n) == [];
      assert a[i .. Min(i + n, |a|)] == t;
    } else {
      assert t[..n] == a[i .. i + n];
      assert t[n..] == a[i + n..];
    }
  }

  /** The chunks concatenate back to the list. */
  lemma {:induction false} ChunksConcat<T>(a: seq<T>, n: nat)
    requires n > 0
    ensures Concat(Chunks(a, n)) == a
    decreases |a|
  {
    if |a| > n {
      ChunksConcat(a[n..], n);
      assert a[..n] + a[n..] == a;
    }
  }

  /** Concatenation distributes over joining two lists of lists. */
  lemma {:induction false} ConcatAppend<T>(xss: seq<seq<T>>, yss: seq<seq<T>>)
    ensures Concat(xss + yss) == Concat(xss) + Concat(yss)
  {
    if xss == [] {
      assert xss + yss == yss;
    } else {
      assert (xss + yss)[1..] == xss[1..] + yss;
      ConcatAppend(xss[1..], yss);
    }
  }

  /** `b` chunks of `n` are just enough for the list: they hold at least `|a|` elements and fewer than `|a| + n`. */
  lemma {:induction false} ChunksCount<T>(a: seq<T>, n: nat)
    requires n > 0
    ensures |a| <= |Chunks(a, n)| * n < |a| + n
    decreases |a|
  {
    if |a| > n {
      ChunksCount(a[n..], n);
      MulSucc(|Chunks(a[n..], n)|, n);
    }
  }

  lemma MulSucc(k: nat, n: nat)
    ensures (k + 1) * n == k * n + n
  {
  }

  /** Chunk `k` starts at element `k * n` of the list. */
  lemma {:induction false} ChunkAt<T>(a: seq<T>, n: nat, k: nat)
    requires n > 0 && k < |Chunks(a, n)|
    ensures k * n < |a|
    ensures Chunks(a, n)[k] == a[k * n .. Min(k * n + n, |a|)]
    decreases |a|
  {
    if k > 0 {
      assert |a| > n;
      var b := a[n..];
      assert Chunks(a, n) == [a[..n]] + Chunks(b, n);
      ChunkAt(b, n, k - 1);
      var m := (k - 1) * n;
      MulSucc(k - 1, n);
      assert Min(m + n, |b|) + n == Min(m + n + n, |a|);
      assert b[m .. Min(m + n, |b|)] == a[m + n .. Min(m + n + n, |a|)];
    }
  }

  // ---------------------------------------------------------------- row hash

  /** The twelve fields the row hash is computed from. */
  datatype CanonicalRecord = CanonicalRecord(
    providerCode: ProviderCode,
    providerSku: string,
    name: string,
    brand: string,
    model: string,
    category: string,
    price: Option<Number>,
    priceDiscounted: Option<Number>,
    msrp: Option<Number>,
    stock: Option<Number>,
    unit: string,
    warehouse: string)

  /** `s || ''`: absent and empty both give the empty string. */
  function OrEmpty(s: Option<string>): string
  {
    if s.Some? then s.value else ""
  }

  /** `x || null`: absent, `null` and the falsy numbers `0` and NaN all give `null`. */
  function OrNull(f: Field<Number>): (r: Option<Number>)
    ensures r.Some? ==> f == Value(r.value) && r.value.Truthy()
    ensures f.Value? && f.value.Truthy() ==> r == Some(f.value)
  {
    if f.Value? && f.value.Truthy() then Some(f.value) else None
  }

  /** `v` is what `field || ''` gives: the text when it is non-empty, and `''` otherwise. */
  predicate TextOrEmpty(field: Option<string>, v: string)
  {
    if field.Some? && field.value != "" then v == field.value else v == ""
  }

  /** `v` is what `field || null` gives: the number when it is truthy, and `null` otherwise. */
  predicate NumberOrNull(field: Field<Number>, v: Option<Number>)
  {
    (v.Some? <==> field.Value? && field.value.Truthy()) && (v.Some? ==> field == Value(v.value))
  }

  /**
   * The canonical object of `computeRowHash`: the identifying fields and the price
   * as they are, each optional text `|| ''`, each optional number `|| null`.
   */
  function Canonical(item: StagedItem): (c: CanonicalRecord)
    ensures c.providerCode == item.providerCode && c.providerSku == item.providerSku
    ensures c.name == item.name && c.price == item.price
    ensures TextOrEmpty(item.brand, c.brand) && TextOrEmpty(item.model, c.model) && TextOrEmpty(item.category, c.category)
    ensures TextOrEmpty(item.unit, c.unit) && TextOrEmpty(item.warehouse, c.warehouse)
    ensures NumberOrNull(item.priceDiscounted, c.priceDiscounted) && NumberOrNull(item.msrp, c.msrp)
    ensures NumberOrNull(item.stock, c.stock)
  {
    CanonicalRecord(
      item.providerCode, item.providerSku, item.name,
      OrEmpty(item.brand), OrEmpty(item.model), OrEmpty(item.category),
      item.price, OrNull(item.priceDiscounted), OrNull(item.msrp), OrNull(item.stock),
      OrEmpty(item.unit), OrEmpty(item.warehouse))
  }

  /** A 256-bit digest as 32 bytes. */
  type Digest = d: seq<bv8> | |d| == 32 witness seq(32, _ => 0)

  predicate IsLowerHexChar(c: char)
  {
    IsDigit(c) || ('a' <= c <= 'f')
  }

  function HexDigit(n: bv8): (c: char)
    requires n < 16
    ensures IsLowerHexChar(c)
  {
    "0123456789abcdef"[n as int]
  }

  /** `digest('hex')`: two lower-case hex digits per byte, high nibble first. */
  function Hex(bytes: seq<bv8>): (r: string)
    ensures |r| == 2 * |bytes|
    ensures forall i :: 0 <= i < |r| ==> IsLowerHexChar(r[i])
  {
    if bytes == [] then []
    else [HexDigit(bytes[0] >> 4), HexDigit(bytes[0] & 15)] + Hex(bytes[1..])
  }

  lemma HexDigitInjective(a: bv8, b: bv8)
    requires a < 16 && b < 16 && HexDigit(a) == HexDigit(b)
    ensures a == b
  {
  }

  lemma ByteFromNibbles(a: bv8, b: bv8)
    requires a >> 4 == b >> 4 && a & 15 == b & 15
    ensures a == b
  {
  }

  /** Different digests never give the same hex text. */
  lemma {:induction false} HexInjective(a: seq<bv8>, b: seq<bv8>)
    requires |a| == |b| && Hex(a) == Hex(b)
    ensures a == b
  {
    if a != [] {
      var ha, hb := Hex(a), Hex(b);
      assert ha[0] == hb[0] && ha[1] == hb[1];
      HexDigitInjective(a[0] >> 4, b[0] >> 4);
      HexDigitInjective(a[0] & 15, b[0] & 15);
      ByteFromNibbles(a[0], b[0]);
      assert ha[2..] == Hex(a[1..]) && hb[2..] == Hex(b[1..]);
      HexInjective(a[1..], b[1..]);
    }
  }

  /**
   * `computeRowHash`: the SHA-256 digest of the canonical record, hex-encoded.
   * The digest function is a parameter; the text it is applied to is not modelled.
   */
  function ComputeRowHash(item: StagedItem, sha256: CanonicalRecord -> Digest): (r: string)
    ensures |r| == 64
    ensures forall i :: 0 <= i < |r| ==> IsLowerHexChar(r[i])
  {
    Hex(sha256(Canonical(item)))
  }

  /** Two items hash alike exactly when their canonical records have the same digest. */
  lemma RowHashMatchesDigest(a: StagedItem, b: StagedItem, sha256: CanonicalRecord -> Digest)
    ensures ComputeRowHash(a, sha256) == ComputeRowHash(b, sha256) <==> sha256(Canonical(a)) == sha256(Canonical(b))
  {
    if ComputeRowHash(a, sha256) == ComputeRowHash(b, sha256) {
      HexInjective(sha256(Canonical(a)), sha256(Canonical(b)));
    }
  }

  /**
   * Currency, description, extra and image hints are not hashed; an absent,
   * `null` or zero stock gives the same record, as does an absent or empty brand.
   */
  lemma CanonicalIgnoresIncidentals(item: StagedItem, currency: string, description: Option<string>,
                                    extra: Option<map<string, string>>, imageHints: Option<seq<string>>)
    ensures Canonical(item.(currency := currency, description := description, extra := extra, imageHints := imageHints))
         == Canonical(item)
    ensures Canonical(item.(stock := Value(Finite(0.0)))) == Canonical(item.(stock := Undefined))
    ensures Canonical(item.(stock := Null)) == Canonical(item.(stock := Undefined))
    ensures Canonical(item.(brand := Some(""))) == Canonical(item.(brand := None))
  {
  }

}
