/**
  The `Language` value object: a language code normalised by lower-casing
  and stripping, accepted only when it has the shape of an ISO 639-1
  alphabetic code (two letters). Membership in the ISO list is not checked.
 */
module Languages {

  import opened Errors
  import opened Text

  /** The shape every stored code has: exactly two lower-case ASCII letters. */
  predicate IsIsoShape(code: string) {
    |code| == 2 && IsLower(code[0]) && IsLower(code[1])
  }

  /** A frozen language value; equality is equality of codes. The type
      admits only codes that passed validation. */
  datatype LanguageCode = Language(code: string)

  type Language = l: LanguageCode | IsIsoShape(l.code) witness Language("en")

  /** What `__post_init__` stores: `code.lower().strip()`. */
  function Normalize(code: string): string {
    Strip(Lower(code))
  }

  /** `Language(code)`: normalise, then reject anything that is not exactly
      two alphabetic characters. */
  function NewLanguage(code: string): (r: Result<Language>)
    ensures r.Success? <==> (IsAlpha(Normalize(code)) && |Normalize(code)| == 2)
    ensures r.Success? ==> r.value.code == Normalize(code)
    ensures r.Failure? ==> r.error == InvalidLanguageIsoCode(Normalize(code))
  {
    var normalized := Normalize(code);
    if !IsAlpha(normalized) || |normalized| != 2 then
      Failure(InvalidLanguageIsoCode(normalized))
    else
      assert IsLower(normalized[0]) && IsLower(normalized[1]) by {
        LowerSurvivesStrip(Lower(code));
      }
      Success(Language(normalized))
  }

  /** Stripping keeps the "no upper-case letter" property of a lowered string. */
  lemma LowerSurvivesStrip(s: string)
    requires forall i :: 0 <= i < |s| ==> !IsUpper(s[i])
    ensures forall i :: 0 <= i < |Strip(s)| ==> !IsUpper(Strip(s)[i])
  {
    var r := Strip(s);
    var j := StripInfix(s);
    forall i | 0 <= i < |r| ensures !IsUpper(r[i]) {
      assert r[i] == s[j + i];
    }
  }

  /** Every successfully built language has a two-letter lower-case code. */
  lemma BuiltLanguageHasIsoShape(code: string)
    requires NewLanguage(code).Success?
    ensures |NewLanguage(code).value.code| == 2
    ensures IsLower(NewLanguage(code).value.code[0]) && IsLower(NewLanguage(code).value.code[1])
  {
  }

  /** Rebuilding a language from its own code yields the same value. */
  lemma NormalizeIdempotent(l: Language)
    ensures NewLanguage(l.code) == Success(l)
  {
    var c := l.code;
    assert Lower(c) == c by {
      assert Lower(c)[0] == c[0] && Lower(c)[1] == c[1];
    }
    NoOuterSpaceStripsToItself(c);
  }

  /** Two inputs give the same language exactly when they normalise to the
      same valid code, e.g. " FR " and "fr". */
  lemma EqualByNormalizedCode(a: string, b: string)
    requires NewLanguage(a).Success? && NewLanguage(b).Success?
    ensures NewLanguage(a) == NewLanguage(b) <==> Normalize(a) == Normalize(b)
  {
  }

  /** `Language(" FR ") == Language("fr")`. */
  lemma PaddedUpperCaseEqualsLowerCase()
    ensures NewLanguage(" FR ") == NewLanguage("fr") == Success(Language("fr"))
  {
    PaddedUpperCaseNormalizes();
    NormalizeIdempotent(Language("fr"));
  }

  /** `" FR ".lower().strip()` is `"fr"`. */
  lemma PaddedUpperCaseNormalizes()
    ensures Normalize(" FR ") == "fr"
  {
    PaddedUpperCaseLowers();
    PaddedLowerCaseStrips();
  }

  lemma PaddedUpperCaseLowers()
    ensures Lower(" FR ") == " fr "
  {
  }

  lemma PaddedLowerCaseStrips()
    ensures Strip(" fr ") == "fr"
  {
    assert SkipSpaces(" fr ", 0) == 1 by {
      assert IsSpace(" fr "[0]) && !IsSpace(" fr "[1]);
    }
    assert SkipSpacesBack(" fr ", 4) == 3 by {
      assert IsSpace(" fr "[3]) && !IsSpace(" fr "[2]);
    }
    assert " fr "[1..3] == "fr";
  }
}
