/**
 * `ISIN::from_str` of the core crate: strip every hyphen, check the result
 * against the fixed pattern "two upper-case letters, then ten upper-case
 * letters or digits" (the regular expression `^[A-Z]{2}[\dA-Z]{10}$`), and on
 * success keep the ORIGINAL string. No ISO 6166 check digit is computed.
 */
module IsinFormat {
  import opened Domain

  /**
   * `Regex` is the error for a pattern that fails to compile; the pattern is
   * a fixed, valid constant, so ParseIsin never returns it.
   */
  datatype IsinError = Regex | InvalidIso6166

  predicate IsUpperLetter(c: char)
  {
    'A' <= c <= 'Z'
  }

  predicate IsDigit(c: char)
  {
    '0' <= c <= '9'
  }

  /** The character class `[\dA-Z]`. */
  predicate IsUpperAlphanumeric(c: char)
  {
    IsUpperLetter(c) || IsDigit(c)
  }

  /** `^[A-Z]{2}[\dA-Z]{10}$` as a predicate on the normalized string. */
  predicate MatchesIso6166Pattern(n: string)
  {
    && |n| == 12
    && IsUpperLetter(n[0])
    && IsUpperLetter(n[1])
    && forall i :: 2 <= i < 12 ==> IsUpperAlphanumeric(n[i])
  }

  /** `s.replace('-', "")`: the characters of `s` other than '-', in order. */
  function StripHyphens(s: string): (r: string)
    ensures '-' !in r
    ensures |r| <= |s|
  {
    if s == [] then []
    else (if s[0] == '-' then [] else [s[0]]) + StripHyphens(s[1..])
  }

  /** Acceptance of an ISIN string. */
  predicate IsValidIsin(s: string)
  {
    MatchesIso6166Pattern(StripHyphens(s))
  }

  /** `ISIN::from_str`. */
  function ParseIsin(s: string): (r: Result<Isin, IsinError>)
    ensures r.Ok? <==> MatchesIso6166Pattern(StripHyphens(s))
    ensures r.Ok? ==> r.value.code == s
    ensures r.Err? ==> r.error == InvalidIso6166
  {
    if MatchesIso6166Pattern(StripHyphens(s)) then Ok(Isin(s)) else Err(InvalidIso6166)
  }

  /** Removing hyphens distributes over concatenation. */
  lemma {:induction false} StripHyphensConcat(a: string, b: string)
    ensures StripHyphens(a + b) == StripHyphens(a) + StripHyphens(b)
  {
    if a != [] {
      assert (a + b)[1..] == a[1..] + b;
      StripHyphensConcat(a[1..], b);
    } else {
      assert a + b == b;
    }
  }

  /** Stripping is idempotent: a normalized string is its own normal form. */
  lemma {:induction false} StripHyphensIdempotent(s: string)
    ensures StripHyphens(StripHyphens(s)) == StripHyphens(s)
  {
    if s != [] {
      StripHyphensIdempotent(s[1..]);
      StripHyphensConcat(if s[0] == '-' then [] else [s[0]], StripHyphens(s[1..]));
    }
  }

  /** A string without hyphens is already normalized. */
  lemma {:induction false} StripHyphensFree(s: string)
    requires '-' !in s
    ensures StripHyphens(s) == s
  {
    if s != [] {
      assert s[0] in s;
      assert forall c :: c in s[1..] ==> c in s;
      StripHyphensFree(s[1..]);
    }
  }

  /** A lone hyphen normalizes to nothing. */
  lemma StripLoneHyphen()
    ensures StripHyphens("-") == []
  {
    assert "-"[1..] == [];
  }

  /** Removing one hyphen from the input leaves its normal form unchanged. */
  lemma DropHyphen(a: string, b: string)
    ensures StripHyphens(a + "-" + b) == StripHyphens(a + b)
  {
    StripHyphensConcat(a, "-");
    StripLoneHyphen();
    assert StripHyphens(a + "-") == StripHyphens(a);
    StripHyphensConcat(a + "-", b);
    StripHyphensConcat(a, b);
  }

  /** A hyphen inserted anywhere never changes whether the input is accepted. */
  lemma HyphenInsensitive(a: string, b: string)
    ensures ParseIsin(a + "-" + b).Ok? <==> ParseIsin(a + b).Ok?
  {
    DropHyphen(a, b);
  }

  /** Re-parsing the stored string of a successful parse gives the same ISIN. */
  lemma ParseIdempotent(s: string)
    requires ParseIsin(s).Ok?
    ensures ParseIsin(ParseIsin(s).value.code) == ParseIsin(s)
  {
  }

  /** Every accepted string is 12 characters once normalized, so at least 12 long. */
  lemma AcceptedLength(s: string)
    requires ParseIsin(s).Ok?
    ensures |s| >= 12
  {
  }

  /** A lower-case country code is rejected whatever follows. */
  lemma {:induction false} LowerCaseCountryRejected(c: char, rest: string)
    requires 'a' <= c <= 'z'
    ensures ParseIsin([c] + rest) == Err(InvalidIso6166)
  {
    assert ([c] + rest)[1..] == rest;
    assert StripHyphens([c] + rest) == [c] + StripHyphens(rest);
  }

  /** Normal form of a hyphen-free string with one hyphen inserted. */
  lemma StripOneHyphen(a: string, b: string)
    requires '-' !in a + b
    ensures StripHyphens(a + "-" + b) == a + b
  {
    DropHyphen(a, b);
    StripHyphensFree(a + b);
  }

  /** Normal form of a hyphen-free string with two hyphens inserted. */
  lemma StripTwoHyphens(a: string, b: string, c: string)
    requires '-' !in a + b + c
    ensures StripHyphens(a + "-" + b + "-" + c) == a + b + c
  {
    DropHyphen(a + "-" + b, c);
    assert a + "-" + b + c == a + "-" + (b + c);
    DropHyphen(a, b + c);
    assert a + (b + c) == a + b + c;
    StripHyphensFree(a + b + c);
  }

  /** The two normalized codes of the accepted examples match the pattern. */
  lemma NormalizedExamplesMatch()
    ensures MatchesIso6166Pattern("NA000K0VF054")
    ensures MatchesIso6166Pattern("US0004026250")
  {
  }

  /** The punctuated example fails the pattern once normalized. */
  lemma PunctuatedExampleFails()
    ensures !MatchesIso6166Pattern("NA000K0VF05!4")
  {
  }

  /** "NA-000K0VF05-4" is accepted and stored verbatim. */
  lemma AcceptsHyphenatedNa()
    ensures ParseIsin("NA-000K0VF05-4") == Ok(Isin("NA-000K0VF05-4"))
  {
    assert "NA-000K0VF05-4" == "NA" + "-" + "000K0VF05" + "-" + "4";
    assert "NA" + "000K0VF05" + "4" == "NA000K0VF054";
    StripTwoHyphens("NA", "000K0VF05", "4");
    NormalizedExamplesMatch();
  }

  /** "NA000K0VF054" is accepted and stored verbatim. */
  lemma AcceptsPlainNa()
    ensures ParseIsin("NA000K0VF054") == Ok(Isin("NA000K0VF054"))
  {
    StripHyphensFree("NA000K0VF054");
    NormalizedExamplesMatch();
  }

  /** "US-000402625-0" is accepted and stored verbatim. */
  lemma AcceptsHyphenatedUs()
    ensures ParseIsin("US-000402625-0") == Ok(Isin("US-000402625-0"))
  {
    assert "US-000402625-0" == "US" + "-" + "000402625" + "-" + "0";
    assert "US" + "000402625" + "0" == "US0004026250";
    StripTwoHyphens("US", "000402625", "0");
    NormalizedExamplesMatch();
  }

  /** "US0004026250" is accepted and stored verbatim. */
  lemma AcceptsPlainUs()
    ensures ParseIsin("US0004026250") == Ok(Isin("US0004026250"))
  {
    StripHyphensFree("US0004026250");
    NormalizedExamplesMatch();
  }

  /** "A-000K0VF05" is rejected: a one-letter country code leaves ten characters. */
  lemma RejectsShortCountryCode()
    ensures ParseIsin("A-000K0VF05") == Err(InvalidIso6166)
  {
    assert "A-000K0VF05" == "A" + "-" + "000K0VF05";
    assert "A" + "000K0VF05" == "A000K0VF05";
    StripOneHyphen("A", "000K0VF05");
  }

  /** "NA-000K0VF05!4" is rejected: '!' is outside the character class. */
  lemma RejectsPunctuation()
    ensures ParseIsin("NA-000K0VF05!4") == Err(InvalidIso6166)
  {
    assert "NA-000K0VF05!4" == "NA" + "-" + "000K0VF05!4";
    assert "NA" + "000K0VF05!4" == "NA000K0VF05!4";
    StripOneHyphen("NA", "000K0VF05!4");
    PunctuatedExampleFails();
  }

  /** "NA000K0VF0544" is rejected: thirteen characters. */
  lemma RejectsThirteenCharacters()
    ensures ParseIsin("NA000K0VF0544") == Err(InvalidIso6166)
  {
    StripHyphensFree("NA000K0VF0544");
  }

  /** "RAEA000K0VF054" is rejected: fourteen characters. */
  lemma RejectsFourLetterPrefix()
    ensures ParseIsin("RAEA000K0VF054") == Err(InvalidIso6166)
  {
    StripHyphensFree("RAEA000K0VF054");
  }

  /** "000402625-000" is rejected: the country code is made of digits. */
  lemma RejectsDigitCountryCode()
    ensures ParseIsin("000402625-000") == Err(InvalidIso6166)
  {
    assert "000402625-000" == "000402625" + "-" + "000";
    assert "000402625" + "000" == "000402625000";
    StripOneHyphen("000402625", "000");
  }

  /** "US00040262500" is rejected: thirteen characters. */
  lemma RejectsLongUs()
    ensures ParseIsin("US00040262500") == Err(InvalidIso6166)
  {
    StripHyphensFree("US00040262500");
  }
}
