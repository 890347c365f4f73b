/** Country code to flag emoji, as in `utils/flagEmoji.js`: each of the first
    two characters becomes a Unicode regional-indicator symbol. */
module FlagEmoji {
  import opened Text

  /** Regional indicator symbol letter A. */
  const RegionalA := 0x1_F1E6

  /** The code point a character is mapped to: `0x1F1E6 + (charCode - 65)`. */
  function RegionalIndicator(u: CodeUnit): (cp: int)
    ensures 0 <= cp <= MaxCodePoint && !(0xD800 <= cp <= 0xDFFF)
    ensures 'A' as int <= u <= 'Z' as int ==> RegionalA <= cp <= RegionalA + 25 && cp - RegionalA == u - 'A' as int
  {
    RegionalA + (u - 65)
  }

  /** The code points of the flag for an already upper-cased, already
      shortened code: one regional indicator per code point of `upper`. */
  function FlagCodePoints(upper: Str): (cps: seq<int>)
    ensures |cps| == |CodePoints(upper)|
    ensures ScalarValues(cps)
  {
    var lead := LeadUnits(upper);
    seq(|lead|, i requires 0 <= i < |lead| => RegionalIndicator(lead[i]))
  }

  /** `countryCodeToFlagEmoji(countryCode)`. */
  function CountryCodeToFlagEmoji(countryCode: Option<Str>): (r: Str)
    ensures countryCode.None? || countryCode.value == [] ==> r == []
    ensures countryCode.Some? && countryCode.value != [] ==>
      CodePoints(r) == FlagCodePoints(Prefix(ToUpper(countryCode.value), 2))
  {
    match countryCode
    case None => []
    case Some(code) =>
      if code == [] then []
      else
        var cps := FlagCodePoints(Prefix(ToUpper(code), 2));
        CodePointsOfEncoding(cps);
        EncodeCodePoints(cps)
  }

  predicate NoSurrogates(s: Str) {
    forall i :: 0 <= i < |s| ==> !(0xD800 <= s[i] <= 0xDFFF)
  }

  /** Without surrogates every unit is a code point of its own. */
  lemma {:induction false} LeadUnitsWithoutSurrogates(s: Str)
    requires NoSurrogates(s)
    ensures LeadUnits(s) == s
  {
    if s != [] {
      assert NoSurrogates(s[1..]) by {
        forall i | 0 <= i < |s[1..]| ensures !(0xD800 <= s[1..][i] <= 0xDFFF) {
          assert s[1..][i] == s[i + 1];
        }
      }
      LeadUnitsWithoutSurrogates(s[1..]);
    }
  }

  /** For a code without surrogates (any ASCII code, say) the flag has one
      regional indicator for each of the first `min(2, length)` characters,
      in order, computed from the upper-cased character. */
  lemma FlagOfPlainCode(code: Str)
    requires code != [] && NoSurrogates(code)
    ensures var cps := CodePoints(CountryCodeToFlagEmoji(Some(code)));
      |cps| == (if |code| < 2 then |code| else 2) &&
      forall i :: 0 <= i < |cps| ==> cps[i] == RegionalA + UpperUnit(code[i]) - 'A' as int
  {
    var upper := Prefix(ToUpper(code), 2);
    assert NoSurrogates(upper);
    LeadUnitsWithoutSurrogates(upper);
  }

  /** A two-letter code, in either case, becomes two regional indicators in
      the range U+1F1E6..U+1F1FF whose offsets are the letters' alphabet
      positions; the encoded flag is four code units long. */
  lemma FlagOfLetters(code: Str)
    requires |code| == 2
    requires forall i :: 0 <= i < 2 ==> 'A' as int <= UpperUnit(code[i]) <= 'Z' as int
    ensures var cps := CodePoints(CountryCodeToFlagEmoji(Some(code)));
      |cps| == 2 &&
      (forall i :: 0 <= i < 2 ==> RegionalA <= cps[i] <= RegionalA + 25 && cps[i] - RegionalA == UpperUnit(code[i]) - 'A' as int)
    ensures |CountryCodeToFlagEmoji(Some(code))| == 4
  {
    assert NoSurrogates(code);
    FlagOfPlainCode(code);
    var upper := Prefix(ToUpper(code), 2);
    LeadUnitsWithoutSurrogates(upper);
    var cps := FlagCodePoints(upper);
    assert |EncodeCodePoint(cps[0])| == 2 && |EncodeCodePoint(cps[1])| == 2;
    assert EncodeCodePoints(cps) == EncodeCodePoint(cps[0]) + EncodeCodePoints(cps[1..]);
    assert EncodeCodePoints(cps[1..]) == EncodeCodePoint(cps[1]) + EncodeCodePoints(cps[1..][1..]);
    assert cps[1..][1..] == [];
  }

  /** Case does not matter: two codes that upper-case alike give the same flag
      (in particular `"us"` and `"US"`). */
  lemma FlagIgnoresCase(a: Str, b: Str)
    requires ToUpper(a) == ToUpper(b)
    ensures CountryCodeToFlagEmoji(Some(a)) == CountryCodeToFlagEmoji(Some(b))
  {
  }
}
