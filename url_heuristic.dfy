/** The URL heuristic of the transcription tool: an input counts as a URL
    exactly when it begins with one of a fixed list of prefixes. The check
    is a plain, case-sensitive prefix test; nothing else about the text is
    inspected. */
module UrlHeuristic {

  /** The prefixes, in the order the tool lists them. */
  const UrlPrefixes: seq<string> := ["http://", "https://", "www.", "youtube.com", "youtu.be"]

  /** `text` begins with `prefix` (Python's `str.startswith` for one prefix). */
  predicate StartsWith(text: string, prefix: string): (b: bool)
    // character by character: the text is long enough and agrees with the prefix
    ensures b <==> |prefix| <= |text| && forall k | 0 <= k < |prefix| :: text[k] == prefix[k]
  {
    |prefix| <= |text| && text[..|prefix|] == prefix
  }

  /** `text` begins with at least one of `prefixes` (Python's `str.startswith`
      given a tuple, which tries the prefixes in order). */
  function StartsWithAny(text: string, prefixes: seq<string>): bool
  {
    if prefixes == [] then false
    else StartsWith(text, prefixes[0]) || StartsWithAny(text, prefixes[1..])
  }

  /** StartsWithAny holds exactly when some member of the tuple is a prefix. */
  lemma {:induction false} StartsWithAnyIff(text: string, prefixes: seq<string>)
    ensures StartsWithAny(text, prefixes) <==> exists i :: 0 <= i < |prefixes| && StartsWith(text, prefixes[i])
  {
    if prefixes != [] {
      StartsWithAnyIff(text, prefixes[1..]);
      if StartsWithAny(text, prefixes[1..]) {
        var j :| 0 <= j < |prefixes[1..]| && StartsWith(text, prefixes[1..][j]);
        assert StartsWith(text, prefixes[j + 1]);
      }
      forall i | 0 < i < |prefixes| && StartsWith(text, prefixes[i])
        ensures StartsWithAny(text, prefixes[1..])
      {
        assert prefixes[1..][i - 1] == prefixes[i];
      }
    }
  }

  /** The tool's URL test. */
  predicate IsLikelyUrl(text: string)
  {
    StartsWithAny(text, UrlPrefixes)
  }

  /** The test holds exactly for the five prefixes, and for nothing else. */
  lemma IsLikelyUrlCases(text: string)
    ensures IsLikelyUrl(text) <==>
      || StartsWith(text, "http://")
      || StartsWith(text, "https://")
      || StartsWith(text, "www.")
      || StartsWith(text, "youtube.com")
      || StartsWith(text, "youtu.be")
  {
    StartsWithAnyIff(text, UrlPrefixes);
    if IsLikelyUrl(text) {
      var i :| 0 <= i < |UrlPrefixes| && StartsWith(text, UrlPrefixes[i]);
      assert UrlPrefixes[i] in UrlPrefixes;
    } else {
      assert forall i :: 0 <= i < 5 ==> !StartsWith(text, UrlPrefixes[i]);
      assert UrlPrefixes[0] == "http://" && UrlPrefixes[1] == "https://" && UrlPrefixes[2] == "www.";
      assert UrlPrefixes[3] == "youtube.com" && UrlPrefixes[4] == "youtu.be";
    }
  }

  /** A prefix of `text` stays a prefix of anything `text` is extended to. */
  lemma StartsWithExtends(text: string, suffix: string, prefix: string)
    requires StartsWith(text, prefix)
    ensures StartsWith(text + suffix, prefix)
  {
    assert (text + suffix)[..|prefix|] == text[..|prefix|];
  }

  /** Appending anything to a URL-like input leaves it URL-like. */
  lemma IsLikelyUrlExtends(text: string, suffix: string)
    requires IsLikelyUrl(text)
    ensures IsLikelyUrl(text + suffix)
  {
    StartsWithAnyIff(text, UrlPrefixes);
    StartsWithAnyIff(text + suffix, UrlPrefixes);
    var i :| 0 <= i < |UrlPrefixes| && StartsWith(text, UrlPrefixes[i]);
    StartsWithExtends(text, suffix, UrlPrefixes[i]);
  }

  /** The shortest prefix, "www.", has four characters: no shorter input,
      the empty one included, looks like a URL. */
  lemma ShortInputIsNotUrl(text: string)
    requires |text| < 4
    ensures !IsLikelyUrl(text)
  {
    StartsWithAnyIff(text, UrlPrefixes);
    forall i | 0 <= i < |UrlPrefixes|
      ensures !StartsWith(text, UrlPrefixes[i])
    {
      assert |UrlPrefixes[i]| >= 4;
    }
  }

  /** The bound of ShortInputIsNotUrl is tight: four characters suffice. */
  lemma FourCharacterUrl()
    ensures IsLikelyUrl("www.")
  {
    StartsWithAnyIff("www.", UrlPrefixes);
    assert StartsWith("www.", UrlPrefixes[2]);
  }

  /** Every prefix begins with a lower-case 'h', 'w' or 'y', so a URL-like
      input begins with one of these. */
  lemma UrlStartsLowerCase(text: string)
    requires IsLikelyUrl(text)
    ensures |text| > 0 && (text[0] == 'h' || text[0] == 'w' || text[0] == 'y')
  {
    StartsWithAnyIff(text, UrlPrefixes);
    var i :| 0 <= i < |UrlPrefixes| && StartsWith(text, UrlPrefixes[i]);
    assert text[0] == text[..|UrlPrefixes[i]|][0] == UrlPrefixes[i][0];
  }

  /** The test is case-sensitive: an input that begins with an upper-case
      letter ("HTTP://", "WWW.", "YouTube.com") never looks like a URL. */
  lemma UpperCaseInputIsNotUrl(text: string)
    requires |text| > 0 && 'A' <= text[0] <= 'Z'
    ensures !IsLikelyUrl(text)
  {
    if IsLikelyUrl(text) {
      UrlStartsLowerCase(text);
      assert false;
    }
  }
}
