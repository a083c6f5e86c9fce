/** `_AUTH_URL_PATTERN.search(text)`: the one fixed pattern
        https?://accounts\.google\.com[^\s"'>]+   (case-insensitive)
    written out as a scanner. The reference semantics is `InPattern` (the
    set of strings the pattern matches as a whole) together with `FirstMatch`
    (the leftmost start, then the longest match there), which is what
    Python's backtracking matcher yields for this pattern: its only choices
    are the optional "s", which cannot go both ways at one position, and the
    greedy final character class, which nothing follows. */
module AuthUrl {
  import opened PyStrings

  const HttpsPrefix: string := "https://accounts.google.com"
  const HttpPrefix: string := "http://accounts.google.com"

  /** Text character `c` matches pattern character `p` (written in lower
      case) under `re.IGNORECASE` on a str pattern: the character itself,
      its ASCII upper case, and for "s" also the long s (U+017F), which
      Python's case folding equates with it. No other letter of the pattern
      has an extra case form. */
  predicate FoldsTo(c: char, p: char) {
    || c == p
    || ('a' <= p <= 'z' && c as int == p as int - 32)
    || (p == 's' && c == '\U{017F}')
  }

  /** The final class `[^\s"'>]`. */
  predicate UrlChar(c: char) {
    !IsSpace(c) && c != '"' && c != '\'' && c != '>'
  }

  /** The literal part `p` of the pattern matches `s` at position `i`. */
  predicate PrefixAt(s: string, i: nat, p: string) {
    i + |p| <= |s| && forall k :: 0 <= k < |p| ==> FoldsTo(s[i + k], p[k])
  }

  /** `s[i..j]` is the literal part `p` followed by at least one URL character. */
  predicate SpanMatches(s: string, i: nat, j: nat, p: string) {
    i + |p| < j <= |s| && PrefixAt(s, i, p) && forall k :: i + |p| <= k < j ==> UrlChar(s[k])
  }

  /** The whole of `t` matches the pattern. */
  predicate InPattern(t: string) {
    SpanMatches(t, 0, |t|, HttpsPrefix) || SpanMatches(t, 0, |t|, HttpPrefix)
  }

  /** `s[i..j]` is the match `search` reports: no match starts before `i`,
      and none starting at `i` is longer. */
  predicate FirstMatch(s: string, i: nat, j: nat) {
    && i < j <= |s|
    && InPattern(s[i..j])
    && (forall j' :: j < j' <= |s| ==> !InPattern(s[i..j']))
    && (forall i', j' :: 0 <= i' < i && i' <= j' <= |s| ==> !InPattern(s[i'..j']))
  }

  lemma InPatternSpan(s: string, i: nat, j: nat)
    requires i <= j <= |s|
    ensures InPattern(s[i..j]) <==> SpanMatches(s, i, j, HttpsPrefix) || SpanMatches(s, i, j, HttpPrefix)
  {
    var t := s[i..j];
    assert forall k :: 0 <= k < |t| ==> t[k] == s[i + k];
    forall p | p == HttpsPrefix || p == HttpPrefix
      ensures SpanMatches(t, 0, |t|, p) <==> SpanMatches(s, i, j, p)
    {
      if SpanMatches(s, i, j, p) {
        assert forall k :: |p| <= k < |t| ==> UrlChar(t[k]) by {
          forall k | |p| <= k < |t| ensures UrlChar(t[k]) {
            assert t[k] == s[i + k];
          }
        }
      }
      if SpanMatches(t, 0, |t|, p) {
        assert forall k :: i + |p| <= k < j ==> UrlChar(s[k]) by {
          forall k | i + |p| <= k < j ensures UrlChar(s[k]) {
            assert s[k] == t[k - i];
          }
        }
      }
    }
  }

  /** The two literal parts never both match at one position: the fifth
      character is an "s" for one and ":" for the other. */
  lemma PrefixesExclusive(s: string, i: nat)
    ensures PrefixAt(s, i, HttpsPrefix) ==> !PrefixAt(s, i, HttpPrefix)
  {
    if PrefixAt(s, i, HttpsPrefix) {
      assert FoldsTo(s[i + 4], HttpsPrefix[4]);
      assert !FoldsTo(s[i + 4], HttpPrefix[4]);
    }
  }

  /** The end of the run of URL characters that starts at `k`. */
  function RunEnd(s: string, k: nat): (e: nat)
    requires k <= |s|
    ensures k <= e <= |s|
    ensures forall x :: k <= x < e ==> UrlChar(s[x])
    ensures e == |s| || !UrlChar(s[e])
    decreases |s| - k
  {
    if k < |s| && UrlChar(s[k]) then RunEnd(s, k + 1) else k
  }

  /** The pattern tried at position `i`: the end of the match there, if any. */
  function MatchAt(s: string, i: nat): (r: Option<nat>)
    requires i <= |s|
  {
    if PrefixAt(s, i, HttpsPrefix) && i + |HttpsPrefix| < |s| && UrlChar(s[i + |HttpsPrefix|]) then
      Some(RunEnd(s, i + |HttpsPrefix|))
    else if PrefixAt(s, i, HttpPrefix) && i + |HttpPrefix| < |s| && UrlChar(s[i + |HttpPrefix|]) then
      Some(RunEnd(s, i + |HttpPrefix|))
    else
      None
  }

  /** `MatchAt` finds the longest match at `i`, and finds one whenever there is one. */
  lemma MatchAtCorrect(s: string, i: nat)
    requires i <= |s|
    ensures MatchAt(s, i).Some? ==>
      var e := MatchAt(s, i).value;
      i < e <= |s| && InPattern(s[i..e]) && forall j :: e < j <= |s| ==> !InPattern(s[i..j])
    ensures MatchAt(s, i).None? ==> forall j :: i <= j <= |s| ==> !InPattern(s[i..j])
  {
    PrefixesExclusive(s, i);
    var r := MatchAt(s, i);
    if r.Some? {
      var e := r.value;
      InPatternSpan(s, i, e);
      forall j | e < j <= |s| ensures !InPattern(s[i..j]) {
        InPatternSpan(s, i, j);
      }
    } else {
      forall j | i <= j <= |s| ensures !InPattern(s[i..j]) {
        InPatternSpan(s, i, j);
      }
    }
  }

  /** The leftmost match starting at or after `from`, as (start, end). */
  function Find(s: string, from: nat): (r: Option<(nat, nat)>)
    requires from <= |s|
    ensures r.Some? ==> from <= r.value.0 < r.value.1 <= |s| && InPattern(s[r.value.0..r.value.1])
    ensures r.Some? ==> forall j :: r.value.1 < j <= |s| ==> !InPattern(s[r.value.0..j])
    ensures r.Some? ==> forall i, j :: from <= i < r.value.0 && i <= j <= |s| ==> !InPattern(s[i..j])
    ensures r.None? ==> forall i, j :: from <= i <= j <= |s| ==> !InPattern(s[i..j])
    decreases |s| - from
  {
    MatchAtCorrect(s, from);
    match MatchAt(s, from)
    case Some(e) => Some((from, e))
    case None => if from == |s| then None else Find(s, from + 1)
  }

  /** `_AUTH_URL_PATTERN.search(s)`, reduced to the matched text `m.group(0)`. */
  function Search(s: string): (r: Option<string>)
    ensures r.Some? ==> InPattern(r.value) && |r.value| > |HttpPrefix|
    ensures r.Some? ==> exists i: nat, j: nat :: FirstMatch(s, i, j) && r.value == s[i..j]
    ensures r.None? <==> forall i, j :: 0 <= i <= j <= |s| ==> !InPattern(s[i..j])
  {
    match Find(s, 0)
    case Some((i, j)) =>
      assert FirstMatch(s, i, j);
      Some(s[i..j])
    case None => None
  }

  /** What `FirstMatch` describes is one span at most: the leftmost,
      longest match is determined by the text. */
  lemma FirstMatchUnique(s: string, i1: nat, j1: nat, i2: nat, j2: nat)
    requires FirstMatch(s, i1, j1) && FirstMatch(s, i2, j2)
    ensures i1 == i2 && j1 == j2
  {
  }

  lemma ExtendMatch(s: string, i: nat, j: nat)
    requires i <= j < |s| && InPattern(s[i..j]) && UrlChar(s[j])
    ensures InPattern(s[i..j + 1])
  {
    InPatternSpan(s, i, j);
    InPatternSpan(s, i, j + 1);
    if SpanMatches(s, i, j, HttpsPrefix) {
      SpanExtends(s, i, j, HttpsPrefix);
    } else {
      SpanExtends(s, i, j, HttpPrefix);
    }
  }

  lemma SpanExtends(s: string, i: nat, j: nat, p: string)
    requires SpanMatches(s, i, j, p) && j < |s| && UrlChar(s[j])
    ensures SpanMatches(s, i, j + 1, p)
  {
  }

  /** A reported match ends at the end of the text or just before a
      whitespace character, a quote or `>`. */
  lemma MatchEndsAtDelimiter(s: string, i: nat, j: nat)
    requires FirstMatch(s, i, j)
    ensures j == |s| || !UrlChar(s[j])
  {
    if j < |s| && UrlChar(s[j]) {
      ExtendMatch(s, i, j);
      assert false;
    }
  }

  /** An OAuth login link inside a sentence. */
  const Lead: string := "Please visit "
  const LoginLink: string := HttpsPrefix + "/o/oauth2/auth?foo=bar"
  const LoginText: string := Lead + LoginLink + " to continue"

  lemma SearchFindsLoginLink()
    ensures Search(LoginText) == Some(LoginLink)
  {
    var s, e := LoginText, 62;
    LoginLinkSpan();
    InPatternSpan(s, 13, e);
    forall j | e < j <= |s| ensures !InPattern(s[13..j]) {
      InPatternSpan(s, 13, j);
      PrefixesExclusive(s, 13);
    }
    forall i, j | 0 <= i < 13 && i <= j <= |s| ensures !InPattern(s[i..j]) {
      NothingStartsInLead(i, j);
    }
    assert FirstMatch(s, 13, e);
    var i: nat, j: nat :| FirstMatch(s, i, j) && Search(s).value == s[i..j];
    FirstMatchUnique(s, i, j, 13, e);
  }

  /** In the login text the link occupies positions 13 to 62, and a space follows it. */
  lemma LoginLinkSpan()
    ensures |LoginText| > 62 && LoginText[13..62] == LoginLink
    ensures SpanMatches(LoginText, 13, 62, HttpsPrefix) && LoginText[62] == ' '
  {
    var s := LoginText;
    LoginLinkPlaced();
    LoginLinkShape();
    assert forall k :: 0 <= k < 49 ==> s[13 + k] == LoginLink[k];
    assert PrefixAt(s, 13, HttpsPrefix);
    forall k | 40 <= k < 62 ensures UrlChar(s[k]) {
      assert s[k] == LoginLink[k - 13];
    }
  }

  lemma LoginLinkPlaced()
    ensures |LoginText| > 62 && LoginText[13..62] == LoginLink && LoginText[62] == ' '
  {
    assert |Lead| == 13 && |LoginLink| == 49;
    assert LoginText == Lead + LoginLink + " to continue";
  }

  /** The link itself: the https prefix, then URL characters only. */
  lemma LoginLinkShape()
    ensures |LoginLink| == 49 && PrefixAt(LoginLink, 0, HttpsPrefix)
    ensures forall k :: 27 <= k < 49 ==> UrlChar(LoginLink[k])
  {
    assert LoginLink[..27] == HttpsPrefix;
  }

  /** No match starts inside "Please visit ": it has no "h". */
  lemma NothingStartsInLead(i: nat, j: nat)
    requires i < 13 && i <= j <= |LoginText|
    ensures !InPattern(LoginText[i..j])
  {
    var s := LoginText;
    assert s[i] == Lead[i];
    assert Lead[i] in Lead;
    assert 'h' !in Lead && 'H' !in Lead;
    assert !FoldsTo(s[i + 0], HttpsPrefix[0]) && !FoldsTo(s[i + 0], HttpPrefix[0]);
    InPatternSpan(s, i, j);
  }
}
