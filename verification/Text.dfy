/** The string operations of Rust's standard library that the validators and the server rely on. */
module Text {
  import opened Wrappers

  /** The Unicode White_Space property, which `trim` and `split_whitespace` use. */
  predicate IsWhitespace(c: char) {
    || '\U{9}' <= c <= '\U{D}'
    || c == ' ' || c == '\U{85}' || c == '\U{A0}' || c == '\U{1680}'
    || '\U{2000}' <= c <= '\U{200A}'
    || c == '\U{2028}' || c == '\U{2029}' || c == '\U{202F}' || c == '\U{205F}' || c == '\U{3000}'
  }

  function TrimStart(s: string): string {
    if s != "" && IsWhitespace(s[0]) then TrimStart(s[1..]) else s
  }

  function TrimEnd(s: string): string {
    if s != "" && IsWhitespace(s[|s| - 1]) then TrimEnd(s[..|s| - 1]) else s
  }

  function Trim(s: string): string {
    TrimEnd(TrimStart(s))
  }

  /** `s.trim().is_empty()` */
  predicate Blank(s: string) {
    Trim(s) == ""
  }

  function AsciiLowerChar(c: char): char {
    if 'A' <= c <= 'Z' then c - 'A' + 'a' else c
  }

  function AsciiUpperChar(c: char): char {
    if 'a' <= c <= 'z' then c - 'a' + 'A' else c
  }

  function AsciiLower(s: string): string {
    seq(|s|, i requires 0 <= i < |s| => AsciiLowerChar(s[i]))
  }

  function AsciiUpper(s: string): string {
    seq(|s|, i requires 0 <= i < |s| => AsciiUpperChar(s[i]))
  }

  predicate EqIgnoreAsciiCase(s: string, t: string) {
    AsciiLower(s) == AsciiLower(t)
  }

  function StripPrefix(s: string, prefix: string): Option<string> {
    if prefix <= s then Some(s[|prefix|..]) else None
  }

  /** Splits at the first occurrence of `c`, which is dropped. */
  function SplitOnce(s: string, c: char): (r: Option<(string, string)>)
    ensures r.Some? ==> s == r.value.0 + [c] + r.value.1 && c !in r.value.0
    ensures r.None? ==> c !in s
  {
    if s == "" then None
    else if s[0] == c then Some(("", s[1..]))
    else
      match SplitOnce(s[1..], c)
      case None => None
      case Some((left, right)) => Some(([s[0]] + left, right))
  }

  lemma {:induction false} BlankStart(s: string)
    ensures TrimStart(s) == "" <==> forall i | 0 <= i < |s| :: IsWhitespace(s[i])
  {
    if s != "" {
      BlankStart(s[1..]);
      if IsWhitespace(s[0]) {
        assert forall i | 0 < i < |s| :: s[i] == s[1..][i - 1];
      }
    }
  }

  lemma {:induction false} BlankEnd(s: string)
    ensures TrimEnd(s) == "" <==> forall i | 0 <= i < |s| :: IsWhitespace(s[i])
  {
    if s != "" {
      BlankEnd(s[..|s| - 1]);
    }
  }

  lemma {:induction false} TrimStartSuffix(s: string)
    ensures TrimStart(s) == "" || !IsWhitespace(TrimStart(s)[0])
  {
    if s != "" && IsWhitespace(s[0]) {
      TrimStartSuffix(s[1..]);
    }
  }

  /** A string is blank exactly when every character of it is white space. */
  lemma BlankMeansWhitespace(s: string)
    ensures Blank(s) <==> forall i | 0 <= i < |s| :: IsWhitespace(s[i])
  {
    BlankStart(s);
    BlankEnd(TrimStart(s));
    TrimStartSuffix(s);
  }

  // ----- what the operations mean -----

  /** The 25 code points of the property White_Space in Unicode's PropList. */
  lemma WhitespaceMeans(c: char)
    ensures IsWhitespace(c) <==> c as int in {
              0x9, 0xA, 0xB, 0xC, 0xD, 0x20, 0x85, 0xA0, 0x1680, 0x2000, 0x2001, 0x2002, 0x2003, 0x2004, 0x2005,
              0x2006, 0x2007, 0x2008, 0x2009, 0x200A, 0x2028, 0x2029, 0x202F, 0x205F, 0x3000}
  {
  }

  /** The same character, or the same ASCII letter in the other case. */
  predicate SameLetter(c: char, d: char) {
    c == d || ('A' <= c <= 'Z' && d as int == c as int + 32) || ('A' <= d <= 'Z' && c as int == d as int + 32)
  }

  predicate SameLetters(s: string, t: string) {
    |s| == |t| && forall i | 0 <= i < |s| :: SameLetter(s[i], t[i])
  }

  lemma IgnoringCaseMeans(s: string, t: string)
    ensures EqIgnoreAsciiCase(s, t) <==> SameLetters(s, t)
  {
    if EqIgnoreAsciiCase(s, t) {
      assert |s| == |AsciiLower(s)| == |t|;
      forall i | 0 <= i < |s| ensures SameLetter(s[i], t[i]) {
        assert AsciiLower(s)[i] == AsciiLower(t)[i];
      }
    }
  }

  /** Upper-casing changes nothing but the case of letters, and leaves no lower-case letter. */
  lemma UpperMeans(s: string, t: string)
    ensures t == AsciiUpper(s) <==> SameLetters(s, t) && forall i | 0 <= i < |t| :: !('a' <= t[i] <= 'z')
  {
    if SameLetters(s, t) && forall i | 0 <= i < |t| :: !('a' <= t[i] <= 'z') {
      assert forall i | 0 <= i < |t| :: t[i] == AsciiUpper(s)[i];
    }
  }

  lemma LowerMeans(s: string, t: string)
    ensures t == AsciiLower(s) <==> SameLetters(s, t) && forall i | 0 <= i < |t| :: !('A' <= t[i] <= 'Z')
  {
    if SameLetters(s, t) && forall i | 0 <= i < |t| :: !('A' <= t[i] <= 'Z') {
      assert forall i | 0 <= i < |t| :: t[i] == AsciiLower(s)[i];
    }
  }

  /** `Trim` cuts off white space on both sides, and all of it. */
  lemma {:induction false} TrimStartCuts(s: string) returns (i: nat)
    ensures i <= |s| && TrimStart(s) == s[i..] && forall k | 0 <= k < i :: IsWhitespace(s[k])
    ensures i < |s| ==> !IsWhitespace(s[i])
  {
    if s != "" && IsWhitespace(s[0]) {
      var n := TrimStartCuts(s[1..]);
      i := n + 1;
      assert s[1..][n..] == s[i..];
      assert forall k | 0 < k < i :: s[k] == s[1..][k - 1];
    } else {
      i := 0;
    }
  }

  lemma {:induction false} TrimEndCuts(s: string) returns (j: nat)
    ensures j <= |s| && TrimEnd(s) == s[..j] && forall k | j <= k < |s| :: IsWhitespace(s[k])
    ensures 0 < j ==> !IsWhitespace(s[j - 1])
  {
    if s != "" && IsWhitespace(s[|s| - 1]) {
      j := TrimEndCuts(s[..|s| - 1]);
      assert s[..|s| - 1][..j] == s[..j];
    } else {
      j := |s|;
    }
  }

  /** `word` stands at `i` in `s`, in letters of any case, with nothing but white space around it. */
  predicate SpelledAt(s: string, word: string, i: nat) {
    && i + |word| <= |s|
    && (forall k | 0 <= k < |s| && !(i <= k < i + |word|) :: IsWhitespace(s[k]))
    && SameLetters(s[i..i + |word|], word)
  }

  ghost predicate Spells(s: string, word: string) {
    exists i: nat :: SpelledAt(s, word, i)
  }

  /** A word as the validators compare with: not empty, without white space and upper-case letters. */
  predicate IsKeyword(word: string) {
    word != "" && forall k | 0 <= k < |word| :: !IsWhitespace(word[k]) && !('A' <= word[k] <= 'Z')
  }

  /** `s.trim().to_ascii_lowercase() == word` */
  lemma TrimmedLowerMeans(s: string, word: string)
    requires IsKeyword(word)
    ensures AsciiLower(Trim(s)) == word <==> Spells(s, word)
  {
    var i := TrimStartCuts(s);
    var n := TrimEndCuts(s[i..]);
    var t := s[i..][..n];
    assert Trim(s) == t && t == s[i..i + n];
    assert forall k | i + n <= k < |s| :: s[k] == s[i..][k - i];
    assert forall k | 0 <= k < n :: t[k] == s[i + k];
    if AsciiLower(t) == word {
      assert |t| == |word|;
      forall k | 0 <= k < |t| ensures SameLetter(t[k], word[k]) {
        assert AsciiLower(t)[k] == word[k];
      }
      assert SpelledAt(s, word, i);
    }
    if i': nat :| SpelledAt(s, word, i') {
      var m := |word|;
      assert SameLetter(s[i'..i' + m][0], word[0]) && SameLetter(s[i'..i' + m][m - 1], word[m - 1]);
      assert !IsWhitespace(s[i']) && !IsWhitespace(s[i' + m - 1]);
      assert i == i';
      assert n == m;
      forall k | 0 <= k < n ensures AsciiLower(t)[k] == word[k] {
        assert SameLetter(s[i'..i' + m][k], word[k]);
      }
      assert AsciiLower(t) == word;
    }
  }
}
