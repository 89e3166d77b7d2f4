/** Scope strings: `parse_scope` and `scope_to_string` (section 3.3 of RFC 6749). */
module Scope {
  import opened Wrappers
  import opened Text

  /** A scope token: non-empty and free of white space. */
  predicate IsWord(w: string) {
    w != "" && forall i | 0 <= i < |w| :: !IsWhitespace(w[i])
  }

  // ----- parsing -----

  /** The length of the run of non-white-space characters that starts `s`. */
  function TokenEnd(s: string): (n: nat)
    ensures n <= |s|
    ensures forall i | 0 <= i < n :: !IsWhitespace(s[i])
    ensures n < |s| ==> IsWhitespace(s[n])
  {
    if s == "" || IsWhitespace(s[0]) then 0 else 1 + TokenEnd(s[1..])
  }

  /** `split_whitespace` */
  function Words(s: string): seq<string>
    decreases |s|
  {
    if s == "" then []
    else if IsWhitespace(s[0]) then Words(s[1..])
    else var n := TokenEnd(s); [s[..n]] + Words(s[n..])
  }

  function ParseScope(scope: Option<string>): set<string> {
    match scope
    case None => {}
    case Some(text) => set w | w in Words(text)
  }

  /** `s[i..j]` is a run of non-white-space characters that cannot be extended on either side. */
  ghost predicate MaximalRun(s: string, i: nat, j: nat) {
    && i < j <= |s|
    && (forall k | i <= k < j :: !IsWhitespace(s[k]))
    && (0 < i ==> IsWhitespace(s[i - 1]))
    && (j < |s| ==> IsWhitespace(s[j]))
  }

  /** `w` occurs in `s` as a maximal run. */
  ghost predicate HasRun(s: string, w: string) {
    exists i: nat, j: nat :: MaximalRun(s, i, j) && s[i..j] == w
  }

  /** Where the string left of `t` ends allows a word to start. */
  predicate Boundary(left: string, t: string) {
    left == "" || t == "" || IsWhitespace(left[|left| - 1]) || IsWhitespace(t[0])
  }

  lemma FirstTokenIsRun(left: string, t: string)
    requires t != "" && !IsWhitespace(t[0]) && Boundary(left, t)
    ensures HasRun(left + t, t[..TokenEnd(t)])
  {
    var s, n, m := left + t, |left|, TokenEnd(t);
    assert MaximalRun(s, n, n + m) && s[n..n + m] == t[..m];
  }

  /** Words of a suffix that starts at a white-space boundary are words of the whole string. */
  lemma {:induction false} WordsAreRuns(left: string, t: string, w: string)
    requires w in Words(t) && Boundary(left, t)
    ensures HasRun(left + t, w)
    decreases |t|
  {
    var m := if IsWhitespace(t[0]) then 1 else TokenEnd(t);
    var left', t' := left + t[..m], t[m..];
    assert left' + t' == left + t;
    if !IsWhitespace(t[0]) {
      FirstTokenIsRun(left, t);
    }
    if w in Words(t') {
      WordsAreRuns(left', t', w);
    }
  }

  lemma SliceOfDrop(s: string, n: nat, i: nat, j: nat)
    requires n <= i <= j <= |s|
    ensures s[n..][i - n..j - n] == s[i..j]
  {
  }

  lemma {:induction false} RunsAreWords(s: string, i: nat, j: nat)
    requires MaximalRun(s, i, j)
    ensures s[i..j] in Words(s)
    decreases |s|
  {
    var n := if IsWhitespace(s[0]) then 1 else TokenEnd(s);
    if i > 0 || IsWhitespace(s[0]) {
      assert n <= i;
      SliceOfDrop(s, n, i, j);
      RunsAreWords(s[n..], i - n, j - n);
    }
  }

  /** Parsing yields exactly the maximal runs of non-white-space characters. */
  lemma ParseYieldsRuns(s: string, w: string)
    ensures w in ParseScope(Some(s)) <==> HasRun(s, w)
  {
    if w in Words(s) {
      WordsAreRuns("", s, w);
      assert "" + s == s;
    }
    if i: nat, j: nat :| MaximalRun(s, i, j) && s[i..j] == w {
      RunsAreWords(s, i, j);
    }
  }

  lemma ParsedWords(scope: Option<string>)
    ensures forall w | w in ParseScope(scope) :: IsWord(w)
  {
    if scope.Some? {
      forall w | w in ParseScope(scope) ensures IsWord(w) {
        ParseYieldsRuns(scope.value, w);
        var i: nat, j: nat :| MaximalRun(scope.value, i, j) && scope.value[i..j] == w;
        assert forall k | 0 <= k < |w| :: w[k] == scope.value[i + k];
      }
    }
  }

  // ----- printing -----

  /** Rust's string order: lexicographic by scalar value, which UTF-8 preserves. */
  predicate AtMost(s: string, t: string) {
    s == "" || (t != "" && (s[0] < t[0] || (s[0] == t[0] && AtMost(s[1..], t[1..]))))
  }

  function InsertWord(w: string, sorted: seq<string>): seq<string> {
    if sorted == [] || AtMost(w, sorted[0]) then [w] + sorted
    else [sorted[0]] + InsertWord(w, sorted[1..])
  }

  function SortWords(words: seq<string>): seq<string> {
    if words == [] then [] else InsertWord(words[0], SortWords(words[1..]))
  }

  /** `parts.join(" ")` */
  function Join(parts: seq<string>): string {
    if parts == [] then ""
    else if |parts| == 1 then parts[0]
    else parts[0] + " " + Join(parts[1..])
  }

  /** `words` lists the set once each, in an order nothing fixes: how a hash set iterates. */
  ghost predicate Enumerates(words: seq<string>, scope: set<string>) {
    && (forall w :: w in words <==> w in scope)
    && (forall i, j | 0 <= i < j < |words| :: words[i] != words[j])
  }

  /** Some enumeration of the set. */
  ghost function Enumeration(scope: set<string>): (words: seq<string>)
    ensures Enumerates(words, scope)
  {
    if scope == {} then []
    else
      var w :| w in scope;
      [w] + Enumeration(scope - {w})
  }

  /** The text a set of scopes is printed as; `PrintIgnoresOrder` shows no enumeration matters. */
  ghost function ScopeText(scope: set<string>): string {
    Join(SortWords(Enumeration(scope)))
  }

  method ScopeToString(scope: set<string>) returns (text: string)
    ensures text == ScopeText(scope)
  {
    var parts: seq<string> := [];
    var rest := scope;
    while rest != {}
      invariant rest <= scope
      invariant Enumerates(parts, scope - rest)
    {
      var w :| w in rest;
      assert w !in parts;
      parts, rest := parts + [w], rest - {w};
    }
    PrintIgnoresOrder(parts, Enumeration(scope), scope);
    text := Join(SortWords(parts));
  }

  lemma {:induction false} AtMostTotal(s: string, t: string)
    ensures AtMost(s, t) || AtMost(t, s)
    ensures AtMost(s, t) && AtMost(t, s) ==> s == t
  {
    if s != "" && t != "" && s[0] == t[0] {
      AtMostTotal(s[1..], t[1..]);
      assert s == [s[0]] + s[1..] && t == [t[0]] + t[1..];
    }
  }

  lemma {:induction false} AtMostTransitive(s: string, t: string, u: string)
    requires AtMost(s, t) && AtMost(t, u)
    ensures AtMost(s, u)
  {
    if s != "" && s[0] == t[0] == u[0] {
      AtMostTransitive(s[1..], t[1..], u[1..]);
    }
  }

  /** Strictly increasing. */
  predicate Sorted(words: seq<string>) {
    |words| <= 1 || (words[0] != words[1] && AtMost(words[0], words[1]) && Sorted(words[1..]))
  }

  lemma {:induction false} HeadIsLeast(words: seq<string>, w: string)
    requires Sorted(words) && w in words
    ensures AtMost(words[0], w)
    ensures w == words[0] ==> w !in words[1..]
  {
    AtMostTotal(words[0], words[0]);
    if w in words[1..] {
      HeadIsLeast(words[1..], w);
      AtMostTransitive(words[0], words[1], w);
      AtMostTotal(words[0], words[1]);
    }
  }

  lemma {:induction false} InsertKeepsSorted(w: string, sorted: seq<string>)
    requires Sorted(sorted) && w !in sorted
    ensures Sorted(InsertWord(w, sorted))
    ensures InsertWord(w, sorted)[0] == w || (sorted != [] && InsertWord(w, sorted)[0] == sorted[0])
  {
    if sorted != [] {
      AtMostTotal(w, sorted[0]);
      if !AtMost(w, sorted[0]) {
        InsertKeepsSorted(w, sorted[1..]);
        assert InsertWord(w, sorted)[1..] == InsertWord(w, sorted[1..]);
      } else {
        assert InsertWord(w, sorted)[1..] == sorted;
      }
    }
  }

  lemma {:induction false} InsertAdds(w: string, sorted: seq<string>, v: string)
    ensures v in InsertWord(w, sorted) <==> v == w || v in sorted
  {
    if sorted != [] && !AtMost(w, sorted[0]) {
      InsertAdds(w, sorted[1..], v);
    }
  }

  lemma {:induction false} SortKeepsElements(words: seq<string>, v: string)
    ensures v in SortWords(words) <==> v in words
  {
    if words != [] {
      InsertAdds(words[0], SortWords(words[1..]), v);
      SortKeepsElements(words[1..], v);
    }
  }

  /** Sorting an enumeration of a set puts its words in strictly increasing order. */
  lemma {:induction false} SortSorts(words: seq<string>)
    requires forall i, j | 0 <= i < j < |words| :: words[i] != words[j]
    ensures Sorted(SortWords(words))
  {
    if words != [] {
      SortSorts(words[1..]);
      SortKeepsElements(words[1..], words[0]);
      InsertKeepsSorted(words[0], SortWords(words[1..]));
    }
  }

  /** A strictly increasing sequence is determined by its elements. */
  lemma {:induction false} SortedUnique(p: seq<string>, q: seq<string>)
    requires Sorted(p) && Sorted(q) && forall w :: w in p <==> w in q
    ensures p == q
  {
    assert |p| == 0 <==> |q| == 0 by {
      assert p != [] ==> p[0] in q;
      assert q != [] ==> q[0] in p;
    }
    if p != [] {
      HeadIsLeast(p, q[0]);
      HeadIsLeast(q, p[0]);
      AtMostTotal(p[0], q[0]);
      HeadIsLeast(p, p[0]);
      HeadIsLeast(q, q[0]);
      forall w ensures w in p[1..] <==> w in q[1..] {
        assert w in p <==> w == p[0] || w in p[1..];
        assert w in q <==> w == q[0] || w in q[1..];
      }
      SortedUnique(p[1..], q[1..]);
      assert p == [p[0]] + p[1..] && q == [q[0]] + q[1..];
    }
  }

  /** The printed text does not depend on the iteration order of the hash set. */
  lemma PrintIgnoresOrder(p: seq<string>, q: seq<string>, scope: set<string>)
    requires Enumerates(p, scope) && Enumerates(q, scope)
    ensures Join(SortWords(p)) == Join(SortWords(q))
  {
    SortSorts(p);
    SortSorts(q);
    forall w ensures w in SortWords(p) <==> w in SortWords(q) {
      SortKeepsElements(p, w);
      SortKeepsElements(q, w);
    }
    SortedUnique(SortWords(p), SortWords(q));
  }

  // ----- round trip -----

  lemma {:induction false} WordsOfToken(w: string, rest: string)
    requires IsWord(w)
    requires rest == "" || IsWhitespace(rest[0])
    ensures Words(w + rest) == [w] + Words(rest)
  {
    var s := w + rest;
    assert !IsWhitespace(s[0]) by { assert s[0] == w[0]; }
    var n := TokenEnd(s);
    assert forall i | 0 <= i < |w| :: s[i] == w[i];
    assert rest != "" ==> s[|w|] == rest[0];
    assert n == |w|;
    assert s[..n] == w && s[n..] == rest;
  }

  lemma {:induction false} WordsOfJoin(parts: seq<string>)
    requires forall w | w in parts :: IsWord(w)
    ensures Words(Join(parts)) == parts
  {
    if |parts| == 1 {
      WordsOfToken(parts[0], "");
      assert parts[0] + "" == parts[0] && parts == [parts[0]];
    } else if |parts| > 1 {
      var rest := Join(parts[1..]);
      WordsOfToken(parts[0], " " + rest);
      assert Join(parts) == parts[0] + (" " + rest);
      assert (" " + rest)[1..] == rest;
      WordsOfJoin(parts[1..]);
      assert parts == [parts[0]] + parts[1..];
    }
  }

  /** Parsing the printed text gives the set back exactly when each of its members is a scope token. */
  lemma RoundTrip(scope: set<string>)
    ensures ParseScope(Some(ScopeText(scope))) == scope <==> forall w | w in scope :: IsWord(w)
  {
    ParsedWords(Some(ScopeText(scope)));
    if forall w | w in scope :: IsWord(w) {
      var parts := SortWords(Enumeration(scope));
      forall w ensures w in parts <==> w in scope { SortKeepsElements(Enumeration(scope), w); }
      WordsOfJoin(parts);
    }
  }

  /** On sets of scope tokens, printing is injective. */
  lemma PrintInjective(scope: set<string>, scope': set<string>)
    requires forall w | w in scope + scope' :: IsWord(w)
    requires ScopeText(scope) == ScopeText(scope')
    ensures scope == scope'
  {
    RoundTrip(scope);
    RoundTrip(scope');
  }

  /** Printing what was parsed normalises a request: parsing it again changes nothing. */
  lemma PrintParseIdempotent(request: Option<string>)
    ensures ParseScope(Some(ScopeText(ParseScope(request)))) == ParseScope(request)
  {
    ParsedWords(request);
    RoundTrip(ParseScope(request));
  }
}
