/** The string operations the dashboard relies on: JavaScript's `\s`
    whitespace class, `toLowerCase`, `includes`, `trim`, `split(/\s+/)`,
    and the store's `sanitize`. */
module Text {
  import opened Lists

  /** JavaScript's `\s` class (also what `trim` removes). */
  predicate IsSpace(c: char) {
    c == ' ' || c == '\t' || c == '\n' || c == '\r' || c == '\U{000B}' || c == '\U{000C}'
    || c == '\U{00A0}' || c == '\U{1680}' || ('\U{2000}' <= c <= '\U{200A}')
    || c == '\U{2028}' || c == '\U{2029}' || c == '\U{202F}' || c == '\U{205F}'
    || c == '\U{3000}' || c == '\U{FEFF}'
  }

  /** Upper-case ASCII and Latin-1 letters (À..Þ without ×). */
  predicate IsUpper(c: char) {
    ('A' <= c <= 'Z') || ('\U{00C0}' <= c <= '\U{00DE}' && c != '\U{00D7}')
  }

  function Lower(c: char): (r: char)
    ensures IsUpper(c) ==> r as int == c as int + 32
    ensures !IsUpper(c) ==> r == c
    ensures !IsUpper(r)
  {
    if IsUpper(c) then (c as int + 32) as char else c
  }

  /** `toLowerCase` on the letters `Lower` covers. */
  function ToLower(s: string): (r: string)
    ensures |r| == |s|
    ensures forall i :: 0 <= i < |s| ==> r[i] == Lower(s[i])
  {
    seq(|s|, i requires 0 <= i < |s| => Lower(s[i]))
  }

  lemma LowerKeepsSpaces(c: char)
    ensures IsSpace(Lower(c)) <==> IsSpace(c)
  {
  }

  /** `replace(/\s/g, '')`. */
  function StripSpaces(s: string): (r: string)
    ensures |r| <= |s|
    ensures forall c :: c in r ==> c in s && !IsSpace(c)
    ensures forall c :: c in s && !IsSpace(c) ==> c in r
  {
    if s == [] then []
    else if IsSpace(s[0]) then StripSpaces(s[1..])
    else [s[0]] + StripSpaces(s[1..])
  }

  function NotSpace(c: char): bool { !IsSpace(c) }

  /** Removing the whitespace keeps exactly the other characters, in their order. */
  lemma {:induction false} StripSpacesIsFilter(s: string)
    ensures StripSpaces(s) == Filter(s, NotSpace)
  {
    if s != [] {
      StripSpacesIsFilter(s[1..]);
    }
  }

  /** Removing the whitespace of a blank string leaves nothing. */
  lemma {:induction false} StripSpacesOfBlank(s: string)
    requires forall i :: 0 <= i < |s| ==> IsSpace(s[i])
    ensures StripSpaces(s) == []
  {
    if s != [] {
      StripSpacesOfBlank(s[1..]);
    }
  }

  /** `t.includes(q)`: `q` occurs as a contiguous block of `t`. */
  predicate Contains(t: string, q: string)
    decreases |t|
  {
    q <= t || (t != [] && Contains(t[1..], q))
  }

  /** An independent reading of `includes`: some offset starts a copy of `q`. */
  ghost predicate OccursAt(t: string, q: string, k: int) {
    0 <= k && k + |q| <= |t| && t[k..k + |q|] == q
  }

  lemma {:induction false} ContainsIffOccurs(t: string, q: string)
    ensures Contains(t, q) <==> exists k :: OccursAt(t, q, k)
    decreases |t|
  {
    if q <= t {
      assert t[0..|q|] == q;
      assert OccursAt(t, q, 0);
    }
    if t == [] {
      forall k | OccursAt(t, q, k) ensures q <= t {
        assert |q| == 0;
      }
    } else {
      ContainsIffOccurs(t[1..], q);
      if Contains(t[1..], q) {
        var k :| OccursAt(t[1..], q, k);
        assert t[k + 1..k + 1 + |q|] == t[1..][k..k + |q|];
        assert OccursAt(t, q, k + 1);
      }
      forall k | OccursAt(t, q, k) ensures Contains(t, q) {
        if k == 0 {
          assert t[..|q|] == q;
        } else {
          assert t[1..][k - 1..k - 1 + |q|] == t[k..k + |q|];
          assert OccursAt(t[1..], q, k - 1);
        }
      }
    }
  }

  /** Everything contains the empty string. */
  lemma ContainsEmpty(t: string)
    ensures Contains(t, [])
  {
  }

  /** `x.toLowerCase().includes(filter.toLowerCase())`. */
  predicate ContainsIgnoringCase(x: string, filter: string) {
    Contains(ToLower(x), ToLower(filter))
  }

  /** An empty filter is contained in every text. */
  lemma EmptyFilterMatches(x: string)
    ensures ContainsIgnoringCase(x, "")
  {
    ContainsEmpty(ToLower(x));
  }

  function TrimStart(s: string): (r: string)
    ensures r == [] || !IsSpace(r[0])
    ensures |r| <= |s| && r == s[|s| - |r|..]
    ensures forall i :: 0 <= i < |s| - |r| ==> IsSpace(s[i])
  {
    if s != [] && IsSpace(s[0]) then TrimStart(s[1..]) else s
  }

  function TrimEnd(s: string): (r: string)
    ensures r == [] || !IsSpace(r[|r| - 1])
    ensures |r| <= |s| && r == s[..|r|]
    ensures forall i :: |r| <= i < |s| ==> IsSpace(s[i])
  {
    if s != [] && IsSpace(s[|s| - 1]) then TrimEnd(s[..|s| - 1]) else s
  }

  /** `r` is the block of `s` starting at `i`, and everything around it is whitespace. */
  ghost predicate TrimmedAt(s: string, r: string, i: int) {
    && 0 <= i && i + |r| <= |s| && r == s[i..i + |r|]
    && (forall k :: 0 <= k < i ==> IsSpace(s[k]))
    && (forall k :: i + |r| <= k < |s| ==> IsSpace(s[k]))
  }

  /** `r` is a contiguous block of `s` with only whitespace cut from either end. */
  ghost predicate TrimmedFrom(s: string, r: string) {
    exists i :: TrimmedAt(s, r, i)
  }

  /** `trim`. */
  function Trim(s: string): (r: string)
    ensures r == [] || (!IsSpace(r[0]) && !IsSpace(r[|r| - 1]))
    ensures TrimmedFrom(s, r)
    ensures |r| <= |s|
    ensures forall c :: c in r ==> c in s
  {
    var u := TrimStart(s);
    var r := TrimEnd(u);
    TrimIsCut(s, u, r);
    assert forall c :: c in u ==> c in s;
    r
  }

  lemma TrimIsCut(s: string, u: string, r: string)
    requires |u| <= |s| && u == s[|s| - |u|..]
    requires forall k :: 0 <= k < |s| - |u| ==> IsSpace(s[k])
    requires |r| <= |u| && r == u[..|r|]
    requires forall k :: |r| <= k < |u| ==> IsSpace(u[k])
    ensures TrimmedAt(s, r, |s| - |u|)
  {
    var i := |s| - |u|;
    forall k | 0 <= k < |r| ensures r[k] == s[i + k] {
      assert r[k] == u[k];
      assert u[k] == s[i..][k];
    }
    assert r == s[i..i + |r|];
    forall k | i + |r| <= k < |s| ensures IsSpace(s[k]) {
      assert u[k - i] == s[i..][k - i];
    }
  }

  /** A block cut by whitespace alone that starts with a non-blank character starts
      at the first non-blank character of `s`; likewise for its end. */
  lemma CutBoundaries(s: string, r: string, i: int, t: string, j: int)
    requires TrimmedAt(s, r, i) && TrimmedAt(s, t, j)
    requires r != [] && !IsSpace(r[0]) && !IsSpace(r[|r| - 1])
    requires t != [] && !IsSpace(t[0]) && !IsSpace(t[|t| - 1])
    ensures i == j && |r| == |t|
  {
    assert r[0] == s[i] && t[0] == s[j];
    assert r[|r| - 1] == s[i + |r| - 1] && t[|t| - 1] == s[j + |t| - 1];
  }

  /** Only one block of `s` is both cut from it by whitespace alone and free of
      whitespace at its ends, so that property defines `trim`. */
  lemma TrimmedUnique(s: string, r: string)
    requires TrimmedFrom(s, r)
    requires r == [] || (!IsSpace(r[0]) && !IsSpace(r[|r| - 1]))
    ensures r == Trim(s)
  {
    var t := Trim(s);
    var i :| TrimmedAt(s, r, i);
    var j :| TrimmedAt(s, t, j);
    if r != [] && t != [] {
      CutBoundaries(s, r, i, t, j);
    }
  }

  /** A string already trimmed is left as it is. */
  lemma TrimTrimmed(s: string)
    requires s == [] || (!IsSpace(s[0]) && !IsSpace(s[|s| - 1]))
    ensures Trim(s) == s
  {
  }

  function NotAngle(c: char): bool { c != '<' && c != '>' }

  /** `replace(/[<>]/g, '')`: the other characters, in order. */
  function RemoveAngles(s: string): (r: string)
    ensures |r| <= |s|
    ensures forall c :: c in r <==> c in s && c != '<' && c != '>'
  {
    if s == [] then []
    else if s[0] == '<' || s[0] == '>' then RemoveAngles(s[1..])
    else [s[0]] + RemoveAngles(s[1..])
  }

  /** Removing the brackets keeps exactly the other characters, in their order. */
  lemma {:induction false} RemoveAnglesIsFilter(s: string)
    ensures RemoveAngles(s) == Filter(s, NotAngle)
  {
    if s != [] {
      RemoveAnglesIsFilter(s[1..]);
    }
  }

  lemma {:induction false} RemoveAnglesClean(s: string)
    requires forall c :: c in s ==> c != '<' && c != '>'
    ensures RemoveAngles(s) == s
  {
    if s != [] {
      assert s[0] in s;
      assert forall c :: c in s[1..] ==> c in s;
      RemoveAnglesClean(s[1..]);
      assert s == [s[0]] + s[1..];
    }
  }

  /** The store's `sanitize`: the empty (falsy) string stays empty; otherwise
      every `<` and `>` is removed and the result is trimmed. */
  function Sanitize(s: string): (r: string)
    ensures TrimmedFrom(RemoveAngles(s), r)
    ensures r == [] || (!IsSpace(r[0]) && !IsSpace(r[|r| - 1]))
    ensures forall c :: c in r ==> c in s && c != '<' && c != '>'
    ensures |r| <= |s|
  {
    if s == "" then
      assert TrimmedAt(RemoveAngles(s), "", 0);
      ""
    else
      Trim(RemoveAngles(s))
  }

  /** Sanitizing twice is sanitizing once. */
  lemma SanitizeIdempotent(s: string)
    ensures Sanitize(Sanitize(s)) == Sanitize(s)
  {
    var r := Sanitize(s);
    if r != "" {
      RemoveAnglesClean(r);
      TrimTrimmed(r);
    }
  }

  /** A message free of angle brackets and of surrounding whitespace is stored verbatim. */
  lemma SanitizeClean(s: string)
    requires forall c :: c in s ==> c != '<' && c != '>'
    requires s == [] || (!IsSpace(s[0]) && !IsSpace(s[|s| - 1]))
    ensures Sanitize(s) == s
  {
    if s != "" {
      RemoveAnglesClean(s);
      TrimTrimmed(s);
    }
  }

  /** Markup and surrounding blanks are dropped and the text between them is kept
      as it is: `a` and `b` hold only whitespace and angle brackets, `m` no angle
      bracket and no whitespace at its ends. */
  lemma SanitizeKeepsInnerText(a: string, m: string, b: string)
    requires forall c :: c in a ==> IsSpace(c) || c == '<' || c == '>'
    requires forall c :: c in b ==> IsSpace(c) || c == '<' || c == '>'
    requires forall c :: c in m ==> c != '<' && c != '>'
    requires m == [] || (!IsSpace(m[0]) && !IsSpace(m[|m| - 1]))
    ensures Sanitize(a + m + b) == m
  {
    var s := a + m + b;
    var f := Filter(s, NotAngle);
    FilteredAround(a, m, b);
    RemoveAnglesIsFilter(s);
    TrimmedUnique(f, m);
    TrimmedUnique(f, Sanitize(s));
  }

  /** Dropping the angle brackets from blanks and brackets leaves only blanks. */
  lemma FilteredBlank(a: string)
    requires forall c :: c in a ==> IsSpace(c) || c == '<' || c == '>'
    ensures forall k :: 0 <= k < |Filter(a, NotAngle)| ==> IsSpace(Filter(a, NotAngle)[k])
  {
    var fa := Filter(a, NotAngle);
    forall k | 0 <= k < |fa| ensures IsSpace(fa[k]) {
      assert fa[k] in fa;
    }
  }

  /** With the brackets dropped, `m` sits between two blank runs. */
  lemma FilteredAround(a: string, m: string, b: string)
    requires forall c :: c in a ==> IsSpace(c) || c == '<' || c == '>'
    requires forall c :: c in b ==> IsSpace(c) || c == '<' || c == '>'
    requires forall c :: c in m ==> c != '<' && c != '>'
    ensures TrimmedAt(Filter(a + m + b, NotAngle), m, |Filter(a, NotAngle)|)
  {
    var fa, fb := Filter(a, NotAngle), Filter(b, NotAngle);
    FilterAppend(a + m, b, NotAngle);
    FilterAppend(a, m, NotAngle);
    FilterAll(m, NotAngle);
    FilteredBlank(a);
    FilteredBlank(b);
    var f := fa + m + fb;
    assert Filter(a + m + b, NotAngle) == f;
    assert f[|fa|..|fa| + |m|] == m;
    forall k | 0 <= k < |fa| ensures IsSpace(f[k]) {
      assert f[k] == fa[k];
    }
    forall k | |fa| + |m| <= k < |f| ensures IsSpace(f[k]) {
      assert f[k] == fb[k - |fa| - |m|];
    }
  }

  /** The longest space-free prefix. */
  function WordPrefix(s: string): (w: string)
    ensures w <= s
    ensures forall c :: c in w ==> !IsSpace(c)
    ensures |w| < |s| ==> IsSpace(s[|w|])
  {
    if s == [] || IsSpace(s[0]) then [] else [s[0]] + WordPrefix(s[1..])
  }

  /** `split(/\s+/).filter(w => w.length > 0)`: the maximal runs of non-space characters. */
  function Words(s: string): (ws: seq<string>)
    ensures forall w :: w in ws ==> w != [] && forall c :: c in w ==> !IsSpace(c)
    decreases |s|
  {
    var u := TrimStart(s);
    if u == [] then []
    else
      var w := WordPrefix(u);
      assert |w| >= 1 by { assert w == [] ==> |w| < |u|; }
      [w] + Words(u[|w|..])
  }

  function Concat(ws: seq<string>): string {
    if ws == [] then [] else ws[0] + Concat(ws[1..])
  }

  lemma {:induction false} StripSpacesTrimStart(s: string)
    ensures StripSpaces(TrimStart(s)) == StripSpaces(s)
  {
    if s != [] && IsSpace(s[0]) {
      StripSpacesTrimStart(s[1..]);
    }
  }

  lemma {:induction false} StripSpacesWordPrefix(u: string)
    ensures StripSpaces(u) == WordPrefix(u) + StripSpaces(u[|WordPrefix(u)|..])
  {
    if u != [] && !IsSpace(u[0]) {
      StripSpacesWordPrefix(u[1..]);
      assert u[1..][|WordPrefix(u[1..])|..] == u[|WordPrefix(u)|..];
    }
  }

  /** One step of Words: the first word, then the words of what follows it. */
  lemma WordsStep(s: string)
    requires TrimStart(s) != []
    ensures var u := TrimStart(s); var w := WordPrefix(u);
      1 <= |w| && Concat(Words(s)) == w + Concat(Words(u[|w|..]))
  {
    var u := TrimStart(s);
    var w := WordPrefix(u);
    assert |w| >= 1 by { assert w == [] ==> |w| < |u|; }
    assert Words(s) == [w] + Words(u[|w|..]);
  }

  /** The words of a query, joined, are exactly the query with its whitespace removed. */
  lemma {:induction false} WordsConcat(s: string)
    ensures Concat(Words(s)) == StripSpaces(s)
    decreases |s|
  {
    var u := TrimStart(s);
    StripSpacesTrimStart(s);
    if u != [] {
      var w := WordPrefix(u);
      WordsStep(s);
      StripSpacesWordPrefix(u);
      WordsConcat(u[|w|..]);
    }
  }

  /** Trimmed leading blanks add nothing to the words. */
  lemma {:induction false} TrimStartSkipsBlanks(sp: string, u: string)
    requires forall c :: c in sp ==> IsSpace(c)
    requires u == [] || !IsSpace(u[0])
    ensures TrimStart(sp + u) == u
  {
    if sp != [] {
      assert (sp + u)[1..] == sp[1..] + u;
      assert sp[0] in sp;
      TrimStartSkipsBlanks(sp[1..], u);
    }
  }

  lemma {:induction false} WordPrefixOfWord(w: string, rest: string)
    requires forall c :: c in w ==> !IsSpace(c)
    requires rest == [] || IsSpace(rest[0])
    ensures WordPrefix(w + rest) == w
  {
    if w != [] {
      assert (w + rest)[1..] == w[1..] + rest;
      assert w[0] in w;
      WordPrefixOfWord(w[1..], rest);
    }
  }

  /** A blank string has no words. */
  lemma WordsOfBlank(sp: string)
    requires forall c :: c in sp ==> IsSpace(c)
    ensures Words(sp) == []
  {
    TrimStartSkipsBlanks(sp, []);
    assert sp + [] == sp;
  }

  /** Blanks, then a run of non-blank characters ended by a blank or by the end of
      the text: that run is the first word, and the rest are the words after it.
      With WordsOfBlank this determines Words on every string. */
  lemma WordsCons(sp: string, w: string, rest: string)
    requires forall c :: c in sp ==> IsSpace(c)
    requires w != [] && forall c :: c in w ==> !IsSpace(c)
    requires rest == [] || IsSpace(rest[0])
    ensures Words(sp + w + rest) == [w] + Words(rest)
  {
    assert w[0] in w;
    assert sp + w + rest == sp + (w + rest);
    TrimStartSkipsBlanks(sp, w + rest);
    WordPrefixOfWord(w, rest);
    assert (w + rest)[|w|..] == rest;
  }

  /** The number of maximal runs of non-blank characters: the positions where one
      ends. */
  function RunCount(s: string): nat {
    if s == [] then 0
    else (if !IsSpace(s[0]) && (|s| == 1 || IsSpace(s[1])) then 1 else 0) + RunCount(s[1..])
  }

  lemma {:induction false} RunCountTrimStart(s: string)
    ensures RunCount(TrimStart(s)) == RunCount(s)
  {
    if s != [] && IsSpace(s[0]) {
      RunCountTrimStart(s[1..]);
    }
  }

  lemma {:induction false} RunCountWord(u: string)
    requires u != [] && !IsSpace(u[0])
    ensures RunCount(u) == 1 + RunCount(u[|WordPrefix(u)|..])
  {
    if |u| > 1 && !IsSpace(u[1]) {
      RunCountWord(u[1..]);
      assert u[1..][|WordPrefix(u[1..])|..] == u[|WordPrefix(u)|..];
    }
  }

  /** `split(/\s+/).filter(w => w.length > 0)` gives one word per run of
      non-blank characters. */
  lemma {:induction false} WordsCount(s: string)
    ensures |Words(s)| == RunCount(s)
    decreases |s|
  {
    var u := TrimStart(s);
    RunCountTrimStart(s);
    if u != [] {
      var w := WordPrefix(u);
      assert |w| >= 1 by { assert w == [] ==> |w| < |u|; }
      assert Words(s) == [w] + Words(u[|w|..]);
      RunCountWord(u);
      WordsCount(u[|w|..]);
    }
  }

  function DigitValue(c: char): nat {
    if '0' <= c <= '9' then c as int - '0' as int else 0
  }

  /** The number a string of decimal digits spells, most significant first. */
  function DigitsValue(s: string): nat {
    if s == [] then 0 else 10 * DigitsValue(s[..|s| - 1]) + DigitValue(s[|s| - 1])
  }

  /** Decimal digits of a natural number (`toString`). */
  function NatToString(n: nat): (r: string)
    ensures r != []
    ensures forall c :: c in r ==> '0' <= c <= '9'
    ensures DigitsValue(r) == n
    ensures r[0] == '0' ==> n == 0
    ensures n < 10 <==> |r| == 1
  {
    var d := ['0' + (n % 10) as char];
    if n < 10 then d else
      var h := NatToString(n / 10);
      assert (h + d)[..|h + d| - 1] == h;
      h + d
  }

  /** Zeros in front do not change the value. */
  lemma {:induction false} LeadingZeros(z: string, d: string)
    requires forall k :: 0 <= k < |z| ==> z[k] == '0'
    ensures DigitsValue(z + d) == DigitsValue(d)
    decreases |d|
  {
    if d == [] {
      assert z + d == z;
      AllZeros(z);
    } else {
      assert (z + d)[..|z + d| - 1] == z + d[..|d| - 1];
      LeadingZeros(z, d[..|d| - 1]);
    }
  }

  lemma {:induction false} AllZeros(z: string)
    requires forall k :: 0 <= k < |z| ==> z[k] == '0'
    ensures DigitsValue(z) == 0
  {
    if z != [] {
      AllZeros(z[..|z| - 1]);
    }
  }
}
