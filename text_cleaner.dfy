/**
 * `clean_text` of the data-processing stage
 * (src/llm_chatbot_backend/pipelines/data_processing/nodes.py): a fixed chain of
 * whole-string regular-expression substitutions, each written here as a function
 * over `string`, followed by `str.strip()`.
 *
 * The passes, in the order the source applies them:
 *   1. `DropUrls`         `re.sub(r"https?://\S+", "", text)`
 *   2. `KeepAllowed`      `re.sub(r"[^\u0E00-\u0E7F\w\s.,!?']", "", text)`
 *   3. `CollapseSpaces`   `re.sub(r"\s+", " ", text)`
 *   4. `CollapseRepeats`  `re.sub(r"([ก-๙])\1{2,}", r"\1\1", text)`
 *   5. Unicode NFC, which this model leaves out (it is the identity here)
 *   6. `Strip`            `text.strip()`
 */
module TextCleaner {
  import opened Text
  import opened Json

  /** The Thai block U+0E00..U+0E7F, which the character filter keeps whole. */
  predicate IsThai(c: char)
  {
    '\U{0E00}' <= c <= '\U{0E7F}'
  }

  /** The class `[ก-๙]`, U+0E01..U+0E59: the characters whose long repeats are shortened. */
  predicate IsRepeatable(c: char)
  {
    '\U{0E01}' <= c <= '\U{0E59}'
  }

  predicate IsPunctuation(c: char)
  {
    c == '.' || c == ',' || c == '!' || c == '?' || c == '\''
  }

  /** A character that the class `[\u0E00-\u0E7F\w\s.,!?']` matches, so the filter keeps it. */
  predicate Allowed(u: CharClasses, c: char)
  {
    IsThai(c) || u.isWord(c) || u.isSpace(c) || IsPunctuation(c)
  }

  // ---------------------------------------------------------------------------
  // Pass 1: drop URLs
  // ---------------------------------------------------------------------------

  const Http: string := "http://"
  const Https: string := "https://"

  /** Length of the run of non-whitespace that starts `s`: what a greedy `\S+` consumes. */
  function NonSpaceRun(u: CharClasses, s: string): (n: nat)
    ensures n <= |s|
    ensures n < |s| ==> u.isSpace(s[n])
    ensures forall k :: 0 <= k < n ==> !u.isSpace(s[k])
  {
    if s == [] || u.isSpace(s[0]) then 0 else 1 + NonSpaceRun(u, s[1..])
  }

  /**
   * Does `https?://\S+` match at the start of `s`? The optional `s` is tried first;
   * when `https://` is not followed by a non-space the engine falls back to `http`
   * without the `s`, which then cannot be followed by `://`.
   */
  predicate StartsUrl(u: CharClasses, s: string)
  {
    (|s| > 8 && s[..8] == Https && !u.isSpace(s[8])) || (|s| > 7 && s[..7] == Http && !u.isSpace(s[7]))
  }

  /** Length of the match of `https?://\S+` at the start of `s`; 0 when there is none. */
  function UrlMatch(u: CharClasses, s: string): (n: nat)
    ensures n <= |s|
    ensures n == 0 <==> !StartsUrl(u, s)
    ensures n != 0 ==> n >= 8 && (n == |s| || u.isSpace(s[n]))
    ensures forall k :: 8 <= k < n ==> !u.isSpace(s[k])
  {
    if |s| > 8 && s[..8] == Https && !u.isSpace(s[8]) then 8 + NonSpaceRun(u, s[8..])
    else if |s| > 7 && s[..7] == Http && !u.isSpace(s[7]) then 7 + NonSpaceRun(u, s[7..])
    else 0
  }

  /** No position of `s` starts a URL match, so the URL pass has nothing to remove. */
  predicate NoUrl(u: CharClasses, s: string)
  {
    forall i :: 0 <= i < |s| ==> !StartsUrl(u, s[i..])
  }

  /**
   * `re.sub(r"https?://\S+", "", s)`: scanning from the left, every match is
   * removed and scanning resumes after it; elsewhere one character is kept and the
   * scan moves on by one.
   */
  function DropUrls(u: CharClasses, s: string): (r: string)
    decreases |s|
    ensures |r| <= |s|
  {
    if s == [] then []
    else
      var n := UrlMatch(u, s);
      if n != 0 then DropUrls(u, s[n..])
      else [s[0]] + DropUrls(u, s[1..])
  }

  /** The URL pass only removes characters. */
  lemma {:induction false} DropUrlsMembers(u: CharClasses, s: string)
    ensures forall c :: c in DropUrls(u, s) ==> c in s
    decreases |s|
  {
    if s != [] {
      var n := UrlMatch(u, s);
      if n != 0 {
        DropUrlsMembers(u, s[n..]);
        assert forall c :: c in s[n..] ==> c in s;
      } else {
        DropUrlsMembers(u, s[1..]);
        assert forall c :: c in s[1..] ==> c in s;
      }
    }
  }

  /** The URL pass changes a string exactly when some URL starts in it. */
  lemma {:induction false} DropUrlsIdentity(u: CharClasses, s: string)
    ensures DropUrls(u, s) == s <==> NoUrl(u, s)
  {
    if NoUrl(u, s) {
      DropUrlsOfNoUrl(u, s);
    } else {
      var i :| 0 <= i < |s| && StartsUrl(u, s[i..]);
      DropUrlsShortens(u, s, i);
    }
  }

  lemma {:induction false} DropUrlsOfNoUrl(u: CharClasses, s: string)
    requires NoUrl(u, s)
    ensures DropUrls(u, s) == s
  {
    if s != [] {
      assert !StartsUrl(u, s[0..]) by { assert s[0..] == s; }
      forall i | 0 <= i < |s[1..]| ensures !StartsUrl(u, s[1..][i..]) {
        assert s[1..][i..] == s[i + 1..];
      }
      DropUrlsOfNoUrl(u, s[1..]);
    }
  }

  lemma {:induction false} DropUrlsShortens(u: CharClasses, s: string, i: nat)
    requires i < |s| && StartsUrl(u, s[i..])
    ensures |DropUrls(u, s)| < |s|
    decreases |s|
  {
    if UrlMatch(u, s) == 0 {
      if i != 0 {
        assert s[1..][i - 1..] == s[i..];
        DropUrlsShortens(u, s[1..], i - 1);
      }
    }
  }

  /**
   * The pass removes exactly the leftmost match: the text before it is kept as it
   * is, the match is dropped, and the scan goes on after the match.
   */
  lemma DropUrlsFirst(u: CharClasses, s: string, i: nat)
    requires i < |s| && StartsUrl(u, s[i..])
    requires forall j :: 0 <= j < i ==> !StartsUrl(u, s[j..])
    ensures DropUrls(u, s) == s[..i] + DropUrls(u, s[i + UrlMatch(u, s[i..])..])
  {
    DropUrlsPrefix(u, s, i);
    var n := UrlMatch(u, s[i..]);
    DropUrlsAtMatch(u, s[i..]);
    assert s[i..][n..] == s[i + n..];
  }

  /** Text in which no match starts is kept by the pass as it is. */
  lemma {:induction false} DropUrlsPrefix(u: CharClasses, s: string, i: nat)
    requires i <= |s|
    requires forall j :: 0 <= j < i ==> !StartsUrl(u, s[j..])
    ensures DropUrls(u, s) == s[..i] + DropUrls(u, s[i..])
  {
    if i == 0 {
      assert s[..0] + DropUrls(u, s[0..]) == DropUrls(u, s) by { assert s[0..] == s; }
    } else {
      NoUrlBeforeShift(u, s, i);
      DropUrlsNoMatch(u, s);
      var t, k: nat := s[1..], i - 1;
      DropUrlsPrefix(u, t, k);
      assert t[k..] == s[i..];
      KeptHead(s, t, i, k, DropUrls(u, s), DropUrls(u, t), DropUrls(u, s[i..]));
    }
  }

  /** A head kept in front of the tail's result `t[..k] + rest` gives `s[..k + 1] + rest`. */
  lemma KeptHead<T>(s: seq<T>, t: seq<T>, i: nat, k: nat, ds: seq<T>, dt: seq<T>, rest: seq<T>)
    requires 0 < i <= |s| && i == k + 1 && t == s[1..]
    requires ds == [s[0]] + dt && dt == t[..k] + rest
    ensures ds == s[..i] + rest
  {
    assert [s[0]] + t[..k] == s[..i];
  }

  lemma DropUrlsAtMatch(u: CharClasses, s: string)
    requires s != [] && StartsUrl(u, s)
    ensures DropUrls(u, s) == DropUrls(u, s[UrlMatch(u, s)..])
  {
  }

  lemma DropUrlsNoMatch(u: CharClasses, s: string)
    requires s != [] && !StartsUrl(u, s)
    ensures DropUrls(u, s) == [s[0]] + DropUrls(u, s[1..])
  {
  }

  lemma NoUrlBeforeShift(u: CharClasses, s: string, i: nat)
    requires 0 < i <= |s|
    requires forall j :: 0 <= j < i ==> !StartsUrl(u, s[j..])
    ensures !StartsUrl(u, s)
    ensures forall j :: 0 <= j < i - 1 ==> !StartsUrl(u, s[1..][j..])
  {
    assert s[0..] == s;
    forall j | 0 <= j < i - 1 ensures !StartsUrl(u, s[1..][j..]) {
      assert s[1..][j..] == s[j + 1..];
    }
  }

  /** A string without ':' has no URL in it. */
  lemma NoColonNoUrl(u: CharClasses, s: string)
    requires ':' !in s
    ensures NoUrl(u, s)
  {
    forall i | 0 <= i < |s| ensures !StartsUrl(u, s[i..]) {
      var w := s[i..];
      if |w| > 5 {
        var c4, c5 := w[4], w[5];
        assert c4 == s[i + 4] && c5 == s[i + 5];
      }
    }
  }

  // ---------------------------------------------------------------------------
  // Pass 2: keep only the allowed characters
  // ---------------------------------------------------------------------------

  /** `re.sub(r"[^\u0E00-\u0E7F\w\s.,!?']", "", s)`: the allowed characters of `s`, in order. */
  function KeepAllowed(u: CharClasses, s: string): (r: string)
    ensures |r| <= |s|
  {
    if s == [] then []
    else (if Allowed(u, s[0]) then [s[0]] else []) + KeepAllowed(u, s[1..])
  }

  /** The filter keeps exactly the allowed characters. */
  lemma {:induction false} KeepAllowedMembers(u: CharClasses, s: string)
    ensures forall c :: c in KeepAllowed(u, s) <==> c in s && Allowed(u, c)
  {
    if s != [] {
      KeepAllowedMembers(u, s[1..]);
      var h := if Allowed(u, s[0]) then [s[0]] else [];
      assert KeepAllowed(u, s) == h + KeepAllowed(u, s[1..]);
      forall c ensures c in KeepAllowed(u, s) <==> c in s && Allowed(u, c) {
        assert s == [s[0]] + s[1..];
        assert c in s <==> c == s[0] || c in s[1..];
        assert c in KeepAllowed(u, s) <==> c in h || c in KeepAllowed(u, s[1..]);
      }
    }
  }

  predicate AllAllowed(u: CharClasses, s: string)
  {
    forall c :: c in s ==> Allowed(u, c)
  }

  /** The filter changes a string exactly when it holds a character outside the class. */
  lemma {:induction false} KeepAllowedIdentity(u: CharClasses, s: string)
    ensures KeepAllowed(u, s) == s <==> AllAllowed(u, s)
  {
    KeepAllowedMembers(u, s);
    if AllAllowed(u, s) && s != [] {
      assert s[0] in s;
      KeepAllowedIdentity(u, s[1..]);
    }
  }

  /** The filter works character by character, so it keeps the order of what it keeps. */
  lemma {:induction false} KeepAllowedConcat(u: CharClasses, a: string, b: string)
    ensures KeepAllowed(u, a + b) == KeepAllowed(u, a) + KeepAllowed(u, b)
  {
    if a != [] {
      assert (a + b)[0] == a[0];
      assert (a + b)[1..] == a[1..] + b;
      KeepAllowedConcat(u, a[1..], b);
    } else {
      assert a + b == b;
    }
  }

  // ---------------------------------------------------------------------------
  // Pass 3: collapse whitespace
  // ---------------------------------------------------------------------------

  /** Every whitespace character is the plain space ' '. */
  predicate SpacesArePlain(u: CharClasses, s: string)
  {
    forall c :: c in s && u.isSpace(c) ==> c == ' '
  }

  /** No two neighbouring characters are both whitespace. */
  predicate NoAdjacentSpaces(u: CharClasses, s: string)
  {
    forall i :: 0 <= i < |s| - 1 ==> !(u.isSpace(s[i]) && u.isSpace(s[i + 1]))
  }

  /** `re.sub(r"\s+", " ", s)`: every maximal run of whitespace becomes one ' '. */
  function CollapseSpaces(u: CharClasses, s: string): (r: string)
    decreases |s|
    ensures |r| <= |s|
    ensures r == [] <==> s == []
    ensures s != [] && !u.isSpace(s[0]) ==> r[0] == s[0]
    ensures s != [] && u.isSpace(s[0]) ==> r[0] == ' '
  {
    if s == [] then []
    else if u.isSpace(s[0]) then
      var n := LeadingSpaces(u, s);
      [' '] + CollapseSpaces(u, s[n..])
    else
      [s[0]] + CollapseSpaces(u, s[1..])
  }

  /**
   * After collapsing, the only whitespace is ' ', never twice in a row, and every
   * other character comes from `s`.
   */
  lemma {:induction false} CollapseSpacesShape(u: CharClasses, s: string)
    decreases |s|
    ensures var r := CollapseSpaces(u, s);
      && (forall c :: c in r ==> c == ' ' || (c in s && !u.isSpace(c)))
      && SpacesArePlain(u, r)
      && NoAdjacentSpaces(u, r)
  {
    if s != [] {
      var n := if u.isSpace(s[0]) then LeadingSpaces(u, s) else 1;
      var h := if u.isSpace(s[0]) then ' ' else s[0];
      var rest := CollapseSpaces(u, s[n..]);
      CollapseSpacesShape(u, s[n..]);
      var r := [h] + rest;
      assert CollapseSpaces(u, s) == r;
      assert forall c :: c in s[n..] ==> c in s;
      forall i | 0 <= i < |r| - 1 ensures !(u.isSpace(r[i]) && u.isSpace(r[i + 1])) {
        if i == 0 {
          if u.isSpace(s[0]) {
            var c := s[n];
            assert r[1] == rest[0] == c;
          }
        } else {
          assert r[i] == rest[i - 1] && r[i + 1] == rest[i];
        }
      }
      assert NoAdjacentSpaces(u, r);
      assert SpacesArePlain(u, r);
      forall c | c in r ensures c == ' ' || (c in s && !u.isSpace(c)) {
        if c != h {
          assert c in rest;
        }
      }
    }
  }

  /** A character that is not whitespace is kept, and the rest is collapsed after it. */
  lemma CollapseSpacesText(u: CharClasses, c: char, t: string)
    requires !u.isSpace(c)
    ensures CollapseSpaces(u, [c] + t) == [c] + CollapseSpaces(u, t)
  {
    assert ([c] + t)[1..] == t;
  }

  /**
   * The run-by-run reading of the pass: a maximal run of whitespace, however long
   * and whichever characters it holds, becomes exactly one ' ', and the rest of the
   * string is treated independently.
   */
  lemma CollapseSpacesRun(u: CharClasses, w: string, t: string)
    requires w != [] && AllSpaces(u, w)
    requires t == [] || !u.isSpace(t[0])
    ensures CollapseSpaces(u, w + t) == [' '] + CollapseSpaces(u, t)
  {
    var s := w + t;
    assert s[0] == w[0];
    LeadingSpacesOfPadded(u, w, t);
    assert s[|w|..] == t;
  }

  /** Collapsing changes a string exactly when it holds whitespace other than a single ' '. */
  lemma {:induction false} CollapseSpacesIdentity(u: CharClasses, s: string)
    ensures CollapseSpaces(u, s) == s <==> SpacesArePlain(u, s) && NoAdjacentSpaces(u, s)
    decreases |s|
  {
    CollapseSpacesShape(u, s);
    if SpacesArePlain(u, s) && NoAdjacentSpaces(u, s) && s != [] {
      assert NoAdjacentSpaces(u, s[1..]) by {
        forall i | 0 <= i < |s[1..]| - 1 ensures !(u.isSpace(s[1..][i]) && u.isSpace(s[1..][i + 1])) {
          assert s[1..][i] == s[i + 1] && s[1..][i + 1] == s[i + 2];
        }
      }
      CollapseSpacesIdentity(u, s[1..]);
      if u.isSpace(s[0]) && |s| > 1 {
        var s1 := s[1];
        assert !u.isSpace(s1);
        assert LeadingSpaces(u, s) == 1;
      }
    }
  }

  /** The characters of `s` that are not whitespace, in order. */
  function NonSpaces(u: CharClasses, s: string): (r: string)
    ensures forall c :: c in r <==> c in s && !u.isSpace(c)
  {
    if s == [] then []
    else (if u.isSpace(s[0]) then [] else [s[0]]) + NonSpaces(u, s[1..])
  }

  lemma {:induction false} NonSpacesOfSpaces(u: CharClasses, s: string, n: nat)
    requires n <= |s| && AllSpaces(u, s[..n])
    ensures NonSpaces(u, s) == NonSpaces(u, s[n..])
  {
    if n > 0 {
      assert u.isSpace(s[..n][0]);
      assert s[1..][..n - 1] == s[..n][1..];
      assert s[1..][n - 1..] == s[n..];
      NonSpacesOfSpaces(u, s[1..], n - 1);
    }
  }

  /** Collapsing touches whitespace only: every other character survives, in order. */
  lemma {:induction false} CollapseSpacesKeepsText(u: CharClasses, s: string)
    requires u.isSpace(' ')
    ensures NonSpaces(u, CollapseSpaces(u, s)) == NonSpaces(u, s)
    decreases |s|
  {
    if s != [] {
      if u.isSpace(s[0]) {
        var n := LeadingSpaces(u, s);
        LeadingSpacesAreSpaces(u, s);
        CollapseSpacesKeepsText(u, s[n..]);
        NonSpacesOfSpaces(u, s, n);
        assert ([' '] + CollapseSpaces(u, s[n..]))[1..] == CollapseSpaces(u, s[n..]);
      } else {
        CollapseSpacesKeepsText(u, s[1..]);
        assert ([s[0]] + CollapseSpaces(u, s[1..]))[1..] == CollapseSpaces(u, s[1..]);
      }
    }
  }

  // ---------------------------------------------------------------------------
  // Pass 4: shorten repeated Thai characters
  // ---------------------------------------------------------------------------

  /** Number of copies of `c` that start `s`. */
  function RunOf(c: char, s: string): (n: nat)
    ensures n <= |s|
    ensures forall k :: 0 <= k < n ==> s[k] == c
    ensures n < |s| ==> s[n] != c
  {
    if s == [] || s[0] != c then 0 else 1 + RunOf(c, s[1..])
  }

  /** Three copies of one character of `[ก-๙]` in a row start at `i`. */
  predicate TripleAt(s: string, i: int)
  {
    0 <= i && i + 2 < |s| && IsRepeatable(s[i]) && s[i + 1] == s[i] && s[i + 2] == s[i]
  }

  predicate NoTripleRun(s: string)
  {
    forall i :: 0 <= i < |s| ==> !TripleAt(s, i)
  }

  /**
   * `re.sub(r"([ก-๙])\1{2,}", r"\1\1", s)`: a run of three or more copies of one
   * character of `[ก-๙]` becomes two copies; everything else is kept.
   */
  function CollapseRepeats(s: string): (r: string)
    decreases |s|
    ensures |r| <= |s|
    ensures |s| >= 1 ==> |r| >= 1 && r[0] == s[0]
    ensures |s| >= 2 ==> |r| >= 2 && r[1] == s[1]
  {
    if s == [] then []
    else if TripleAt(s, 0) then
      var n := RunOf(s[0], s);
      [s[0], s[0]] + CollapseRepeats(s[n..])
    else
      [s[0]] + CollapseRepeats(s[1..])
  }

  /**
   * After the pass no character of `[ก-๙]` occurs three times in a row, and every
   * character comes from `s`.
   */
  lemma {:induction false} CollapseRepeatsShape(s: string)
    decreases |s|
    ensures var r := CollapseRepeats(s);
      (forall c :: c in r ==> c in s) && NoTripleRun(r)
  {
    if s != [] && TripleAt(s, 0) {
      var n := RunOf(s[0], s);
      var t := s[n..];
      var rest := CollapseRepeats(t);
      CollapseRepeatsShape(t);
      var r := [s[0], s[0]] + rest;
      assert CollapseRepeats(s) == r;
      assert forall c :: c in t ==> c in s;
      forall i | 0 <= i < |r| ensures !TripleAt(r, i) {
        if i >= 2 {
          assert !TripleAt(rest, i - 2);
          assert i + 2 < |r| ==> r[i] == rest[i - 2] && r[i + 1] == rest[i - 1] && r[i + 2] == rest[i];
        } else if |rest| > 0 {
          assert r[2] == rest[0] == t[0] != s[0];
        }
      }
    } else if s != [] {
      var rest := CollapseRepeats(s[1..]);
      CollapseRepeatsShape(s[1..]);
      var r := [s[0]] + rest;
      assert CollapseRepeats(s) == r;
      assert forall c :: c in s[1..] ==> c in s;
      forall i | 0 <= i < |r| ensures !TripleAt(r, i) {
        if i >= 1 {
          assert !TripleAt(rest, i - 1);
          assert i + 2 < |r| ==> r[i] == rest[i - 1] && r[i + 1] == rest[i] && r[i + 2] == rest[i + 1];
        } else if |s| >= 3 {
          assert r[1] == s[1] && r[2] == s[2];
        }
      }
    }
  }

  /** `n` copies of `c`. */
  function Repeat(c: char, n: nat): (r: string)
    ensures |r| == n && forall k :: 0 <= k < n ==> r[k] == c
  {
    if n == 0 then [] else [c] + Repeat(c, n - 1)
  }

  /** How many copies of `c` a maximal run of `n` copies keeps. */
  function Kept(c: char, n: nat): nat
  {
    if IsRepeatable(c) && n >= 3 then 2 else n
  }

  /**
   * The run-by-run reading of the pass: a maximal run of `n` copies of `c` becomes
   * two copies when `c` is in `[ก-๙]` and `n >= 3`, and is untouched otherwise;
   * the rest of the string is treated independently.
   */
  lemma {:induction false} CollapseRepeatsRun(c: char, n: nat, t: string)
    requires n >= 1
    requires t == [] || t[0] != c
    ensures CollapseRepeats(Repeat(c, n) + t) == Repeat(c, Kept(c, n)) + CollapseRepeats(t)
  {
    if IsRepeatable(c) && n >= 3 {
      CollapseLongRun(c, n, t);
      assert Repeat(c, 2) == [c, c];
    } else if n == 1 {
      CollapseShortRun(c, n, t);
      assert Repeat(c, 0) + t == t;
      assert Repeat(c, 1) == [c];
    } else {
      CollapseShortRun(c, n, t);
      CollapseRepeatsRun(c, n - 1, t);
      assert Kept(c, n) == n && Kept(c, n - 1) == n - 1;
      assert Repeat(c, n) + CollapseRepeats(t) == [c] + (Repeat(c, n - 1) + CollapseRepeats(t));
    }
  }

  lemma CollapseLongRun(c: char, n: nat, t: string)
    requires IsRepeatable(c) && n >= 3
    requires t == [] || t[0] != c
    ensures CollapseRepeats(Repeat(c, n) + t) == [c, c] + CollapseRepeats(t)
  {
    var s := Repeat(c, n) + t;
    assert TripleAt(s, 0);
    RunOfRepeat(c, n, t);
    assert s[n..] == t;
  }

  lemma CollapseShortRun(c: char, n: nat, t: string)
    requires n >= 1 && !(IsRepeatable(c) && n >= 3)
    requires t == [] || t[0] != c
    ensures CollapseRepeats(Repeat(c, n) + t) == [c] + CollapseRepeats(Repeat(c, n - 1) + t)
  {
    var s := Repeat(c, n) + t;
    if |s| > n {
      assert s[n] == t[0];
    }
    assert !TripleAt(s, 0);
    assert s[1..] == Repeat(c, n - 1) + t;
  }

  lemma {:induction false} RunOfRepeat(c: char, n: nat, t: string)
    requires t == [] || t[0] != c
    ensures RunOf(c, Repeat(c, n) + t) == n
  {
    if n == 0 {
      assert Repeat(c, n) + t == t;
    } else {
      assert (Repeat(c, n) + t)[1..] == Repeat(c, n - 1) + t;
      RunOfRepeat(c, n - 1, t);
    }
  }

  /** The pass changes a string exactly when it holds a run of three. */
  lemma {:induction false} CollapseRepeatsIdentity(s: string)
    ensures CollapseRepeats(s) == s <==> NoTripleRun(s)
  {
    CollapseRepeatsShape(s);
    if NoTripleRun(s) && s != [] {
      assert !TripleAt(s, 0);
      assert NoTripleRun(s[1..]) by {
        forall i | 0 <= i < |s[1..]| ensures !TripleAt(s[1..], i) { assert !TripleAt(s, i + 1); }
      }
      CollapseRepeatsIdentity(s[1..]);
    }
  }

  /** Shortening runs never brings two whitespace characters together. */
  lemma {:induction false} CollapseRepeatsKeepsSpacing(u: CharClasses, s: string)
    requires NoAdjacentSpaces(u, s)
    ensures NoAdjacentSpaces(u, CollapseRepeats(s))
    decreases |s|
  {
    if s != [] {
      if TripleAt(s, 0) {
        var n := RunOf(s[0], s);
        var t := s[n..];
        assert NoAdjacentSpaces(u, t) by {
          forall i | 0 <= i < |t| - 1 ensures !(u.isSpace(t[i]) && u.isSpace(t[i + 1])) {
            assert t[i] == s[n + i] && t[i + 1] == s[n + i + 1];
          }
        }
        CollapseRepeatsKeepsSpacing(u, t);
        var c0, c1 := s[0], s[1];
        assert !(u.isSpace(c0) && u.isSpace(c1));
        if |t| > 0 {
          var c, d := s[n - 1], t[0];
          assert c == c0;
          assert !(u.isSpace(c) && u.isSpace(d)) by { assert d == s[n - 1 + 1]; }
        }
      } else {
        var t := s[1..];
        assert NoAdjacentSpaces(u, t) by {
          forall i | 0 <= i < |t| - 1 ensures !(u.isSpace(t[i]) && u.isSpace(t[i + 1])) {
            assert t[i] == s[i + 1] && t[i + 1] == s[i + 2];
          }
        }
        CollapseRepeatsKeepsSpacing(u, t);
      }
    }
  }

  // ---------------------------------------------------------------------------
  // The whole chain
  // ---------------------------------------------------------------------------

  /** The shape every cleaned string has. */
  predicate IsClean(u: CharClasses, s: string)
  {
    && AllAllowed(u, s)
    && SpacesArePlain(u, s)
    && NoAdjacentSpaces(u, s)
    && IsStripped(u, s)
    && NoTripleRun(s)
  }

  /** `clean_text` on a string: the four substitutions, then `str.strip()`. */
  function CleanString(u: CharClasses, s: string): (r: string)
    ensures |r| <= |s|
  {
    Strip(u, CollapseRepeats(CollapseSpaces(u, KeepAllowed(u, DropUrls(u, s)))))
  }

  /**
   * `clean_text(text)`: `""` for anything that is not a string (`None` included);
   * the cleaned string otherwise.
   */
  function CleanText(u: CharClasses, v: Json): (r: string)
    ensures !v.Str? ==> r == []
  {
    if v.Str? then CleanString(u, v.s) else ""
  }

  /** Whatever is passed in, what `clean_text` returns has the cleaned shape. */
  lemma CleanTextIsClean(u: CharClasses, v: Json)
    requires u.Valid()
    ensures IsClean(u, CleanText(u, v))
  {
    if v.Str? {
      CleanStringIsClean(u, v.s);
    }
  }

  /** The properties of a cleaned string are local, so every slice keeps them. */
  lemma SliceStaysClean(u: CharClasses, s: string, i: nat, j: nat)
    requires i <= j <= |s|
    requires AllAllowed(u, s) && SpacesArePlain(u, s) && NoAdjacentSpaces(u, s) && NoTripleRun(s)
    ensures var t := s[i..j];
      AllAllowed(u, t) && SpacesArePlain(u, t) && NoAdjacentSpaces(u, t) && NoTripleRun(t)
  {
    var t := s[i..j];
    assert forall k :: 0 <= k < |t| ==> t[k] == s[i + k];
    forall k | 0 <= k < |t| ensures !TripleAt(t, k) {
      assert !TripleAt(s, i + k);
    }
  }

  /**
   * Every output of `clean_text` has the cleaned shape: only characters of the
   * allowed class, no whitespace but single ' ' characters, none at either end,
   * and no character of `[ก-๙]` three times in a row.
   */
  lemma CleanStringIsClean(u: CharClasses, s: string)
    requires u.Valid()
    ensures IsClean(u, CleanString(u, s))
  {
    KeepAllowedMembers(u, DropUrls(u, s));
    var a := KeepAllowed(u, DropUrls(u, s));
    var b := CollapseSpaces(u, a);
    CollapseSpacesShape(u, a);
    CollapsedStaysAllowed(u, a);
    RepeatsKeepClasses(u, b);
    CollapseRepeatsKeepsSpacing(u, b);
    CollapseRepeatsShape(b);
    StripKeepsClean(u, CollapseRepeats(b));
  }

  lemma StripKeepsClean(u: CharClasses, c: string)
    requires AllAllowed(u, c) && SpacesArePlain(u, c) && NoAdjacentSpaces(u, c) && NoTripleRun(c)
    ensures IsClean(u, Strip(u, c))
  {
    var r := Strip(u, c);
    StripIsPadded(u, c);
    var i := LeadingSpaces(u, c);
    SliceStaysClean(u, c, i, i + |r|);
  }

  lemma CollapsedStaysAllowed(u: CharClasses, a: string)
    requires u.Valid() && AllAllowed(u, a)
    ensures AllAllowed(u, CollapseSpaces(u, a))
  {
    CollapseSpacesShape(u, a);
  }

  lemma RepeatsKeepClasses(u: CharClasses, b: string)
    requires AllAllowed(u, b) && SpacesArePlain(u, b)
    ensures AllAllowed(u, CollapseRepeats(b)) && SpacesArePlain(u, CollapseRepeats(b))
  {
    CollapseRepeatsShape(b);
  }

  /** Cleaning twice is cleaning once. */
  lemma CleanStringIdempotent(u: CharClasses, s: string)
    requires u.Valid()
    ensures CleanString(u, CleanString(u, s)) == CleanString(u, s)
  {
    CleanStringIsClean(u, s);
    CleanStringOfClean(u, CleanString(u, s));
  }

  /** Each pass leaves a string of the cleaned shape alone, so `clean_text` does too. */
  lemma CleanStringOfClean(u: CharClasses, t: string)
    requires u.Valid() && IsClean(u, t)
    ensures CleanString(u, t) == t
  {
    forall k | 0 <= k < |t| ensures t[k] != ':' {
      assert Allowed(u, t[k]);
    }
    NoColonNoUrl(u, t);
    DropUrlsIdentity(u, t);
    KeepAllowedIdentity(u, t);
    CollapseSpacesIdentity(u, t);
    CollapseRepeatsIdentity(t);
    StripOfStripped(u, t);
  }

  /** `clean_text` is idempotent on every input, strings or not. */
  lemma CleanTextIdempotent(u: CharClasses, v: Json)
    requires u.Valid()
    ensures CleanText(u, Str(CleanText(u, v))) == CleanText(u, v)
  {
    if v.Str? {
      CleanStringIdempotent(u, v.s);
    }
  }

  /**
   * Neither ':' nor '/' survives cleaning, so no `http://` or `https://` does either,
   * and no whitespace but ' ' does (a line feed in particular is gone).
   */
  lemma CleanHasNoScheme(u: CharClasses, s: string)
    requires u.Valid()
    ensures var r := CleanString(u, s);
      ':' !in r && '/' !in r && '\n' !in r && !Contains(r, Http) && !Contains(r, Https)
  {
    CleanStringIsClean(u, s);
    NoSchemeInClean(u, CleanString(u, s));
  }

  lemma NoSchemeInClean(u: CharClasses, r: string)
    requires u.Valid() && IsClean(u, r)
    ensures ':' !in r && '/' !in r && '\n' !in r && !Contains(r, Http) && !Contains(r, Https)
  {
    assert ':' !in r;
    forall i | 0 <= i <= |r| - |Http| ensures !OccursAt(r, Http, i) {
      assert r[i..i + |Http|][4] == r[i + 4] && r[i + 4] in r;
    }
    forall i | 0 <= i <= |r| - |Https| ensures !OccursAt(r, Https, i) {
      assert r[i..i + |Https|][5] == r[i + 5] && r[i + 5] in r;
    }
  }

  // ---------------------------------------------------------------------------
  // The four inputs of the unit tests of `clean_text`
  // ---------------------------------------------------------------------------

  /**
   * When the first two passes leave allowed text without whitespace, only the
   * repeat pass has any further work to do.
   */
  lemma CleanStringOfWord(u: CharClasses, s: string, t: string)
    requires KeepAllowed(u, DropUrls(u, s)) == t
    requires forall c :: c in t ==> !u.isSpace(c)
    ensures CleanString(u, s) == CollapseRepeats(t)
  {
    CollapseSpacesIdentity(u, t);
    var r := CollapseRepeats(t);
    CollapseRepeatsShape(t);
    if r != [] {
      assert r[0] in t && r[|r| - 1] in t;
    }
    StripOfStripped(u, r);
  }

  /** Allowed text without ':' goes through the first two passes unchanged. */
  lemma FilterOfWord(u: CharClasses, s: string)
    requires ':' !in s && AllAllowed(u, s)
    ensures KeepAllowed(u, DropUrls(u, s)) == s
  {
    NoColonNoUrl(u, s);
    DropUrlsIdentity(u, s);
    KeepAllowedIdentity(u, s);
  }

  /** "มากกก" becomes "มากก": the run of three ก is cut to two. */
  lemma CleanRepeatedThai(u: CharClasses)
    requires !u.isSpace('ม') && !u.isSpace('า') && !u.isSpace('ก')
    ensures CleanString(u, "มากกก") == "มากก"
  {
    var s := "มากกก";
    assert KeepAllowed(u, DropUrls(u, s)) == s by { FilterOfWord(u, s); }
    CleanStringOfWord(u, s, s);
    RepeatedThaiRepeats();
  }

  lemma RepeatedThaiRepeats()
    ensures CollapseRepeats("มากกก") == "มากก"
  {
    TwoThenRun('ม', 'า', 'ก');
    assert "มากกก" == ['ม', 'า', 'ก', 'ก', 'ก'];
  }

  /** Two different characters, then three copies of a character of `[ก-๙]`. */
  lemma TwoThenRun(a: char, b: char, c: char)
    requires a != b && b != c && IsRepeatable(c)
    ensures CollapseRepeats([a, b, c, c, c]) == [a, b, c, c]
  {
    var s := [a, b, c, c, c];
    assert !TripleAt(s, 0) && s[1..] == [b, c, c, c];
    assert !TripleAt(s[1..], 0) && s[2..] == [c, c, c];
    assert [c, c, c] == Repeat(c, 3) + [];
    CollapseLongRun(c, 3, []);
    assert CollapseRepeats(s[2..]) == [c, c];
  }

  /** "https://example.com" is a URL and nothing else, so nothing is left. */
  lemma CleanUrlOnly(u: CharClasses)
    requires forall c :: c in "example.com" ==> !u.isSpace(c)
    ensures CleanString(u, "https://example.com") == ""
  {
    var s := "https://example.com";
    assert s[..8] == Https;
    assert s[8..] == "example.com";
    assert NonSpaceRun(u, s[8..]) == |s| - 8;
    assert UrlMatch(u, s) == |s|;
  }

  /**
   * "เศร้าา🥲" becomes "เศร้าา": the emoji is dropped, and the doubled า stays, since
   * only runs of three or more are shortened. (The unit test expects "เศร้า"; the
   * code does not produce it.)
   */
  lemma CleanEmoji(u: CharClasses)
    requires u.Valid()
    requires forall c :: c in "เศร้าา" ==> !u.isSpace(c)
    requires !u.isWord('🥲') && !u.isSpace('🥲')
    ensures CleanString(u, "เศร้าา🥲") == "เศร้าา"
    ensures CleanString(u, "เศร้าา🥲") != "เศร้า"
  {
    EmojiFiltered(u);
    CleanStringOfWord(u, "เศร้าา🥲", "เศร้าา");
    EmojiRepeats();
  }

  lemma EmojiRepeats()
    ensures CollapseRepeats("เศร้าา") == "เศร้าา"
  {
    var t := "เศร้าา";
    forall i | 0 <= i < |t| ensures !TripleAt(t, i) {
      assert t[4] == t[5] != t[3];
    }
    CollapseRepeatsIdentity(t);
  }

  lemma EmojiFiltered(u: CharClasses)
    requires !u.isWord('🥲') && !u.isSpace('🥲')
    ensures KeepAllowed(u, DropUrls(u, "เศร้าา🥲")) == "เศร้าา"
  {
    EmojiNoUrl(u);
    EmojiDropped(u);
  }

  lemma EmojiNoUrl(u: CharClasses)
    ensures DropUrls(u, "เศร้าา🥲") == "เศร้าา🥲"
  {
    var s := "เศร้าา🥲";
    NoColonNoUrl(u, s);
    DropUrlsIdentity(u, s);
  }

  lemma EmojiDropped(u: CharClasses)
    requires !u.isWord('🥲') && !u.isSpace('🥲')
    ensures KeepAllowed(u, "เศร้าา🥲") == "เศร้าา"
  {
    var t := "เศร้าา";
    assert "เศร้าา🥲" == t + ['🥲'];
    assert forall c :: c in t ==> IsThai(c);
    DropDisallowedLast(u, t, '🥲');
  }

  lemma DropDisallowedLast(u: CharClasses, t: string, e: char)
    requires AllAllowed(u, t) && !Allowed(u, e)
    ensures KeepAllowed(u, t + [e]) == t
  {
    KeepAllowedConcat(u, t, [e]);
    KeepAllowedIdentity(u, t);
    assert KeepAllowed(u, [e]) == [];
  }

  /** A string of spaces cleans to "". */
  lemma CleanSpacesOnly(u: CharClasses)
    requires u.Valid()
    ensures CleanString(u, "   ") == ""
  {
    var s := "   ";
    NoColonNoUrl(u, s);
    DropUrlsIdentity(u, s);
    KeepAllowedIdentity(u, s);
    assert LeadingSpaces(u, s) == 3;
    assert CollapseSpaces(u, s) == " ";
    assert CollapseRepeats(" ") == " ";
    AllSpacesStrip(u, " ");
  }
}
