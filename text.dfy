/**
 * Character classes and the two Python string builtins the pipeline leans on:
 * `str.strip()` with no argument and `str.join`. A line splitter (`str.split("\n")`)
 * is here too, to state how the context template reads back.
 */
module Text {

  /**
   * Python's Unicode character classes, which come from Unicode tables that are not
   * part of this model. `isWord` is the class `\w` of a `re` pattern on `str`;
   * `isSpace` is `\s`. CPython decides both `\s` and the whitespace that `str.strip()`
   * removes with the same test, so one predicate serves both.
   */
  datatype CharClasses = CharClasses(isWord: char -> bool, isSpace: char -> bool)
  {
    /**
     * The facts about the two classes that the proofs rely on. All of them hold of
     * Python's tables: ASCII space and line feed are whitespace; ':' and '/' are not
     * word characters.
     */
    predicate Valid()
    {
      isSpace(' ') && isSpace('\n') && !isWord(':') && !isWord('/')
    }
  }

  predicate AllSpaces(u: CharClasses, s: string)
  {
    forall k :: 0 <= k < |s| ==> u.isSpace(s[k])
  }

  /** Neither the first nor the last character is whitespace: what `str.strip()` returns. */
  predicate IsStripped(u: CharClasses, s: string)
  {
    s == [] || (!u.isSpace(s[0]) && !u.isSpace(s[|s| - 1]))
  }

  /** Length of the run of whitespace that starts `s`. */
  function LeadingSpaces(u: CharClasses, s: string): (n: nat)
    ensures n <= |s|
    ensures n < |s| ==> !u.isSpace(s[n])
  {
    if s == [] || !u.isSpace(s[0]) then 0 else 1 + LeadingSpaces(u, s[1..])
  }

  /** What `LeadingSpaces` counts is whitespace. */
  lemma {:induction false} LeadingSpacesAreSpaces(u: CharClasses, s: string)
    ensures AllSpaces(u, s[..LeadingSpaces(u, s)])
  {
    if s != [] && u.isSpace(s[0]) {
      LeadingSpacesAreSpaces(u, s[1..]);
      var n := LeadingSpaces(u, s);
      forall k | 0 <= k < n ensures u.isSpace(s[k]) {
        if k > 0 { assert s[k] == s[1..][..n - 1][k - 1]; }
      }
    }
  }

  /** Length of the run of whitespace that ends `s`. */
  function TrailingSpaces(u: CharClasses, s: string): (n: nat)
    ensures n <= |s|
    ensures n < |s| ==> !u.isSpace(s[|s| - 1 - n])
  {
    if s == [] || !u.isSpace(s[|s| - 1]) then 0 else 1 + TrailingSpaces(u, s[..|s| - 1])
  }

  /** What `TrailingSpaces` counts is whitespace. */
  lemma {:induction false} TrailingSpacesAreSpaces(u: CharClasses, s: string)
    ensures AllSpaces(u, s[|s| - TrailingSpaces(u, s)..])
  {
    if s != [] && u.isSpace(s[|s| - 1]) {
      var p := s[..|s| - 1];
      TrailingSpacesAreSpaces(u, p);
      var w := s[|s| - TrailingSpaces(u, s)..];
      forall k | 0 <= k < |w| ensures u.isSpace(w[k]) {
        if k < |w| - 1 { assert w[k] == p[|p| - (|w| - 1)..][k]; }
      }
    }
  }

  /** `str.strip()`: `s` with its leading and trailing whitespace removed. */
  function Strip(u: CharClasses, s: string): (r: string)
    ensures IsStripped(u, r)
    ensures |r| <= |s|
  {
    var i := LeadingSpaces(u, s);
    var t := s[i..];
    var j := TrailingSpaces(u, t);
    t[..|t| - j]
  }

  /** What `Strip` removes is whitespace: its result sits in `s` between two runs of it. */
  lemma StripIsPadded(u: CharClasses, s: string)
    ensures Padding(u, s, Strip(u, s), LeadingSpaces(u, s))
  {
    var i := LeadingSpaces(u, s);
    LeadingSpacesAreSpaces(u, s);
    TrailingSpacesAreSpaces(u, s[i..]);
    PaddingOfSlices(u, s, i, TrailingSpaces(u, s[i..]));
  }

  lemma PaddingOfSlices(u: CharClasses, s: string, i: nat, j: nat)
    requires i + j <= |s|
    requires AllSpaces(u, s[..i]) && AllSpaces(u, s[i..][|s| - i - j..])
    ensures Padding(u, s, s[i..][..|s| - i - j], i)
  {
    var r := s[i..][..|s| - i - j];
    assert s[i..i + |r|] == r;
    assert s[i + |r|..] == s[i..][|s| - i - j..];
  }

  /** `s` is `r` preceded by `i` whitespace characters and followed only by whitespace. */
  predicate Padding(u: CharClasses, s: string, r: string, i: nat)
  {
    i + |r| <= |s| && s[i..i + |r|] == r && AllSpaces(u, s[..i]) && AllSpaces(u, s[i + |r|..])
  }

  lemma {:induction false} LeadingSpacesOfPadded(u: CharClasses, pre: string, t: string)
    requires AllSpaces(u, pre)
    requires t == [] || !u.isSpace(t[0])
    ensures LeadingSpaces(u, pre + t) == |pre|
  {
    if pre != [] {
      assert (pre + t)[1..] == pre[1..] + t;
      LeadingSpacesOfPadded(u, pre[1..], t);
    } else {
      assert pre + t == t;
    }
  }

  lemma {:induction false} TrailingSpacesOfPadded(u: CharClasses, t: string, post: string)
    requires AllSpaces(u, post)
    requires t == [] || !u.isSpace(t[|t| - 1])
    ensures TrailingSpaces(u, t + post) == |post|
  {
    if post != [] {
      assert (t + post)[..|t + post| - 1] == t + post[..|post| - 1];
      TrailingSpacesOfPadded(u, t, post[..|post| - 1]);
    } else {
      assert t + post == t;
    }
  }

  /**
   * `Strip` is the only way to get a stripped string by removing whitespace from the
   * two ends: whatever the padding, `Strip(pre + t + post) == t`.
   */
  lemma StripOfPadded(u: CharClasses, pre: string, t: string, post: string)
    requires AllSpaces(u, pre) && AllSpaces(u, post)
    requires IsStripped(u, t)
    ensures Strip(u, pre + t + post) == t
  {
    var s := pre + t + post;
    if t == [] {
      assert AllSpaces(u, s);
      AllSpacesStrip(u, s);
    } else {
      assert s == pre + (t + post);
      LeadingSpacesOfPadded(u, pre, t + post);
      assert s[|pre|..] == t + post;
      TrailingSpacesOfPadded(u, t, post);
    }
  }

  /** `str.strip()` returns `""` exactly when the string is all whitespace. */
  lemma AllSpacesStrip(u: CharClasses, s: string)
    ensures Strip(u, s) == [] <==> AllSpaces(u, s)
  {
    if AllSpaces(u, s) {
      assert s + [] == s;
      LeadingSpacesOfPadded(u, s, []);
    }
    if Strip(u, s) == [] {
      StripIsPadded(u, s);
      var i := LeadingSpaces(u, s);
      assert s == s[..i] + s[i..];
      AllSpacesConcat(u, s[..i], s[i..]);
    }
  }

  lemma AllSpacesConcat(u: CharClasses, a: string, b: string)
    requires AllSpaces(u, a) && AllSpaces(u, b)
    ensures AllSpaces(u, a + b)
  {
    forall k | 0 <= k < |a + b| ensures u.isSpace((a + b)[k]) {
      if k >= |a| { assert (a + b)[k] == b[k - |a|]; }
    }
  }

  /** A stripped string is left alone, and so `Strip` is idempotent. */
  lemma StripOfStripped(u: CharClasses, s: string)
    requires IsStripped(u, s)
    ensures Strip(u, s) == s
  {
    assert [] + s + [] == s;
    StripOfPadded(u, [], s, []);
  }

  /** `str.join`: the strings of `xs` with `sep` between neighbours. */
  function Join(sep: string, xs: seq<string>): (r: string)
    ensures forall c :: c in r ==> c in sep || exists i :: 0 <= i < |xs| && c in xs[i]
    ensures forall i :: 0 <= i < |xs| ==> Contains(r, xs[i])
  {
    if xs == [] then ""
    else if |xs| == 1 then
      assert OccursAt(xs[0], xs[0], 0);
      xs[0]
    else
      var rest := Join(sep, xs[1..]);
      ContainsInLeft(xs[0], sep + rest);
      assert xs[0] + sep + rest == xs[0] + (sep + rest);
      forall i | 1 <= i < |xs| ensures Contains(xs[0] + sep + rest, xs[i]) {
        assert xs[i] == xs[1..][i - 1];
        ContainsInRight(xs[0] + sep, rest, xs[i]);
        assert xs[0] + sep + rest == (xs[0] + sep) + rest;
      }
      xs[0] + sep + rest
  }

  /** `t` occurs in `s` as a contiguous piece (Python's `t in s` on strings). */
  predicate Contains(s: string, t: string)
  {
    exists i | 0 <= i <= |s| - |t| :: OccursAt(s, t, i)
  }

  predicate OccursAt(s: string, t: string, i: int)
  {
    0 <= i <= |s| - |t| && s[i..i + |t|] == t
  }

  lemma ContainsInLeft(a: string, b: string)
    ensures Contains(a + b, a)
  {
    assert OccursAt(a + b, a, 0);
  }

  lemma ContainsInRight(a: string, b: string, t: string)
    requires Contains(b, t)
    ensures Contains(a + b, t)
  {
    var i :| 0 <= i <= |b| - |t| && OccursAt(b, t, i);
    assert (a + b)[|a| + i..|a| + i + |t|] == t;
    assert OccursAt(a + b, t, |a| + i);
  }

  /** A piece of a piece of `s` is a piece of `s`. */
  lemma ContainsTransitive(s: string, t: string, w: string)
    requires Contains(s, t) && Contains(t, w)
    ensures Contains(s, w)
  {
    var i :| 0 <= i <= |s| - |t| && OccursAt(s, t, i);
    var j :| 0 <= j <= |t| - |w| && OccursAt(t, w, j);
    assert t == s[i..i + |t|];
    forall k | 0 <= k < |w| ensures s[i + j + k] == w[k] {
      assert w[k] == t[j + k] == s[i + j + k];
    }
    assert s[i + j..i + j + |w|] == w;
    assert OccursAt(s, w, i + j);
  }

  /** Position of the first `c` in `s`. */
  function IndexOf(s: string, c: char): (k: nat)
    requires c in s
    ensures k < |s| && s[k] == c && c !in s[..k]
  {
    if s[0] == c then 0 else 1 + IndexOf(s[1..], c)
  }

  /** `s.split("\n")`: the pieces of `s` between line feeds. */
  function Lines(s: string): (r: seq<string>)
    decreases |s|
    ensures |r| >= 1
    ensures forall i :: 0 <= i < |r| ==> '\n' !in r[i]
  {
    if '\n' !in s then [s]
    else
      var k := IndexOf(s, '\n');
      [s[..k]] + Lines(s[k + 1..])
  }

  /** Splitting lines undoes joining them, as long as no line holds a line feed. */
  lemma {:induction false} LinesOfJoin(xs: seq<string>)
    requires |xs| >= 1
    requires forall i :: 0 <= i < |xs| ==> '\n' !in xs[i]
    ensures Lines(Join("\n", xs)) == xs
  {
    if |xs| > 1 {
      var rest := Join("\n", xs[1..]);
      var s := xs[0] + "\n" + rest;
      assert s[|xs[0]|] == '\n';
      assert s[..|xs[0]|] == xs[0];
      assert IndexOf(s, '\n') == |xs[0]|;
      assert s[|xs[0]| + 1..] == rest;
      LinesOfJoin(xs[1..]);
      assert [xs[0]] + xs[1..] == xs;
    }
  }
}
