/**
 * The suburb normaliser of the address-verification resolver: trim, replace
 * every run of whitespace by one space, upper-case. Both sides of every
 * suburb (and, in the resolver, state) comparison go through it.
 */
module Suburb {
  import opened Text

  /** Every whitespace character is a plain space and no two whitespace characters are adjacent. */
  predicate SingleSpaced(s: string) {
    forall i :: 0 <= i < |s| && IsWhitespace(s[i]) ==>
      s[i] == ' ' && (i + 1 < |s| ==> !IsWhitespace(s[i + 1]))
  }

  /** The shape of every string `NormalizeSuburb` returns. */
  predicate Normalized(s: string) {
    NoEdgeWhitespace(s) && SingleSpaced(s) && NoLower(s)
  }

  /**
   * `replace(/\s+/g, ' ')`, scanning left to right; `inRun` says that the
   * character before `s` was whitespace that has already become a space.
   */
  function CollapseRuns(s: string, inRun: bool): (r: string)
    ensures |r| <= |s|
    ensures !inRun && s != [] ==> r != []
    decreases |s|
  {
    if s == [] then []
    else if IsWhitespace(s[0]) then
      if inRun then CollapseRuns(s[1..], true) else [' '] + CollapseRuns(s[1..], true)
    else [s[0]] + CollapseRuns(s[1..], false)
  }

  /** The length of the run of non-whitespace characters that `s` starts with. */
  function WordLen(s: string): (k: nat)
    ensures k <= |s|
    ensures forall i :: 0 <= i < k ==> !IsWhitespace(s[i])
    ensures k < |s| ==> IsWhitespace(s[k])
    decreases |s|
  {
    if s == [] || IsWhitespace(s[0]) then 0
    else
      var k := 1 + WordLen(s[1..]);
      assert forall i :: 1 <= i < |s| ==> s[i] == s[1..][i - 1];
      k
  }

  /** The words of `s`: its maximal runs of non-whitespace characters, in order. */
  function Words(s: string): seq<string>
    decreases |s|
  {
    if s == [] then []
    else if IsWhitespace(s[0]) then Words(s[1..])
    else [s[..WordLen(s)]] + Words(s[WordLen(s)..])
  }

  function CollapseWhitespace(s: string): string {
    CollapseRuns(s, false)
  }

  /** normalizeSuburb: `name.trim().replace(/\s+/g, ' ').toUpperCase()`. */
  function NormalizeSuburb(name: string): (r: string)
    ensures NoLower(r) && |r| <= |name|
  {
    UpperStr(CollapseWhitespace(Trim(name)))
  }

  lemma {:induction false} CollapseRunsSingleSpaced(s: string, inRun: bool)
    ensures SingleSpaced(CollapseRuns(s, inRun))
    ensures inRun ==> CollapseRuns(s, inRun) == [] || !IsWhitespace(CollapseRuns(s, inRun)[0])
    decreases |s|
  {
    if s != [] {
      CollapseRunsSingleSpaced(s[1..], true);
      CollapseRunsSingleSpaced(s[1..], false);
      var r := CollapseRuns(s, inRun);
      if !IsWhitespace(s[0]) {
        var rest := CollapseRuns(s[1..], false);
        assert r == [s[0]] + rest;
        forall i | 0 <= i < |r| && IsWhitespace(r[i])
          ensures r[i] == ' ' && (i + 1 < |r| ==> !IsWhitespace(r[i + 1]))
        {
          assert i > 0 && r[i] == rest[i - 1];
          if i + 1 < |r| { assert r[i + 1] == rest[i]; }
        }
      } else if !inRun {
        var rest := CollapseRuns(s[1..], true);
        assert r == [' '] + rest;
        forall i | 0 <= i < |r| && IsWhitespace(r[i])
          ensures r[i] == ' ' && (i + 1 < |r| ==> !IsWhitespace(r[i + 1]))
        {
          if i > 0 {
            assert r[i] == rest[i - 1];
            if i + 1 < |r| { assert r[i + 1] == rest[i]; }
          } else if 1 < |r| {
            assert r[1] == rest[0];
          }
        }
      }
    }
  }

  lemma {:induction false} CollapseRunsEdges(s: string, inRun: bool)
    requires s != [] && !IsWhitespace(s[|s| - 1])
    ensures CollapseRuns(s, inRun) != []
    ensures CollapseRuns(s, inRun)[|CollapseRuns(s, inRun)| - 1] == s[|s| - 1]
    decreases |s|
  {
    if |s| > 1 {
      assert s[1..][|s[1..]| - 1] == s[|s| - 1];
      CollapseRunsEdges(s[1..], true);
      CollapseRunsEdges(s[1..], false);
    }
  }

  lemma {:induction false} CollapseRunsFixesSingleSpaced(s: string, inRun: bool)
    requires SingleSpaced(s)
    requires inRun ==> s == [] || !IsWhitespace(s[0])
    ensures CollapseRuns(s, inRun) == s
    decreases |s|
  {
    if s != [] {
      assert SingleSpaced(s[1..]) by {
        forall i | 0 <= i < |s[1..]| && IsWhitespace(s[1..][i])
          ensures s[1..][i] == ' ' && (i + 1 < |s[1..]| ==> !IsWhitespace(s[1..][i + 1]))
        {
          assert s[1..][i] == s[i + 1];
          if i + 1 < |s[1..]| { assert s[1..][i + 1] == s[i + 2]; }
        }
      }
      if IsWhitespace(s[0]) {
        assert |s| > 1 ==> !IsWhitespace(s[1]);
        CollapseRunsFixesSingleSpaced(s[1..], true);
        assert [' '] + s[1..] == s;
      } else {
        CollapseRunsFixesSingleSpaced(s[1..], false);
        assert [s[0]] + s[1..] == s;
      }
    }
  }

  /** normalizeSuburb returns an upper-case string, trimmed, with single spaces between words. */
  lemma NormalizeSuburbIsNormalized(name: string)
    ensures Normalized(NormalizeSuburb(name))
  {
    var t := Trim(name);
    var c := CollapseWhitespace(t);
    var r := UpperStr(c);
    CollapseRunsSingleSpaced(t, false);
    if t != [] {
      CollapseRunsEdges(t, false);
      assert c[0] == t[0];
    }
    assert forall i :: 0 <= i < |c| ==> IsWhitespace(r[i]) == IsWhitespace(c[i]);
    assert forall i :: 0 <= i < |c| && c[i] == ' ' ==> r[i] == ' ';
  }

  /** A normalised string is left unchanged. */
  lemma NormalizedIsFixed(s: string)
    requires Normalized(s)
    ensures NormalizeSuburb(s) == s
  {
    TrimFixesTrimmed(s);
    CollapseRunsFixesSingleSpaced(s, false);
    UpperStrFixesUppercase(s);
  }

  /** normalizeSuburb is idempotent. */
  lemma NormalizeSuburbIdempotent(name: string)
    ensures NormalizeSuburb(NormalizeSuburb(name)) == NormalizeSuburb(name)
  {
    NormalizeSuburbIsNormalized(name);
    NormalizedIsFixed(NormalizeSuburb(name));
  }

  /** A name without whitespace is only upper-cased. */
  lemma NoWhitespaceIsUpperCased(name: string)
    requires forall i :: 0 <= i < |name| ==> !IsWhitespace(name[i])
    ensures NormalizeSuburb(name) == UpperStr(name)
  {
    TrimFixesTrimmed(name);
    CollapseRunsFixesSingleSpaced(name, false);
  }

  // ---- the words of a name ----

  /** A run of non-whitespace characters at the start of `s` is its first word's length. */
  lemma WordLenUnique(s: string, k: nat)
    requires k <= |s| && forall i :: 0 <= i < k ==> !IsWhitespace(s[i])
    requires k < |s| ==> IsWhitespace(s[k])
    ensures WordLen(s) == k
  {
  }

  /** Every word is non-empty and holds no whitespace. */
  lemma {:induction false} WordsAreRuns(s: string)
    ensures forall i :: 0 <= i < |Words(s)| ==> Words(s)[i] != []
    ensures forall i, j :: 0 <= i < |Words(s)| && 0 <= j < |Words(s)[i]| ==> !IsWhitespace(Words(s)[i][j])
    decreases |s|
  {
    if s != [] {
      if IsWhitespace(s[0]) {
        WordsAreRuns(s[1..]);
      } else {
        var k := WordLen(s);
        WordsAreRuns(s[k..]);
        var ws := Words(s);
        assert ws == [s[..k]] + Words(s[k..]);
        assert forall i :: 1 <= i < |ws| ==> ws[i] == Words(s[k..])[i - 1];
      }
    }
  }

  /** A text has no words exactly when it is all whitespace. */
  lemma {:induction false} NoWordsIffAllWhitespace(s: string)
    ensures Words(s) == [] <==> forall i :: 0 <= i < |s| ==> IsWhitespace(s[i])
    decreases |s|
  {
    if s != [] && IsWhitespace(s[0]) {
      NoWordsIffAllWhitespace(s[1..]);
      assert forall i :: 1 <= i < |s| ==> s[i] == s[1..][i - 1];
    }
  }

  /** Whitespace in front of `s` adds no word. */
  lemma {:induction false} WordsSkipWhitespace(w: string, s: string)
    requires forall i :: 0 <= i < |w| ==> IsWhitespace(w[i])
    ensures Words(w + s) == Words(s)
    decreases |w|
  {
    if w == [] {
      assert w + s == s;
    } else {
      assert (w + s)[1..] == w[1..] + s;
      WordsSkipWhitespace(w[1..], s);
    }
  }

  /** A non-empty whitespace run ends the words before it and starts the words after it. */
  lemma {:induction false} WordsSeparated(a: string, w: string, b: string)
    requires w != [] && forall i :: 0 <= i < |w| ==> IsWhitespace(w[i])
    ensures Words(a + w + b) == Words(a) + Words(b)
    decreases |a|
  {
    var s := a + w + b;
    if a == [] {
      assert s == w + b;
      WordsSkipWhitespace(w, b);
    } else if IsWhitespace(a[0]) {
      assert s[1..] == a[1..] + w + b;
      WordsSeparated(a[1..], w, b);
    } else {
      WordsSeparated(a[WordLen(a)..], w, b);
      WordsSeparatedStep(a, w, b);
    }
  }

  /** The word step of `WordsSeparated`: the first word of `a` is also the first word of `a + w + b`. */
  lemma WordsSeparatedStep(a: string, w: string, b: string)
    requires a != [] && !IsWhitespace(a[0])
    requires w != [] && forall i :: 0 <= i < |w| ==> IsWhitespace(w[i])
    requires Words(a[WordLen(a)..] + w + b) == Words(a[WordLen(a)..]) + Words(b)
    ensures Words(a + w + b) == Words(a) + Words(b)
  {
    var s := a + w + b;
    var k := WordLen(a);
    FirstWordBeforeWhitespace(a, w, b);
    calc {
      Words(s);
      [s[..k]] + Words(s[k..]);
      [a[..k]] + Words(a[k..] + w + b);
      [a[..k]] + (Words(a[k..]) + Words(b));
      ([a[..k]] + Words(a[k..])) + Words(b);
      Words(a) + Words(b);
    }
  }

  /** Whitespace after `a` ends the first word of `a` in `a + w + b`. */
  lemma FirstWordBeforeWhitespace(a: string, w: string, b: string)
    requires w != [] && forall i :: 0 <= i < |w| ==> IsWhitespace(w[i])
    ensures var s := a + w + b; var k := WordLen(a);
      WordLen(s) == k && s[..k] == a[..k] && s[k..] == a[k..] + w + b
  {
    var s := a + w + b;
    var k := WordLen(a);
    assert forall i :: 0 <= i < k ==> s[i] == a[i];
    assert IsWhitespace(s[k]) by {
      if k < |a| { assert s[k] == a[k]; } else { assert s[k] == w[0]; }
    }
    WordLenUnique(s, k);
    assert s[..k] == a[..k];
    assert s[k..] == a[k..] + w + b;
  }

  /** Trailing whitespace adds no word. */
  lemma WordsDropTrailingWhitespace(s: string, w: string)
    requires forall i :: 0 <= i < |w| ==> IsWhitespace(w[i])
    ensures Words(s + w) == Words(s)
  {
    if w != [] {
      WordsSeparated(s, w, []);
      assert s + w + [] == s + w;
    } else {
      assert s + w == s;
    }
  }

  /** `trim` keeps the words. */
  lemma WordsOfTrim(s: string)
    ensures Words(Trim(s)) == Words(s)
  {
    WordsOfTrimStart(s);
    WordsOfTrimEnd(TrimStart(s));
  }

  lemma WordsOfTrimStart(s: string)
    ensures Words(TrimStart(s)) == Words(s)
  {
    var u := TrimStart(s);
    TrimStartDropsLeadingWhitespace(s);
    assert s == s[..|s| - |u|] + u;
    WordsSkipWhitespace(s[..|s| - |u|], u);
  }

  lemma WordsOfTrimEnd(u: string)
    ensures Words(TrimEnd(u)) == Words(u)
  {
    var v := TrimEnd(u);
    TrimEndDropsTrailingWhitespace(u);
    assert u == v + u[|v|..];
    WordsDropTrailingWhitespace(v, u[|v|..]);
  }

  /** `" "` when `c` holds, the empty string otherwise. */
  function SpaceIf(c: bool): string {
    if c then " " else ""
  }

  /** A leading run of non-whitespace characters is copied unchanged. */
  lemma {:induction false} CollapseRunsCopiesWord(s: string, inRun: bool, k: nat)
    requires k <= |s| && forall i :: 0 <= i < k ==> !IsWhitespace(s[i])
    ensures CollapseRuns(s, inRun) == s[..k] + CollapseRuns(s[k..], k == 0 && inRun)
    decreases k
  {
    if k == 0 {
      assert s[..0] + s[0..] == s;
    } else {
      assert forall i :: 0 <= i < k - 1 ==> s[1..][i] == s[i + 1];
      CollapseRunsCopiesWord(s[1..], false, k - 1);
      assert s[1..][k - 1..] == s[k..];
      assert [s[0]] + s[1..][..k - 1] == s[..k];
      assert CollapseRuns(s, inRun) == [s[0]] + CollapseRuns(s[1..], false);
      AppendAssoc([s[0]], s[1..][..k - 1], CollapseRuns(s[k..], false));
    }
  }

  /** The space a leading whitespace run leaves, unless it continues a collapsed run. */
  function Lead(s: string, inRun: bool): string {
    SpaceIf(s != [] && IsWhitespace(s[0]) && !inRun)
  }

  /** The space a trailing whitespace run leaves after the last word. */
  function Trail(s: string): string {
    SpaceIf(s != [] && IsWhitespace(s[|s| - 1]) && Words(s) != [])
  }

  /**
   * `replace(/\s+/g, ' ')` keeps the words in order and puts one space
   * wherever a whitespace run stood: between words, and at either edge when
   * the text starts or ends with whitespace (a leading run that continues
   * an already collapsed run adds nothing).
   */
  lemma {:induction false} CollapseRunsJoinsWords(s: string, inRun: bool)
    ensures CollapseRuns(s, inRun) == Lead(s, inRun) + Join(Words(s), ' ') + Trail(s)
    decreases |s|
  {
    if s == [] {
    } else if IsWhitespace(s[0]) {
      CollapseRunsJoinsWords(s[1..], true);
      CollapseRunsAtWhitespace(s, inRun);
      JoinedWordsAtWhitespace(s, inRun);
    } else {
      var k := WordLen(s);
      CollapseRunsCopiesWord(s, inRun, k);
      if k == |s| {
        JoinedWordsOfOneWord(s, inRun);
      } else {
        CollapseRunsJoinsWords(s[k..], false);
        JoinedWordsAtWord(s, inRun);
      }
    }
  }

  lemma CollapseRunsAtWhitespace(s: string, inRun: bool)
    requires s != [] && IsWhitespace(s[0])
    ensures CollapseRuns(s, inRun) == SpaceIf(!inRun) + CollapseRuns(s[1..], true)
  {
  }

  /** A leading whitespace character becomes the leading space, or nothing inside a run. */
  lemma JoinedWordsAtWhitespace(s: string, inRun: bool)
    requires s != [] && IsWhitespace(s[0])
    ensures SpaceIf(!inRun) + (Lead(s[1..], true) + Join(Words(s[1..]), ' ') + Trail(s[1..]))
         == Lead(s, inRun) + Join(Words(s), ' ') + Trail(s)
  {
    var rest := s[1..];
    TrailSkipsWhitespace(s);
    assert Lead(rest, true) == "";
    assert Lead(s, inRun) == SpaceIf(!inRun);
    AppendEmpty(Join(Words(s), ' '));
    AppendAssoc(SpaceIf(!inRun), Join(Words(s), ' '), Trail(s));
  }

  /** Dropping a leading whitespace character keeps the words and the trailing space. */
  lemma TrailSkipsWhitespace(s: string)
    requires s != [] && IsWhitespace(s[0])
    ensures Words(s) == Words(s[1..]) && Trail(s) == Trail(s[1..])
  {
    var rest := s[1..];
    if rest != [] {
      assert rest[|rest| - 1] == s[|s| - 1];
    }
  }

  /** The words, and the leading space, of a text that starts with a word. */
  lemma WordsAtWord(s: string, inRun: bool)
    requires s != [] && !IsWhitespace(s[0])
    ensures Words(s) == [s[..WordLen(s)]] + Words(s[WordLen(s)..])
    ensures Lead(s, inRun) == ""
  {
  }

  /** A text that is a single word is its own joined words. */
  lemma JoinedWordsOfOneWord(s: string, inRun: bool)
    requires s != [] && !IsWhitespace(s[0]) && WordLen(s) == |s|
    ensures s[..WordLen(s)] + CollapseRuns(s[WordLen(s)..], false)
         == Lead(s, inRun) + Join(Words(s), ' ') + Trail(s)
  {
    WordsAtWord(s, inRun);
    assert s[..|s|] == s && s[|s|..] == [];
    assert Words(s) == [s] + Words([]);
    assert Trail(s) == "";
    AppendEmpty(s);
  }

  /** A word followed by whitespace: the whitespace becomes the space after the word. */
  lemma JoinedWordsAtWord(s: string, inRun: bool)
    requires s != [] && !IsWhitespace(s[0]) && WordLen(s) < |s|
    ensures var t := s[WordLen(s)..];
      s[..WordLen(s)] + (Lead(t, false) + Join(Words(t), ' ') + Trail(t))
      == Lead(s, inRun) + Join(Words(s), ' ') + Trail(s)
  {
    var k := WordLen(s);
    var t := s[k..];
    WordsAtWord(s, inRun);
    WordThenSpace(s, k, t);
    AppendEmpty(Join(Words(s), ' '));
  }

  /** A word followed by whitespace: the whitespace becomes the space after the word. */
  lemma WordThenSpace(s: string, k: nat, t: string)
    requires s != [] && !IsWhitespace(s[0]) && k == WordLen(s) && t == s[k..] && t != []
    ensures s[..k] + (Lead(t, false) + Join(Words(t), ' ') + Trail(t))
         == Join([s[..k]] + Words(t), ' ') + Trail(s)
  {
    var w := Words(t);
    JoinCons(s[..k], w, ' ');
    assert t[0] == s[k] && t[|t| - 1] == s[|s| - 1];
    assert Lead(t, false) == " ";
    if w == [] {
      NoWordsIffAllWhitespace(t);
      assert Trail(s) == " " && Trail(t) == "";
      AppendEmpty(" ");
    } else {
      assert Trail(s) == Trail(t);
      AppendAssoc(s[..k], " " + Join(w, ' '), Trail(t));
      AppendAssoc(s[..k], " ", Join(w, ' '));
    }
  }

  /**
   * normalizeSuburb keeps the name's words, in order, and returns them
   * upper-cased with one space between consecutive words and none around.
   */
  lemma NormalizeSuburbJoinsWords(name: string)
    ensures NormalizeSuburb(name) == UpperStr(Join(Words(name), ' '))
  {
    var t := Trim(name);
    WordsOfTrim(name);
    CollapseRunsJoinsWords(t, false);
    if t != [] {
      assert !IsWhitespace(t[|t| - 1]);
    }
  }

  /** `toUpperCase` keeps whitespace where it is, so collapsing commutes with it. */
  lemma {:induction false} CollapseRunsUpper(s: string, inRun: bool)
    ensures CollapseRuns(UpperStr(s), inRun) == UpperStr(CollapseRuns(s, inRun))
    decreases |s|
  {
    if s != [] {
      var u := UpperStr(s);
      assert u[1..] == UpperStr(s[1..]);
      CollapseRunsUpper(s[1..], IsWhitespace(s[0]));
      var r := CollapseRuns(s[1..], IsWhitespace(s[0]));
      assert UpperStr([s[0]] + r) == [u[0]] + UpperStr(r);
      assert UpperStr([' '] + r) == [' '] + UpperStr(r);
    }
  }

  /** The normal form does not depend on the case of the name. */
  lemma NormalizeSuburbIgnoresCase(name: string)
    ensures NormalizeSuburb(UpperStr(name)) == NormalizeSuburb(name)
  {
    var c := CollapseWhitespace(Trim(name));
    TrimUpper(name);
    CollapseRunsUpper(Trim(name), false);
    UpperStrFixesUppercase(UpperStr(c));
  }

  /** Whitespace around a text adds no word. */
  lemma WordsIgnoreEdgeWhitespace(w: string, name: string, w2: string)
    requires forall i :: 0 <= i < |w| ==> IsWhitespace(w[i])
    requires forall i :: 0 <= i < |w2| ==> IsWhitespace(w2[i])
    ensures Words(w + name + w2) == Words(name)
  {
    assert w + name + w2 == w + (name + w2);
    WordsSkipWhitespace(w, name + w2);
    WordsDropTrailingWhitespace(name, w2);
  }

  /** Whitespace around a name does not change its normal form. */
  lemma NormalizeSuburbIgnoresEdgeWhitespace(w: string, name: string, w2: string)
    requires forall i :: 0 <= i < |w| ==> IsWhitespace(w[i])
    requires forall i :: 0 <= i < |w2| ==> IsWhitespace(w2[i])
    ensures NormalizeSuburb(w + name + w2) == NormalizeSuburb(name)
  {
    NormalizeSuburbJoinsWords(w + name + w2);
    NormalizeSuburbJoinsWords(name);
    WordsIgnoreEdgeWhitespace(w, name, w2);
  }

  /** Any run of whitespace between two parts counts as a single space. */
  lemma NormalizeSuburbCollapsesInnerRun(a: string, w: string, b: string)
    requires w != [] && forall i :: 0 <= i < |w| ==> IsWhitespace(w[i])
    ensures NormalizeSuburb(a + w + b) == NormalizeSuburb(a + " " + b)
  {
    NormalizeSuburbJoinsWords(a + w + b);
    NormalizeSuburbJoinsWords(a + " " + b);
    WordsSeparated(a, w, b);
    WordsSeparated(a, " ", b);
  }
}
