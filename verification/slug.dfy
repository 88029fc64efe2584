/**
 * Tournament slugs: lower-case the name, turn every run of characters other
 * than a-z and 0-9 into one '-', and drop a '-' left at either end.
 */
module Slug {
  import opened Text
  import Seqs

  predicate IsSlugChar(c: char) {
    'a' <= c <= 'z' || '0' <= c <= '9'
  }

  predicate IsHyphen(c: char) {
    c == '-'
  }

  /** Only slug characters and single hyphens, with no hyphen at either end. */
  predicate IsSlug(s: string) {
    && (forall i | 0 <= i < |s| :: IsSlugChar(s[i]) || s[i] == '-')
    && (forall i | 0 <= i < |s| - 1 :: !(s[i] == '-' && s[i + 1] == '-'))
    && (s != [] ==> s[0] != '-' && s[|s| - 1] != '-')
  }

  /**
   * The number of maximal runs of non-slug characters in `s`, counting a run
   * where a non-slug character does not follow another one.
   */
  function RunStarts(s: string, afterSeparator: bool): nat
  {
    if s == [] then 0
    else (if !IsSlugChar(s[0]) && !afterSeparator then 1 else 0) + RunStarts(s[1..], !IsSlugChar(s[0]))
  }

  function SeparatorRuns(s: string): nat {
    RunStarts(s, false)
  }

  /** Drops the leading run of non-slug characters. */
  function SkipSeparators(s: string): (r: string)
    ensures |r| <= |s| && r == s[|s| - |r|..]
    ensures r == [] || IsSlugChar(r[0])
    ensures forall i | 0 <= i < |s| - |r| :: !IsSlugChar(s[i])
  {
    if s == [] || IsSlugChar(s[0]) then s else SkipSeparators(s[1..])
  }

  /** Skipping separators keeps every slug character. */
  lemma {:induction false} SkipKeepsSlugChars(s: string)
    ensures Seqs.Filter(SkipSeparators(s), IsSlugChar) == Seqs.Filter(s, IsSlugChar)
  {
    if s != [] && !IsSlugChar(s[0]) {
      SkipKeepsSlugChars(s[1..]);
    }
  }

  /** After a separator, the run being skipped is not counted again. */
  lemma {:induction false} SkipSeparatorRuns(s: string)
    ensures RunStarts(s, true) == SeparatorRuns(SkipSeparators(s))
  {
    if s != [] && !IsSlugChar(s[0]) {
      SkipSeparatorRuns(s[1..]);
    }
  }

  /** `replace(/[^a-z0-9]+/g, "-")`: each maximal run of non-slug characters becomes one '-'. */
  function CollapseSeparators(s: string): (r: string)
    decreases |s|
  {
    if s == [] then []
    else if IsSlugChar(s[0]) then [s[0]] + CollapseSeparators(s[1..])
    else ['-'] + CollapseSeparators(SkipSeparators(s[1..]))
  }

  /** Collapsing keeps every slug character, in order, and adds none. */
  lemma {:induction false} CollapseKeepsSlugChars(s: string)
    ensures Seqs.Filter(CollapseSeparators(s), IsSlugChar) == Seqs.Filter(s, IsSlugChar)
    decreases |s|
  {
    if s != [] {
      assert s == [s[0]] + s[1..];
      Seqs.FilterConcat([s[0]], s[1..], IsSlugChar);
      if IsSlugChar(s[0]) {
        CollapseKeepsSlugChars(s[1..]);
        Seqs.FilterConcat([s[0]], CollapseSeparators(s[1..]), IsSlugChar);
      } else {
        var u := SkipSeparators(s[1..]);
        CollapseKeepsSlugChars(u);
        SkipKeepsSlugChars(s[1..]);
        Seqs.FilterConcat(['-'], CollapseSeparators(u), IsSlugChar);
      }
    }
  }

  /** Collapsing writes exactly one '-' per maximal run of non-slug characters. */
  lemma {:induction false} CollapseCountsRuns(s: string)
    ensures |Seqs.Filter(CollapseSeparators(s), IsHyphen)| == SeparatorRuns(s)
    decreases |s|
  {
    if s != [] {
      if IsSlugChar(s[0]) {
        CollapseCountsRuns(s[1..]);
        Seqs.FilterConcat([s[0]], CollapseSeparators(s[1..]), IsHyphen);
      } else {
        var u := SkipSeparators(s[1..]);
        CollapseCountsRuns(u);
        SkipSeparatorRuns(s[1..]);
        Seqs.FilterConcat(['-'], CollapseSeparators(u), IsHyphen);
      }
    }
  }

  /** `replace(/(^-|-$)/g, "")`: one leading and one trailing '-' removed. */
  function StripEdgeHyphens(s: string): (r: string)
    ensures var k := if s != [] && s[0] == '-' then 1 else 0;
      && k + |r| <= |s| && r == s[k..k + |r|]
      && (k + |r| < |s| ==> k + |r| == |s| - 1 && s[|s| - 1] == '-')
    ensures s != [] && s[0] != '-' && s[|s| - 1] != '-' ==> r == s
  {
    var a := if |s| > 0 && s[0] == '-' then s[1..] else s;
    var r := if |a| > 0 && a[|a| - 1] == '-' then a[..|a| - 1] else a;
    var k := if s != [] && s[0] == '-' then 1 else 0;
    assert r == s[k..k + |r|];
    r
  }

  /** A non-empty run of slug characters. */
  predicate IsWord(w: string) {
    w != [] && forall i | 0 <= i < |w| :: IsSlugChar(w[i])
  }

  /** The longest prefix of slug characters. */
  function WordAt(s: string): (w: string)
    ensures |w| <= |s| && w == s[..|w|]
    ensures forall i | 0 <= i < |w| :: IsSlugChar(w[i])
    ensures |w| < |s| ==> !IsSlugChar(s[|w|])
    ensures s != [] && IsSlugChar(s[0]) ==> w != []
  {
    if s == [] || !IsSlugChar(s[0]) then [] else [s[0]] + WordAt(s[1..])
  }

  /** The maximal runs of slug characters of `s`, in order. */
  function Words(s: string): (ws: seq<string>)
    ensures forall k | 0 <= k < |ws| :: IsWord(ws[k])
    decreases |s|
  {
    if s == [] then []
    else if !IsSlugChar(s[0]) then Words(s[1..])
    else
      var w := WordAt(s);
      [w] + Words(s[|w|..])
  }

  /** Words separated by single hyphens. */
  function Join(ws: seq<string>): string
  {
    if ws == [] then []
    else if |ws| == 1 then ws[0]
    else ws[0] + "-" + Join(ws[1..])
  }

  /** "-" when `s` ends in a character that is not a slug character. */
  function Trail(s: string): string {
    if s != [] && !IsSlugChar(s[|s| - 1]) then "-" else ""
  }

  /** Leading separators hold no word. */
  lemma {:induction false} WordsSkip(s: string)
    ensures Words(SkipSeparators(s)) == Words(s)
  {
    if s != [] && !IsSlugChar(s[0]) {
      WordsSkip(s[1..]);
    }
  }

  /** Collapsing copies a leading run of slug characters and carries on after it. */
  lemma {:induction false} CollapseWord(w: string, rest: string)
    requires forall i | 0 <= i < |w| :: IsSlugChar(w[i])
    ensures CollapseSeparators(w + rest) == w + CollapseSeparators(rest)
  {
    if w == [] {
      assert w + rest == rest;
    } else {
      CollapseWord(w[1..], rest);
      assert (w + rest)[0] == w[0];
      assert (w + rest)[1..] == w[1..] + rest;
      var x := CollapseSeparators(rest);
      assert [w[0]] + (w[1..] + x) == w + x;
    }
  }

  /** A join of words starts and ends with a slug character. */
  lemma {:induction false} JoinEnds(ws: seq<string>)
    requires ws != [] && forall k | 0 <= k < |ws| :: IsWord(ws[k])
    ensures Join(ws) != [] && IsSlugChar(Join(ws)[0]) && IsSlugChar(Join(ws)[|Join(ws)| - 1])
  {
    assert IsWord(ws[0]);
    if |ws| > 1 {
      JoinEnds(ws[1..]);
      var j := Join(ws[1..]);
      assert Join(ws) == ws[0] + "-" + j;
      assert Join(ws)[|Join(ws)| - 1] == j[|j| - 1];
    }
  }

  /** Words joined by single hyphens form a slug. */
  lemma {:induction false} JoinIsSlug(ws: seq<string>)
    requires forall k | 0 <= k < |ws| :: IsWord(ws[k])
    ensures IsSlug(Join(ws))
  {
    if |ws| == 1 {
      assert IsWord(ws[0]);
    } else if |ws| > 1 {
      var w := ws[0];
      var j := Join(ws[1..]);
      assert IsWord(w);
      JoinIsSlug(ws[1..]);
      JoinEnds(ws[1..]);
      var r := w + "-" + j;
      assert Join(ws) == r;
      forall i | 0 <= i < |r| ensures IsSlugChar(r[i]) || r[i] == '-' {
        if i < |w| {
          assert r[i] == w[i];
        } else if i > |w| {
          assert r[i] == j[i - |w| - 1];
        }
      }
      forall i | 0 <= i < |r| - 1 ensures !(r[i] == '-' && r[i + 1] == '-') {
        if i < |w| {
          assert r[i] == w[i];
        } else {
          assert r[i + 1] == j[i - |w|];
        }
      }
      assert r[0] == w[0];
      assert r[|r| - 1] == j[|j| - 1];
    }
  }

  /** Each hyphen of a join separates two consecutive words. */
  lemma {:induction false} JoinHyphens(ws: seq<string>)
    requires ws != [] && forall k | 0 <= k < |ws| :: IsWord(ws[k])
    ensures |Seqs.Filter(Join(ws), IsHyphen)| == |ws| - 1
  {
    assert IsWord(ws[0]);
    Seqs.FilterNone(ws[0], IsHyphen);
    if |ws| > 1 {
      JoinHyphens(ws[1..]);
      Seqs.FilterConcat(ws[0] + "-", Join(ws[1..]), IsHyphen);
      Seqs.FilterConcat(ws[0], "-", IsHyphen);
      assert Seqs.Filter("-", IsHyphen) == "-";
    }
  }

  lemma Regroup(a: string, b: string, c: string, d: string)
    ensures a + (b + (c + d)) == (a + b + c) + d
  {
  }

  /** A string that ends in its leading word collapses to that word. */
  lemma CollapseLastWord(t: string, w: string)
    requires t == w && IsWord(w)
    requires CollapseSeparators(t) == w + CollapseSeparators([])
    requires Words(t) == [w]
    ensures CollapseSeparators(t) == Join(Words(t)) + Trail(t)
  {
    assert t[|t| - 1] == w[|w| - 1];
    assert Trail(t) == "";
    assert w + [] == w;
  }

  /** A word followed only by separators collapses to the word and one '-'. */
  lemma CollapseWordThenSeparators(t: string, w: string, rest: string)
    requires t == w + rest && IsWord(w) && rest != []
    requires forall i | 0 <= i < |rest| :: !IsSlugChar(rest[i])
    requires CollapseSeparators(t) == w + ("-" + [])
    requires Words(t) == [w]
    ensures CollapseSeparators(t) == Join(Words(t)) + Trail(t)
  {
    assert t[|t| - 1] == rest[|rest| - 1];
    assert Trail(t) == "-";
    assert Join(Words(t)) == w;
    assert "-" + [] == "-";
  }

  /** A word, a run of separators and more words: one '-' between the word and the rest. */
  lemma CollapseWordThenMore(t: string, w: string, u: string)
    requires IsWord(w) && u != [] && |u| < |t| && u == t[|t| - |u|..]
    requires CollapseSeparators(t) == w + ("-" + CollapseSeparators(u))
    requires CollapseSeparators(u) == Join(Words(u)) + Trail(u)
    requires Words(u) != [] && Words(t) == [w] + Words(u)
    ensures CollapseSeparators(t) == Join(Words(t)) + Trail(t)
  {
    assert Join(Words(t)) == w + "-" + Join(Words(u));
    assert u[|u| - 1] == t[|t| - 1];
    assert Trail(u) == Trail(t);
    Regroup(w, "-", Join(Words(u)), Trail(u));
  }

  /**
   * Collapsing a string that does not start with a separator gives its words
   * joined by hyphens, plus one '-' for a trailing run of separators.
   */
  lemma {:induction false} CollapseAsWords(t: string)
    requires t == [] || IsSlugChar(t[0])
    ensures CollapseSeparators(t) == Join(Words(t)) + Trail(t)
    decreases |t|, 1
  {
    if t != [] {
      var w := WordAt(t);
      var rest := t[|w|..];
      assert t == w + rest;
      CollapseWord(w, rest);
      assert Words(t) == [w] + Words(rest);
      if rest == [] {
        assert t == w;
        CollapseLastWord(t, w);
      } else {
        CollapseAfterWord(t, w, rest);
      }
    }
  }

  /** The case of `CollapseAsWords` where separators follow the leading word. */
  lemma {:induction false} CollapseAfterWord(t: string, w: string, rest: string)
    requires IsWord(w) && t == w + rest && rest != [] && !IsSlugChar(rest[0])
    requires CollapseSeparators(t) == w + CollapseSeparators(rest)
    requires Words(t) == [w] + Words(rest)
    ensures CollapseSeparators(t) == Join(Words(t)) + Trail(t)
    decreases |t|, 0
  {
    var u := SkipSeparators(rest[1..]);
    assert CollapseSeparators(rest) == "-" + CollapseSeparators(u);
    WordsSkip(rest[1..]);
    assert Words(rest) == Words(u);
    CollapseAsWords(u);
    if u == [] {
      assert forall i | 0 <= i < |rest| :: !IsSlugChar(rest[i]) by {
        forall i | 1 <= i < |rest| ensures !IsSlugChar(rest[i]) {
          assert rest[i] == rest[1..][i - 1];
        }
      }
      CollapseWordThenSeparators(t, w, rest);
    } else {
      assert u == t[|t| - |u|..];
      CollapseWordThenMore(t, w, u);
    }
  }

  /** Stripping takes off only hyphens added around a string that starts and ends with slug characters. */
  lemma StripAroundWords(j: string, tr: string)
    requires j != [] && IsSlugChar(j[0]) && IsSlugChar(j[|j| - 1])
    requires tr == "" || tr == "-"
    ensures StripEdgeHyphens(j + tr) == j
    ensures StripEdgeHyphens("-" + (j + tr)) == j
  {
    var a := j + tr;
    assert a[0] == j[0];
    assert ("-" + a)[1..] == a;
    if tr == "-" {
      assert a[..|a| - 1] == j;
    } else {
      assert a == j;
    }
  }

  /** Stripping a collapsed string leaves exactly its words joined by hyphens. */
  lemma StripCollapsedIsJoin(s: string)
    ensures StripEdgeHyphens(CollapseSeparators(s)) == Join(Words(s))
  {
    if s != [] {
      if IsSlugChar(s[0]) {
        CollapseAsWords(s);
        assert Words(s) != [];
        JoinEnds(Words(s));
        StripAroundWords(Join(Words(s)), Trail(s));
      } else {
        var u := SkipSeparators(s[1..]);
        assert CollapseSeparators(s) == "-" + CollapseSeparators(u);
        WordsSkip(s[1..]);
        assert Words(s) == Words(u);
        CollapseAsWords(u);
        if u == [] {
          assert CollapseSeparators(s) == "-";
        } else {
          assert Words(u) != [];
          JoinEnds(Words(u));
          StripAroundWords(Join(Words(u)), Trail(u));
        }
      }
    }
  }

  /** The slug of a tournament name: the words of the lower-cased name, joined by hyphens. */
  function Slugify(name: string): (slug: string)
    ensures slug == Join(Words(Lower(name)))
    ensures IsSlug(slug)
  {
    StripCollapsedIsJoin(Lower(name));
    JoinIsSlug(Words(Lower(name)));
    StripEdgeHyphens(CollapseSeparators(Lower(name)))
  }

  /** Stripping the edge hyphens removes no slug character. */
  lemma StripKeepsSlugChars(c: string)
    ensures Seqs.Filter(StripEdgeHyphens(c), IsSlugChar) == Seqs.Filter(c, IsSlugChar)
  {
    var a := if |c| > 0 && c[0] == '-' then c[1..] else c;
    if |c| > 0 && c[0] == '-' {
      assert c == "-" + a;
      Seqs.FilterConcat("-", a, IsSlugChar);
    }
    if |a| > 0 && a[|a| - 1] == '-' {
      assert a == a[..|a| - 1] + "-";
      Seqs.FilterConcat(a[..|a| - 1], "-", IsSlugChar);
    }
  }

  /** The slug keeps every letter and digit of the lower-cased name, in order, and nothing else of it. */
  lemma SlugifyKeepsLettersAndDigits(name: string)
    ensures Seqs.Filter(Slugify(name), IsSlugChar) == Seqs.Filter(Lower(name), IsSlugChar)
  {
    StripKeepsSlugChars(CollapseSeparators(Lower(name)));
    CollapseKeepsSlugChars(Lower(name));
  }

  /** The slug is empty exactly when the name has no word, and otherwise has one hyphen between each two words. */
  lemma SlugHyphensSeparateWords(name: string)
    ensures Slugify(name) == [] <==> Words(Lower(name)) == []
    ensures Words(Lower(name)) != [] ==> |Seqs.Filter(Slugify(name), IsHyphen)| == |Words(Lower(name))| - 1
  {
    var ws := Words(Lower(name));
    if ws != [] {
      JoinEnds(ws);
      JoinHyphens(ws);
    }
  }

  /** Collapsing leaves a string alone when it already has only slug characters and single hyphens. */
  lemma {:induction false} CollapseKeepsClean(s: string)
    requires forall i | 0 <= i < |s| :: IsSlugChar(s[i]) || s[i] == '-'
    requires forall i | 0 <= i < |s| - 1 :: !(s[i] == '-' && s[i + 1] == '-')
    ensures CollapseSeparators(s) == s
    decreases |s|
  {
    if s != [] {
      var t := s[1..];
      assert forall i | 0 <= i < |t| :: t[i] == s[i + 1];
      if IsSlugChar(s[0]) {
        CollapseKeepsClean(t);
      } else {
        assert t == [] || IsSlugChar(t[0]);
        assert SkipSeparators(t) == t;
        CollapseKeepsClean(t);
      }
    }
  }

  /** Lower-casing leaves slug characters and hyphens alone. */
  lemma LowerKeepsSlugChars(s: string)
    requires forall i | 0 <= i < |s| :: IsSlugChar(s[i]) || s[i] == '-'
    ensures Lower(s) == s
  {
  }

  /** A slug is its own slug. */
  lemma SlugifyFixesSlugs(s: string)
    requires IsSlug(s)
    ensures Slugify(s) == s
  {
    LowerKeepsSlugChars(s);
    CollapseKeepsClean(s);
  }

  /** Generating a slug from a generated slug changes nothing. */
  lemma SlugifyIdempotent(name: string)
    ensures Slugify(Slugify(name)) == Slugify(name)
  {
    SlugifyFixesSlugs(Slugify(name));
  }

  /** A name that is already lower-case letters and digits is its own slug. */
  lemma AlphanumericNameIsItsSlug(name: string)
    requires forall i | 0 <= i < |name| :: IsSlugChar(name[i])
    ensures Slugify(name) == name
  {
    SlugifyFixesSlugs(name);
  }

  /** The form's slug after the name changes: recomputed for a non-empty name, kept otherwise. */
  function SlugAfterNameChange(name: string, slug: string): (r: string)
    ensures name != "" ==> r == Slugify(name) && IsSlug(r)
    ensures name == "" ==> r == slug
  {
    if name != "" then Slugify(name) else slug
  }
}
