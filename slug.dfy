/**
 * The slug pipeline of the Event pre-save hook:
 *   title.toLowerCase().trim()
 *        .replace(/[^\w\s-]/g, "")   -- StripSpecial
 *        .replace(/\s+/g, "-")       -- DashSpaces
 *        .replace(/-+/g, "-")        -- CollapseDashes
 */
module Slug {
  import opened AsciiText

  /** The characters `[\w\s-]` that the first replacement keeps. */
  predicate Kept(c: char) { IsWord(c) || IsSpace(c) || c == '-' }

  /** A character that may appear in a slug: lower-case letter, digit, `_` or `-`. */
  predicate SlugChar(c: char) { IsLowerLetter(c) || IsDigit(c) || c == '_' || c == '-' }

  predicate NoSpace(s: string) { forall i :: 0 <= i < |s| ==> !IsSpace(s[i]) }

  /** No two consecutive hyphens. */
  predicate NoDoubleDash(s: string) { forall i :: 0 <= i < |s| - 1 ==> !(s[i] == '-' && s[i + 1] == '-') }

  /** The shape of every derived slug. */
  predicate IsSlug(s: string) { (forall i :: 0 <= i < |s| ==> SlugChar(s[i])) && NoDoubleDash(s) }

  /** `.replace(/[^\w\s-]/g, "")`: delete every character outside `[\w\s-]`. */
  function StripSpecial(s: string): string
  {
    if s == [] then [] else (if Kept(s[0]) then [s[0]] else []) + StripSpecial(s[1..])
  }

  /**
   * `.replace(/\s+/g, "-")`: each maximal run of whitespace becomes one hyphen.
   * A whitespace character emits the hyphen only when it ends its run.
   */
  function DashSpaces(s: string): string
  {
    if s == [] then []
    else
      var head := if !IsSpace(s[0]) then [s[0]] else if |s| > 1 && IsSpace(s[1]) then [] else ['-'];
      head + DashSpaces(s[1..])
  }

  /**
   * `.replace(/-+/g, "-")`: each maximal run of hyphens becomes one hyphen.
   * A hyphen is kept only when it ends its run.
   */
  function CollapseDashes(s: string): string
  {
    if s == [] then []
    else (if s[0] == '-' && |s| > 1 && s[1] == '-' then [] else [s[0]]) + CollapseDashes(s[1..])
  }

  /** Stripping only deletes: what is left comes from `s` and lies in `[\w\s-]`. */
  lemma {:induction false} StripSpecialKeeps(s: string)
    ensures forall c :: c in StripSpecial(s) ==> c in s && Kept(c)
    decreases |s|
  {
    if s != [] {
      StripSpecialKeeps(s[1..]);
    }
  }

  /**
   * Stripping deletes exactly the characters outside `[\w\s-]`: each kept
   * character occurs as often as in `s`, every other not at all.
   */
  lemma {:induction false} StripSpecialCounts(s: string)
    ensures forall c :: multiset(StripSpecial(s))[c] == if Kept(c) then multiset(s)[c] else 0
    decreases |s|
  {
    if s != [] {
      StripSpecialCounts(s[1..]);
      assert s == [s[0]] + s[1..];
      assert multiset(s) == multiset{s[0]} + multiset(s[1..]);
    }
  }

  /** A string already inside `[\w\s-]` is not changed by stripping. */
  lemma {:induction false} StripSpecialFixed(s: string)
    requires forall i :: 0 <= i < |s| ==> Kept(s[i])
    ensures StripSpecial(s) == s
    decreases |s|
  {
    if s != [] {
      StripSpecialFixed(s[1..]);
    }
  }

  /** Whitespace is replaced by hyphens; every other character comes from `s`. */
  lemma {:induction false} DashSpacesChars(s: string)
    ensures forall c :: c in DashSpaces(s) ==> c == '-' || (c in s && !IsSpace(c))
    decreases |s|
  {
    if s != [] {
      DashSpacesChars(s[1..]);
    }
  }

  /**
   * Only whitespace is replaced: every character other than whitespace and `-`
   * occurs exactly as often as in `s`, and the result is empty only when `s` is.
   */
  lemma {:induction false} DashSpacesCounts(s: string)
    ensures forall c :: !IsSpace(c) && c != '-' ==> multiset(DashSpaces(s))[c] == multiset(s)[c]
    ensures DashSpaces(s) == [] <==> s == []
    decreases |s|
  {
    if s != [] {
      DashSpacesCounts(s[1..]);
      assert s == [s[0]] + s[1..];
      assert multiset(s) == multiset{s[0]} + multiset(s[1..]);
    }
  }

  /** A string without whitespace is not changed by the second replacement. */
  lemma {:induction false} DashSpacesFixed(s: string)
    requires NoSpace(s)
    ensures DashSpaces(s) == s
    decreases |s|
  {
    if s != [] {
      DashSpacesFixed(s[1..]);
    }
  }

  /** Replacing whitespace runs splits at any boundary not followed by whitespace. */
  lemma {:induction false} DashSpacesSplit(x: string, y: string)
    requires y != [] ==> !IsSpace(y[0])
    ensures DashSpaces(x + y) == DashSpaces(x) + DashSpaces(y)
    decreases |x|
  {
    if x == [] {
      assert x + y == y;
    } else {
      assert (x + y)[1..] == x[1..] + y;
      DashSpacesSplit(x[1..], y);
    }
  }

  /** Collapsing only deletes. */
  lemma {:induction false} CollapseDashesChars(s: string)
    ensures forall c :: c in CollapseDashes(s) ==> c in s
    decreases |s|
  {
    if s != [] {
      CollapseDashesChars(s[1..]);
    }
  }

  /** Collapsing keeps the first character. */
  lemma {:induction false} CollapseDashesHead(s: string)
    requires s != []
    ensures CollapseDashes(s) != [] && CollapseDashes(s)[0] == s[0]
    decreases |s|
  {
    if s[0] == '-' && |s| > 1 && s[1] == '-' {
      CollapseDashesHead(s[1..]);
    }
  }

  /** After collapsing there are no two consecutive hyphens. */
  lemma {:induction false} CollapseDashesSingle(s: string)
    ensures NoDoubleDash(CollapseDashes(s))
    decreases |s|
  {
    if s != [] {
      CollapseDashesSingle(s[1..]);
      if |s| > 1 {
        CollapseDashesHead(s[1..]);
      }
    }
  }

  /**
   * Only hyphens are removed by collapsing: every other character occurs exactly
   * as often as in `s`, and the result is empty only when `s` is.
   */
  lemma {:induction false} CollapseDashesCounts(s: string)
    ensures forall c :: c != '-' ==> multiset(CollapseDashes(s))[c] == multiset(s)[c]
    ensures CollapseDashes(s) == [] <==> s == []
    decreases |s|
  {
    if s != [] {
      CollapseDashesCounts(s[1..]);
      assert s == [s[0]] + s[1..];
      assert multiset(s) == multiset{s[0]} + multiset(s[1..]);
    }
  }

  /** A string without `--` is not changed by collapsing. */
  lemma {:induction false} CollapseDashesFixed(s: string)
    requires NoDoubleDash(s)
    ensures CollapseDashes(s) == s
    decreases |s|
  {
    if s != [] {
      CollapseDashesFixed(s[1..]);
    }
  }

  /** Whitespace or a hyphen: the characters the last two replacements merge into one hyphen. */
  predicate Sep(c: char) { IsSpace(c) || c == '-' }

  /** `s` without its leading run of whitespace and hyphens. */
  function DropSeps(s: string): (r: string)
    ensures |r| <= |s|
  {
    if s != [] && Sep(s[0]) then DropSeps(s[1..]) else s
  }

  /**
   * The last two replacements in one pass: each maximal run of whitespace and
   * hyphens, however mixed, becomes a single hyphen, and every other character is
   * kept in place.
   */
  function Squash(s: string): string
    decreases |s|
  {
    if s == [] then []
    else if Sep(s[0]) then "-" + Squash(DropSeps(s[1..]))
    else [s[0]] + Squash(s[1..])
  }

  /** `DropSeps` removes a prefix of separators and stops at the first other character. */
  lemma {:induction false} DropSepsSplit(s: string) returns (n: nat)
    ensures n <= |s| && s[n..] == DropSeps(s)
    ensures forall i :: 0 <= i < n ==> Sep(s[i])
    ensures n < |s| ==> !Sep(s[n])
    decreases |s|
  {
    if s != [] && Sep(s[0]) {
      var m := DropSepsSplit(s[1..]);
      n := m + 1;
      assert s[n..] == s[1..][m..];
      forall i | 1 <= i < n ensures Sep(s[i]) {
        assert s[i] == s[1..][i - 1];
      }
    } else {
      n := 0;
    }
  }

  /** A non-empty run of separators becomes a non-empty run of hyphens. */
  lemma {:induction false} DashSpacesRun(p: string)
    requires p != [] && forall i :: 0 <= i < |p| ==> Sep(p[i])
    ensures DashSpaces(p) != [] && forall i :: 0 <= i < |DashSpaces(p)| ==> DashSpaces(p)[i] == '-'
    decreases |p|
  {
    if |p| > 1 {
      DashSpacesRun(p[1..]);
    }
  }

  /** A non-empty run of hyphens not followed by a hyphen collapses to one. */
  lemma {:induction false} CollapseRun(h: string, y: string)
    requires h != [] && forall i :: 0 <= i < |h| ==> h[i] == '-'
    requires y != [] ==> y[0] != '-'
    ensures CollapseDashes(h + y) == "-" + CollapseDashes(y)
    decreases |h|
  {
    if |h| == 1 {
      assert (h + y)[1..] == y;
    } else {
      assert (h + y)[1..] == h[1..] + y;
      CollapseRun(h[1..], y);
    }
  }

  /** A prefix without whitespace or hyphens passes through unchanged. */
  lemma {:induction false} SquashPlain(a: string, y: string)
    requires forall i :: 0 <= i < |a| ==> !Sep(a[i])
    ensures Squash(a + y) == a + Squash(y)
    decreases |a|
  {
    if a == [] {
      assert a + y == y;
    } else {
      assert (a + y)[1..] == a[1..] + y;
      SquashPlain(a[1..], y);
    }
  }

  /** A run of separators followed by a non-separator, or by nothing, is dropped whole. */
  lemma {:induction false} DropSepsRun(m: string, b: string)
    requires forall i :: 0 <= i < |m| ==> Sep(m[i])
    requires b != [] ==> !Sep(b[0])
    ensures DropSeps(m + b) == b
    decreases |m|
  {
    if m == [] {
      assert m + b == b;
    } else {
      assert (m + b)[1..] == m[1..] + b;
      DropSepsRun(m[1..], b);
    }
  }

  /** One run of separators followed by text: the run becomes a single hyphen. */
  lemma SquashRunTail(m: string, b: string)
    requires m != [] && forall i :: 0 <= i < |m| ==> Sep(m[i])
    requires forall i :: 0 <= i < |b| ==> !Sep(b[i])
    ensures Squash(m + b) == "-" + b
  {
    assert (m + b)[0] == m[0];
    assert (m + b)[1..] == m[1..] + b;
    DropSepsRun(m[1..], b);
    SquashPlain(b, []);
    assert b + [] == b;
  }

  /** Text, one run of separators, text: the run becomes a single hyphen. */
  lemma SquashRun(a: string, m: string, b: string)
    requires forall i :: 0 <= i < |a| ==> !Sep(a[i])
    requires m != [] && forall i :: 0 <= i < |m| ==> Sep(m[i])
    requires forall i :: 0 <= i < |b| ==> !Sep(b[i])
    ensures Squash(a + m + b) == a + "-" + b
  {
    SquashRunTail(m, b);
    assert a + m + b == a + (m + b);
    SquashPlain(a, m + b);
    assert a + ("-" + b) == a + "-" + b;
  }

  /**
   * Replacing whitespace runs and then collapsing hyphen runs is the same as
   * turning every run of whitespace and hyphens into one hyphen.
   */
  lemma {:induction false} SquashExact(u: string)
    ensures CollapseDashes(DashSpaces(u)) == Squash(u)
    decreases |u|
  {
    if u != [] && !Sep(u[0]) {
      SquashExact(u[1..]);
      var x := DashSpaces(u[1..]);
      assert DashSpaces(u) == [u[0]] + x;
      assert ([u[0]] + x)[1..] == x;
    } else if u != [] {
      var n := DropSepsSplit(u);
      var p, r := u[..n], u[n..];
      assert u == p + r;
      DashSpacesSplit(p, r);
      DashSpacesRun(p);
      if r != [] {
        assert DashSpaces(r)[0] == r[0];
      }
      CollapseRun(DashSpaces(p), DashSpaces(r));
      SquashExact(r);
    }
  }

  /** The slug derived from a title (event.model.ts, lines 111-116). */
  function Slugify(title: string): string
  {
    CollapseDashes(DashSpaces(StripSpecial(Trim(Lower(title)))))
  }

  /**
   * The slug is the trimmed, lower-cased title with the special characters
   * deleted and every run of whitespace and hyphens turned into one hyphen.
   */
  lemma SlugSquashes(title: string)
    ensures Slugify(title) == Squash(StripSpecial(Trim(Lower(title))))
  {
    SquashExact(StripSpecial(Trim(Lower(title))));
  }

  /** Every derived slug consists of slug characters and has no `--`; in particular no whitespace. */
  lemma SlugShape(title: string)
    ensures IsSlug(Slugify(title))
    ensures NoSpace(Slugify(title))
  {
    var l := Lower(title);
    var lo, hi := TrimIsSlice(l);
    var t := Trim(l);
    assert forall c :: c in t ==> !IsUpper(c) by {
      forall c | c in t ensures !IsUpper(c) {
        var k :| 0 <= k < |t| && t[k] == c;
        assert t[k] == l[lo + k];
        LowerCharKeepsClass(title[lo + k]);
      }
    }
    StripSpecialKeeps(t);
    DashSpacesChars(StripSpecial(t));
    var d := DashSpaces(StripSpecial(t));
    assert forall c :: c in d ==> SlugChar(c);
    CollapseDashesChars(d);
    CollapseDashesSingle(d);
    var r := Slugify(title);
    forall i | 0 <= i < |r| ensures SlugChar(r[i]) && !IsSpace(r[i]) {
      assert r[i] in r;
    }
  }

  /** A string already in slug shape passes through every step unchanged. */
  lemma SlugShapeIsFixed(s: string)
    requires IsSlug(s)
    ensures Slugify(s) == s
  {
    SlugShapeNoUpperNoEdge(s);
    calc {
      Trim(Lower(s));
      { LowerNoUpper(s); }
      Trim(s);
      { TrimNoEdge(s); }
      s;
    }
    SlugShapeKept(s);
    StripSpecialFixed(s);
    DashSpacesFixed(s);
    CollapseDashesFixed(s);
  }

  lemma SlugShapeNoUpperNoEdge(s: string)
    requires IsSlug(s)
    ensures NoUpper(s) && NoEdgeSpace(s)
  {
  }

  lemma SlugShapeKept(s: string)
    requires IsSlug(s)
    ensures (forall i :: 0 <= i < |s| ==> Kept(s[i])) && NoSpace(s)
  {
  }

  /** The slugs are exactly the fixed points of the pipeline. */
  lemma SlugFixpoint(s: string)
    ensures Slugify(s) == s <==> IsSlug(s)
  {
    if IsSlug(s) {
      SlugShapeIsFixed(s);
    }
    if Slugify(s) == s {
      SlugShape(s);
    }
  }

  /** Deriving a slug from a slug changes nothing. */
  lemma SlugIdempotent(title: string)
    ensures Slugify(Slugify(title)) == Slugify(title)
  {
    SlugShape(title);
    SlugFixpoint(Slugify(title));
  }

  /** The schema's `lowercase` setter on `slug` leaves a derived slug as it is. */
  lemma SlugIsLowercase(title: string)
    ensures Lower(Slugify(title)) == Slugify(title)
  {
    SlugShape(title);
    LowerNoUpper(Slugify(title));
  }
  /** The word characters of `s`, in order. */
  function WordsOf(s: string): string
  {
    if s == [] then [] else (if IsWord(s[0]) then [s[0]] else []) + WordsOf(s[1..])
  }

  lemma {:induction false} WordsOfConcat(a: string, b: string)
    ensures WordsOf(a + b) == WordsOf(a) + WordsOf(b)
    decreases |a|
  {
    if a == [] {
      assert a + b == b;
    } else {
      var h := if IsWord(a[0]) then [a[0]] else [];
      assert (a + b)[0] == a[0];
      assert (a + b)[1..] == a[1..] + b;
      WordsOfConcat(a[1..], b);
      calc {
        WordsOf(a + b);
        h + WordsOf(a[1..] + b);
        h + (WordsOf(a[1..]) + WordsOf(b));
        (h + WordsOf(a[1..])) + WordsOf(b);
        WordsOf(a) + WordsOf(b);
      }
    }
  }

  lemma {:induction false} WordsOfSpace(s: string)
    requires AllSpace(s)
    ensures WordsOf(s) == []
    decreases |s|
  {
    if s != [] {
      WordsOfSpace(s[1..]);
    }
  }

  lemma WordsOfPadded(a: string, m: string, b: string)
    requires AllSpace(a) && AllSpace(b)
    ensures WordsOf(a + m + b) == WordsOf(m)
  {
    WordsOfConcat(a + m, b);
    WordsOfConcat(a, m);
    WordsOfSpace(a);
    WordsOfSpace(b);
  }

  lemma WordsOfSlice(s: string, lo: nat, hi: nat)
    requires lo <= hi <= |s| && AllSpace(s[..lo]) && AllSpace(s[hi..])
    ensures WordsOf(s[lo..hi]) == WordsOf(s)
  {
    var a, m, b := s[..lo], s[lo..hi], s[hi..];
    assert s == a + m + b;
    WordsOfPadded(a, m, b);
  }

  lemma WordsOfTrim(s: string)
    ensures WordsOf(Trim(s)) == WordsOf(s)
  {
    var lo, hi := TrimIsSlice(s);
    WordsOfSlice(s, lo, hi);
  }

  lemma {:induction false} WordsOfStrip(s: string)
    ensures WordsOf(StripSpecial(s)) == WordsOf(s)
    decreases |s|
  {
    if s != [] {
      WordsOfStrip(s[1..]);
      WordsOfConcat(if Kept(s[0]) then [s[0]] else [], StripSpecial(s[1..]));
    }
  }

  lemma {:induction false} WordsOfDashSpaces(s: string)
    ensures WordsOf(DashSpaces(s)) == WordsOf(s)
    decreases |s|
  {
    if s != [] {
      WordsOfDashSpaces(s[1..]);
      var head := if !IsSpace(s[0]) then [s[0]] else if |s| > 1 && IsSpace(s[1]) then [] else ['-'];
      WordsOfConcat(head, DashSpaces(s[1..]));
    }
  }

  lemma {:induction false} WordsOfCollapse(s: string)
    ensures WordsOf(CollapseDashes(s)) == WordsOf(s)
    decreases |s|
  {
    if s != [] {
      WordsOfCollapse(s[1..]);
      WordsOfConcat(if s[0] == '-' && |s| > 1 && s[1] == '-' then [] else [s[0]], CollapseDashes(s[1..]));
    }
  }

  /**
   * Only non-word characters are removed: the letters, digits and `_` of the
   * slug are exactly those of the lower-cased title, in the same order.
   */
  lemma SlugKeepsWords(title: string)
    ensures WordsOf(Slugify(title)) == WordsOf(Lower(title))
  {
    var t := Trim(Lower(title));
    WordsOfTrim(Lower(title));
    WordsOfStrip(t);
    WordsOfDashSpaces(StripSpecial(t));
    WordsOfCollapse(DashSpaces(StripSpecial(t)));
  }

  /** A single space after a run of non-space characters becomes one hyphen. */
  lemma {:induction false} DashSpacesTrailing(a: string)
    requires NoSpace(a)
    ensures DashSpaces(a + " ") == a + "-"
    decreases |a|
  {
    if a == [] {
      assert a + " " == " ";
    } else {
      assert (a + " ")[1..] == a[1..] + " ";
      DashSpacesTrailing(a[1..]);
    }
  }

  /** Word characters separated by single ASCII spaces, with no space at either end. */
  predicate SingleSpaced(t: string)
  {
    NoEdgeSpace(t)
    && (forall i :: 0 <= i < |t| ==> IsWord(t[i]) || t[i] == ' ')
    && (forall i :: 0 <= i < |t| - 1 ==> !(t[i] == ' ' && t[i + 1] == ' '))
  }

  /** Every space replaced by a hyphen. */
  function Hyphenate(s: string): string
  {
    seq(|s|, i requires 0 <= i < |s| => if s[i] == ' ' then '-' else s[i])
  }

  lemma LowerSingleSpaced(t: string)
    requires SingleSpaced(t)
    ensures SingleSpaced(Lower(t))
  {
    var l := Lower(t);
    forall i | 0 <= i < |t| ensures (IsWord(l[i]) || l[i] == ' ') && (IsSpace(l[i]) <==> t[i] == ' ') {
      LowerCharKeepsClass(t[i]);
    }
  }

  /** Without consecutive spaces, each single space becomes one hyphen. */
  lemma {:induction false} DashSpacesSingle(s: string)
    requires SingleSpaced(s) || (s != [] && !IsSpace(s[|s| - 1]) && (forall i :: 0 <= i < |s| ==> IsWord(s[i]) || s[i] == ' ')
                                 && (forall i :: 0 <= i < |s| - 1 ==> !(s[i] == ' ' && s[i + 1] == ' ')))
    ensures DashSpaces(s) == Hyphenate(s)
    decreases |s|
  {
    if s != [] {
      if |s| > 1 {
        DashSpacesSingle(s[1..]);
      }
      assert Hyphenate(s) == [Hyphenate(s)[0]] + Hyphenate(s[1..]);
    }
  }

  /** A hyphenated single-spaced title has no `--`. */
  lemma HyphenateSingle(s: string)
    requires SingleSpaced(s)
    ensures NoDoubleDash(Hyphenate(s))
  {
  }

  /**
   * A title made of word characters and single spaces, with no space at either end,
   * gives its lower-cased form with every space turned into a hyphen.
   */
  lemma SlugOfSingleSpaced(t: string)
    requires SingleSpaced(t)
    ensures Slugify(t) == Hyphenate(Lower(t))
  {
    var l := Lower(t);
    LowerSingleSpaced(t);
    assert forall i :: 0 <= i < |l| ==> Kept(l[i]);
    DashSpacesSingle(l);
    HyphenateSingle(l);
    calc {
      Slugify(t);
      CollapseDashes(DashSpaces(StripSpecial(Trim(l))));
      { TrimNoEdge(l); }
      CollapseDashes(DashSpaces(StripSpecial(l)));
      { StripSpecialFixed(l); }
      CollapseDashes(Hyphenate(l));
      { CollapseDashesFixed(Hyphenate(l)); }
      Hyphenate(l);
    }
  }

  lemma ReactSummitTitle()
    ensures SingleSpaced("React Summit 2024")
    ensures Hyphenate(Lower("React Summit 2024")) == "react-summit-2024"
  {
  }

  /** The seeded title "React Summit 2024" gives the seeded slug. */
  lemma SlugExampleReactSummit()
    ensures Slugify("React Summit 2024") == "react-summit-2024"
  {
    ReactSummitTitle();
    SlugOfSingleSpaced("React Summit 2024");
  }

  lemma DeepDiveTitle()
    ensures Lower("Deep - Dive") == "deep - dive" && NoEdgeSpace("deep - dive")
    ensures forall i :: 0 <= i < |"deep - dive"| ==> Kept("deep - dive"[i])
  {
  }

  lemma DeepDiveSquash()
    ensures Squash("deep - dive") == "deep-dive"
  {
    assert "deep - dive" == "deep" + " - " + "dive";
    SquashRun("deep", " - ", "dive");
  }

  /** A hyphen between spaces merges with them into one hyphen. */
  lemma SlugExampleMixedRun()
    ensures Slugify("Deep - Dive") == "deep-dive"
  {
    DeepDiveTitle();
    TrimNoEdge("deep - dive");
    StripSpecialFixed("deep - dive");
    SquashExact("deep - dive");
    DeepDiveSquash();
  }

  /** Trimming happens before stripping, so removed punctuation can leave a trailing hyphen. */
  lemma SlugExampleTrailingHyphen()
    ensures Slugify("Hi !") == "hi-"
  {
    assert Lower("Hi !") == "hi !";
    TrimNoEdge("hi !");
    assert StripSpecial("hi !") == "hi ";
    SquashExact("hi ");
    assert "hi " == "hi" + " " + [];
    SquashRun("hi", " ", []);
  }
}
