/** pipeline/utils.py: slug normalisation and the first-non-None selector.

    `Slugify` follows the source step by step: strip whitespace, lower-case,
    replace every maximal run of characters outside [a-z0-9] by one dash,
    collapse runs of two or more dashes, strip dashes from both ends, and
    fall back to "topic" when nothing is left. The lemmas below prove it
    equal to an independent description: the maximal runs of letters and
    digits of the lower-cased input, joined by single dashes. */
module Utils {
  import opened Wrappers
  import opened Text

  predicate IsSlugChar(c: char) {
    'a' <= c <= 'z' || '0' <= c <= '9'
  }

  predicate NotSlugChar(c: char) {
    !IsSlugChar(c)
  }

  predicate IsDash(c: char) {
    c == '-'
  }

  const Fallback: string := "topic"

  /** No two adjacent dashes. */
  ghost predicate NoDoubleDash(s: string) {
    forall i, j {:trigger s[i], s[j]} :: 0 <= i && j == i + 1 && j < |s| ==> s[i] != '-' || s[j] != '-'
  }

  /** What a slug looks like: non-empty, only a-z, 0-9 and '-', no dash at
      either end and no two dashes in a row. */
  ghost predicate IsSlug(t: string) {
    && t != []
    && (forall i :: 0 <= i < |t| ==> IsSlugChar(t[i]) || t[i] == '-')
    && t[0] != '-' && t[|t| - 1] != '-'
    && NoDoubleDash(t)
  }

  /** re.sub(r"[^a-z0-9]+", "-", s): copies the leading run of slug
      characters, then replaces the following maximal run of other
      characters by one dash, and continues after it. */
  function SubstituteRuns(s: string): string
    decreases |s|
  {
    var k := PrefixLength(s, IsSlugChar);
    if k == |s| then s
    else s[..k] + "-" + SubstituteRuns(DropLeading(s[k..], NotSlugChar))
  }

  /** re.sub(r"-{2,}", "-", s) */
  function CollapseDashes(s: string): string
    decreases |s|
  {
    if s == [] then []
    else if s[0] == '-' then "-" + CollapseDashes(DropLeading(s, IsDash))
    else [s[0]] + CollapseDashes(s[1..])
  }

  /** s.strip("-") */
  function StripDashes(s: string): string {
    DropTrailing(DropLeading(s, IsDash), IsDash)
  }

  /** slugify(s) for a string argument (pipeline/utils.py:6-9). */
  function Slugify(s: string): (r: string)
    ensures IsSlug(r)
  {
    var t := StripDashes(CollapseDashes(SubstituteRuns(Lower(Strip(s)))));
    SlugifyMatchesWords(s);
    if t == [] then Fallback else t
  }

  /** slugify(v) for an argument that may be None: `(s or "")`. */
  function SlugifyOptional(v: Option<string>): (r: string)
    ensures v.None? ==> r == Fallback
    ensures v.Some? ==> r == Slugify(v.value)
  {
    SlugifyEmpty();
    Slugify(v.GetOr(""))
  }

  // ---------------------------------------------------------------------
  // The reference description: maximal runs of slug characters.

  /** A non-empty run of slug characters. */
  ghost predicate IsWord(w: string) {
    w != [] && forall j :: 0 <= j < |w| ==> IsSlugChar(w[j])
  }

  /** The maximal runs of slug characters of `s`, left to right. */
  function Words(s: string): seq<string>
    decreases |s|
  {
    var t := DropLeading(s, NotSlugChar);
    if t == [] then []
    else
      var k := PrefixLength(t, IsSlugChar);
      [t[..k]] + Words(t[k..])
  }

  /** The words joined by single dashes. */
  function JoinDash(ws: seq<string>): string {
    Join('-', ws)
  }

  function Concat(ws: seq<string>): string {
    if ws == [] then [] else ws[0] + Concat(ws[1..])
  }

  /** Every word is a non-empty run of slug characters. */
  lemma {:induction false} WordsAreWords(s: string)
    ensures forall i :: 0 <= i < |Words(s)| ==> IsWord(Words(s)[i])
    decreases |s|
  {
    var t := DropLeading(s, NotSlugChar);
    if t != [] {
      var k := PrefixLength(t, IsSlugChar);
      WordsAreWords(t[k..]);
      assert IsWord(t[..k]);
      assert Words(s) == [t[..k]] + Words(t[k..]);
    }
  }

  // ---------------------------------------------------------------------
  // Small facts about the primitives.

  lemma DropLeadingTwice(s: string, drop: char -> bool)
    ensures DropLeading(DropLeading(s, drop), drop) == DropLeading(s, drop)
  {
  }

  lemma {:induction false} WordsSkipsSeparators(s: string)
    ensures Words(DropLeading(s, NotSlugChar)) == Words(s)
  {
    DropLeadingTwice(s, NotSlugChar);
  }

  /** Words of a string that starts with its first run `s[..k]`. */
  lemma {:induction false} WordsSplit(s: string, k: nat)
    requires k == PrefixLength(s, IsSlugChar) && k < |s|
    ensures Words(s) == (if k == 0 then [] else [s[..k]]) + Words(DropLeading(s[k..], NotSlugChar))
  {
    WordsSkipsSeparators(s[k..]);
    if k > 0 {
      assert DropLeading(s, NotSlugChar) == s;
    } else {
      assert s[k..] == s;
    }
  }

  lemma {:induction false} WordsOfRun(s: string)
    requires PrefixLength(s, IsSlugChar) == |s|
    ensures Words(s) == if s == [] then [] else [s]
  {
    if s != [] {
      assert DropLeading(s, NotSlugChar) == s;
      assert s[..|s|] == s;
      assert Words(s[|s|..]) == [] by {
        assert s[|s|..] == [];
        assert DropLeading([], NotSlugChar) == [];
      }
    }
  }

  /** DropTrailing only looks at the end of a string. */
  lemma {:induction false} DropTrailingAppend(a: string, b: string, drop: char -> bool)
    requires DropTrailing(b, drop) != []
    ensures DropTrailing(a + b, drop) == a + DropTrailing(b, drop)
    decreases |b|
  {
    if b != [] && drop(b[|b| - 1]) {
      var b' := b[..|b| - 1];
      assert (a + b)[..|a + b| - 1] == a + b';
      DropTrailingAppend(a, b', drop);
    }
  }

  lemma {:induction false} DropTrailingAllDropped(a: string, b: string, drop: char -> bool)
    requires forall i :: 0 <= i < |b| ==> drop(b[i])
    ensures DropTrailing(a + b, drop) == DropTrailing(a, drop)
    decreases |b|
  {
    if b != [] {
      var b' := b[..|b| - 1];
      assert (a + b)[..|a + b| - 1] == a + b';
      DropTrailingAllDropped(a, b', drop);
    } else {
      assert a + b == a;
    }
  }

  /** SubstituteRuns never produces a double dash, and its output starts
      with the input's first character when that is a slug character. */
  lemma {:induction false} SubstituteRunsDashes(s: string)
    ensures NoDoubleDash(SubstituteRuns(s))
    ensures s == [] ==> SubstituteRuns(s) == []
    ensures s != [] && IsSlugChar(s[0]) ==> SubstituteRuns(s) != [] && SubstituteRuns(s)[0] == s[0]
    decreases |s|
  {
    var k := PrefixLength(s, IsSlugChar);
    if k == |s| {
      assert NoDoubleDash(s) by {
        assert forall i :: 0 <= i < |s| ==> s[i] != '-';
      }
    } else {
      var h := s[..k];
      var t := DropLeading(s[k..], NotSlugChar);
      SubstituteRunsDashes(t);
      assert NoDoubleDash(h) by {
        assert forall i :: 0 <= i < |h| ==> h[i] != '-';
      }
      assert h == [] || h[|h| - 1] != '-';
      NoDoubleDashJoin(h, SubstituteRuns(t));
    }
  }

  /** The output of SubstituteRuns, stripped of dashes, is the words joined
      by single dashes. */
  lemma {:induction false} SubstituteRunsShape(s: string)
    ensures StripDashes(SubstituteRuns(s)) == JoinDash(Words(s))
    decreases |s|
  {
    var k := PrefixLength(s, IsSlugChar);
    if k == |s| {
      ShapeOfRun(s);
    } else {
      var h := s[..k];
      var t := DropLeading(s[k..], NotSlugChar);
      var rt := SubstituteRuns(t);
      SubstituteRunsShape(t);
      SubstituteRunsDashes(t);
      WordsSplit(s, k);
      assert SubstituteRuns(s) == h + "-" + rt;
      if k == 0 {
        LeadingDashStrip(rt, t);
      } else {
        HeadRunStrip(h, rt, s, k);
        if t == [] {
          TrailingDashOfRun(h);
        } else {
          JoinAfterRun(h, rt, t);
        }
      }
    }
  }

  lemma ShapeOfRun(s: string)
    requires PrefixLength(s, IsSlugChar) == |s|
    ensures SubstituteRuns(s) == s
    ensures StripDashes(s) == JoinDash(Words(s))
  {
    WordsOfRun(s);
    assert forall i :: 0 <= i < |s| ==> !IsDash(s[i]);
    assert DropLeading(s, IsDash) == s;
    assert DropTrailing(s, IsDash) == s;
  }

  lemma LeadingDashStrip(rt: string, t: string)
    requires rt == SubstituteRuns(t)
    requires t == [] ==> rt == []
    requires t != [] && IsSlugChar(t[0]) ==> rt != [] && rt[0] == t[0]
    requires t == [] || IsSlugChar(t[0])
    requires StripDashes(rt) == JoinDash(Words(t))
    ensures StripDashes([] + "-" + rt) == JoinDash(Words(t))
  {
    assert [] + "-" + rt == "-" + rt;
    assert DropLeading("-" + rt, IsDash) == DropLeading(rt, IsDash) by {
      assert ("-" + rt)[1..] == rt;
    }
  }

  lemma HeadRunStrip(h: string, rt: string, s: string, k: nat)
    requires 0 < k < |s| && k == PrefixLength(s, IsSlugChar) && h == s[..k]
    ensures DropLeading(h + "-" + rt, IsDash) == h + "-" + rt
  {
    assert (h + "-" + rt)[0] == s[0];
  }

  lemma TrailingDashOfRun(h: string)
    requires forall i :: 0 <= i < |h| ==> IsSlugChar(h[i])
    ensures DropTrailing(h + "-" + SubstituteRuns([]), IsDash) == JoinDash([h])
  {
    assert SubstituteRuns([]) == [];
    assert h + "-" + [] == h + "-";
    DropTrailingAllDropped(h, "-", IsDash);
    assert forall i :: 0 <= i < |h| ==> !IsDash(h[i]);
    assert DropTrailing(h, IsDash) == h;
  }

  lemma JoinAfterRun(h: string, rt: string, t: string)
    requires t != [] && IsSlugChar(t[0]) && rt == SubstituteRuns(t)
    requires rt != [] && rt[0] == t[0]
    requires StripDashes(rt) == JoinDash(Words(t))
    ensures DropTrailing(h + "-" + rt, IsDash) == JoinDash([h] + Words(t))
  {
    var ws := Words(t);
    assert ws != [] by {
      assert DropLeading(t, NotSlugChar) == t;
    }
    assert DropTrailing(rt, IsDash) == JoinDash(ws) by {
      assert DropLeading(rt, IsDash) == rt;
    }
    assert JoinDash(ws) != [] by {
      WordsAreWords(t);
      JoinStartsWithFirst(ws);
    }
    DropTrailingAppend(h + "-", rt, IsDash);
    JoinDashCons(h, ws);
  }

  lemma JoinDashCons(h: string, ws: seq<string>)
    requires ws != []
    ensures JoinDash([h] + ws) == h + "-" + JoinDash(ws)
  {
    assert ([h] + ws)[1..] == ws;
  }

  /** Two strings without double dashes, joined by one dash, have none
      when neither has a dash at the joint. */
  lemma NoDoubleDashJoin(a: string, b: string)
    requires NoDoubleDash(a) && NoDoubleDash(b)
    requires a == [] || a[|a| - 1] != '-'
    requires b == [] || b[0] != '-'
    ensures NoDoubleDash(a + "-" + b)
  {
    var r := a + "-" + b;
    forall i | 0 < i < |r| && r[i] == '-' ensures r[i - 1] != '-' {
      if i < |a| {
        assert r[i] == a[i] && r[i - 1] == a[i - 1];
      } else if i == |a| {
        assert r[i - 1] == a[i - 1];
      } else if i > |a| + 1 {
        assert r[i] == b[i - |a| - 1] && r[i - 1] == b[i - |a| - 2];
      }
    }
  }

  lemma {:induction false} JoinStartsWithFirst(ws: seq<string>)
    requires ws != [] && IsWord(ws[0])
    ensures JoinDash(ws) != [] && JoinDash(ws)[0] == ws[0][0]
  {
  }

  /** CollapseDashes changes nothing in a string without double dashes. */
  lemma {:induction false} CollapseWithoutDoubleDash(s: string)
    requires NoDoubleDash(s)
    ensures CollapseDashes(s) == s
    decreases |s|
  {
    if s != [] {
      assert NoDoubleDash(s[1..]) by {
        forall i | 0 < i < |s[1..]| && s[1..][i] == '-' ensures s[1..][i - 1] != '-' {
          assert s[i + 1] == '-';
        }
      }
      if s[0] == '-' {
        assert |s| > 1 ==> s[1] != '-';
        assert DropLeading(s, IsDash) == s[1..] by {
          assert DropLeading(s, IsDash) == DropLeading(s[1..], IsDash);
        }
      }
      CollapseWithoutDoubleDash(s[1..]);
      assert s == [s[0]] + s[1..];
    }
  }

  /** The core of Slugify, before the fallback, is the joined words of the
      stripped and lower-cased input. */
  lemma {:induction false} SlugifyMatchesWords(s: string)
    ensures var ws := Words(Lower(Strip(s)));
            && StripDashes(CollapseDashes(SubstituteRuns(Lower(Strip(s))))) == JoinDash(ws)
            && (ws == [] ==> IsSlug(Fallback))
            && (ws != [] ==> IsSlug(JoinDash(ws)))
  {
    var l := Lower(Strip(s));
    SubstituteRunsShape(l);
    SubstituteRunsDashes(l);
    CollapseWithoutDoubleDash(SubstituteRuns(l));
    var ws := Words(l);
    WordsAreWords(l);
    if ws != [] {
      JoinDashIsSlug(ws);
    }
    assert Fallback[0] == 't';
  }

  lemma {:induction false} JoinDashIsSlug(ws: seq<string>)
    requires ws != []
    requires forall i :: 0 <= i < |ws| ==> IsWord(ws[i])
    ensures IsSlug(JoinDash(ws))
  {
    var w := ws[0];
    assert forall j :: 0 <= j < |w| ==> IsSlugChar(w[j]);
    if |ws| > 1 {
      var rest := JoinDash(ws[1..]);
      JoinDashIsSlug(ws[1..]);
      var r := w + "-" + rest;
      assert JoinDash(ws) == r;
      assert NoDoubleDash(w) by {
        assert forall j :: 0 <= j < |w| ==> w[j] != '-';
      }
      NoDoubleDashJoin(w, rest);
      assert r[|r| - 1] == rest[|rest| - 1];
      forall i | 0 <= i < |r| ensures IsSlugChar(r[i]) || r[i] == '-' {
        if i < |w| {
          assert r[i] == w[i];
        } else if i > |w| {
          assert r[i] == rest[i - |w| - 1];
        }
      }
    }
  }

  lemma SlugifyEmpty()
    ensures Slugify("") == Fallback
  {
    assert Strip("") == "";
    assert Lower("") == "";
    assert SubstituteRuns("") == "";
    assert CollapseDashes("") == "";
  }

  // ---------------------------------------------------------------------
  // The properties of slugify.

  /** Each maximal run of characters other than letters and digits becomes
      one dash, none is left at either end, and an input without letters or
      digits gives "topic". */
  lemma SlugifyJoinsWords(s: string)
    ensures var ws := Words(Lower(Strip(s)));
            Slugify(s) == if ws == [] then Fallback else JoinDash(ws)
  {
    SlugifyMatchesWords(s);
    var ws := Words(Lower(Strip(s)));
    WordsAreWords(Lower(Strip(s)));
    if ws != [] {
      JoinStartsWithFirst(ws);
    }
  }

  /** A slug is left unchanged, so slugify is idempotent. */
  lemma SlugifyFixesSlugs(t: string)
    requires IsSlug(t)
    ensures Slugify(t) == t
  {
    assert !IsSpace(t[0]) && !IsSpace(t[|t| - 1]);
    assert DropLeading(t, IsSpace) == t;
    assert DropTrailing(t, IsSpace) == t;
    assert Lower(t) == t;
    SlugIsJoinOfWords(t);
    SlugifyJoinsWords(t);
  }

  lemma SlugifyIdempotent(s: string)
    ensures Slugify(Slugify(s)) == Slugify(s)
  {
    SlugifyFixesSlugs(Slugify(s));
  }

  lemma {:induction false} SlugIsJoinOfWords(t: string)
    requires IsSlug(t)
    ensures Words(t) != [] && JoinDash(Words(t)) == t
    decreases |t|
  {
    var k := PrefixLength(t, IsSlugChar);
    if k == |t| {
      WordsOfRun(t);
    } else {
      SlugAfterFirstWord(t, k);
      var t' := t[k + 1..];
      WordsSplit(t, k);
      SlugIsJoinOfWords(t');
      JoinDashCons(t[..k], Words(t'));
      SplitAtDash(t, k);
    }
  }

  lemma SplitAtDash(t: string, k: nat)
    requires k + 1 <= |t| && t[k] == '-'
    ensures t == t[..k] + "-" + t[k + 1..]
  {
  }

  /** After the first word of a slug come one dash and another slug. */
  lemma SlugAfterFirstWord(t: string, k: nat)
    requires IsSlug(t) && k == PrefixLength(t, IsSlugChar) && k < |t|
    ensures 1 <= k && k + 1 < |t| && t[k] == '-'
    ensures IsSlug(t[k + 1..])
    ensures DropLeading(t[k..], NotSlugChar) == t[k + 1..]
  {
    assert t[k] == '-';
    assert k + 1 < |t|;
    assert t[k + 1] != '-' by {
      assert t[k] != '-' || t[k + 1] != '-';
    }
    SuffixOfSlug(t, k + 1);
    DropOneDash(t, k);
  }

  lemma SuffixOfSlug(t: string, m: nat)
    requires IsSlug(t) && 0 < m < |t| && t[m] != '-'
    ensures IsSlug(t[m..])
  {
    var t' := t[m..];
    assert forall i :: 0 <= i < |t'| ==> t'[i] == t[m + i];
    assert NoDoubleDash(t') by {
      forall i, j | 0 <= i && j == i + 1 && j < |t'| ensures t'[i] != '-' || t'[j] != '-' {
        assert t'[i] == t[m + i] && t'[j] == t[m + j];
      }
    }
  }

  lemma DropOneDash(t: string, k: nat)
    requires k + 1 < |t| && t[k] == '-' && IsSlugChar(t[k + 1])
    ensures DropLeading(t[k..], NotSlugChar) == t[k + 1..]
  {
    assert t[k..][1..] == t[k + 1..];
  }

  /** The letters and digits of the input survive, lower-cased and in their
      original order; with none of them the result is "topic". */
  lemma SlugifyKeepsLettersAndDigits(s: string)
    ensures var a := Lower(Keep(s, IsAsciiAlnum));
            && (a == [] ==> Slugify(s) == Fallback)
            && (a != [] ==> Keep(Slugify(s), IsSlugChar) == a)
  {
    var l := Lower(Strip(s));
    var ws := Words(l);
    SlugifyJoinsWords(s);
    WordsAreWords(l);
    ConcatWords(l);
    StripKeepsSlugChars(s);
    LowerThenKeep(s);
    if ws != [] {
      KeepJoinDash(ws);
    } else {
      assert Concat(ws) == [];
    }
    assert ws != [] ==> Concat(ws) != [] by {
      if ws != [] {
        assert ws[0] != [];
      }
    }
  }

  lemma {:induction false} ConcatWords(s: string)
    ensures Concat(Words(s)) == Keep(s, IsSlugChar)
    decreases |s|
  {
    var t := DropLeading(s, NotSlugChar);
    KeepAfterSeparators(s);
    if t != [] {
      var k := PrefixLength(t, IsSlugChar);
      KeepWord(t, k);
      ConcatWords(t[k..]);
      assert Words(s) == [t[..k]] + Words(t[k..]);
      assert ([t[..k]] + Words(t[k..]))[1..] == Words(t[k..]);
    } else {
      assert Keep(t, IsSlugChar) == [];
    }
  }

  /** The separators in front of the first word keep nothing. */
  lemma KeepAfterSeparators(s: string)
    ensures Keep(s, IsSlugChar) == Keep(DropLeading(s, NotSlugChar), IsSlugChar)
  {
    var t := DropLeading(s, NotSlugChar);
    var p := s[..|s| - |t|];
    DropLeadingSplit(s, NotSlugChar);
    assert s == p + t;
    KeepAppend(p, t, IsSlugChar);
    KeepNone(p, IsSlugChar);
  }

  /** A leading word is kept whole. */
  lemma KeepWord(t: string, k: nat)
    requires k == PrefixLength(t, IsSlugChar)
    ensures Keep(t, IsSlugChar) == t[..k] + Keep(t[k..], IsSlugChar)
  {
    assert t == t[..k] + t[k..];
    KeepAppend(t[..k], t[k..], IsSlugChar);
    KeepAll(t[..k], IsSlugChar);
  }

  lemma {:induction false} KeepJoinDash(ws: seq<string>)
    requires forall i :: 0 <= i < |ws| ==> IsWord(ws[i])
    ensures Keep(JoinDash(ws), IsSlugChar) == Concat(ws)
  {
    if ws != [] {
      KeepAll(ws[0], IsSlugChar);
      if |ws| == 1 {
        assert Concat(ws[1..]) == [];
        assert Concat(ws) == ws[0] + [];
      } else {
        KeepJoinDash(ws[1..]);
        KeepAppend(ws[0] + "-", JoinDash(ws[1..]), IsSlugChar);
        KeepAppend(ws[0], "-", IsSlugChar);
        assert Keep("-", IsSlugChar) == [];
      }
    }
  }

  /** Strip removes only whitespace, which is never a slug character. */
  lemma StripKeepsSlugChars(s: string)
    ensures Keep(Lower(Strip(s)), IsSlugChar) == Keep(Lower(s), IsSlugChar)
  {
    var d := DropLeading(s, IsSpace);
    var m := DropTrailing(d, IsSpace);
    assert m == Strip(s);
    var a := s[..|s| - |d|];
    var b := d[|m|..];
    DropLeadingSplit(s, IsSpace);
    DropTrailingSplit(d, IsSpace);
    SpacesAreNotKept(a);
    SpacesAreNotKept(b);
    calc {
      Keep(Lower(s), IsSlugChar);
      { assert s == a + d; }
      Keep(Lower(a + d), IsSlugChar);
      { LowerAppend(a, d); KeepAppend(Lower(a), Lower(d), IsSlugChar); }
      Keep(Lower(d), IsSlugChar);
      { assert d == m + b; }
      Keep(Lower(m + b), IsSlugChar);
      { LowerAppend(m, b); KeepAppend(Lower(m), Lower(b), IsSlugChar); }
      Keep(Lower(m), IsSlugChar);
    }
  }

  lemma SpacesAreNotKept(a: string)
    requires forall i :: 0 <= i < |a| ==> IsSpace(a[i])
    ensures Keep(Lower(a), IsSlugChar) == []
  {
    var l := Lower(a);
    forall i | 0 <= i < |l| ensures !IsSlugChar(l[i]) {
      assert IsSpace(a[i]);
      assert l[i] == LowerChar(a[i]);
    }
    KeepNone(l, IsSlugChar);
  }

  /** Lower-casing then keeping slug characters is keeping ASCII letters
      and digits then lower-casing. */
  lemma {:induction false} LowerThenKeep(s: string)
    ensures Keep(Lower(s), IsSlugChar) == Lower(Keep(s, IsAsciiAlnum))
  {
    if s != [] {
      LowerThenKeep(s[1..]);
      assert Lower(s)[1..] == Lower(s[1..]);
      var head := if IsAsciiAlnum(s[0]) then [s[0]] else [];
      LowerAppend(head, Keep(s[1..], IsAsciiAlnum));
    }
  }

  // ---------------------------------------------------------------------

  /** coalesce(*vals): the first argument that is not None, or None
      (pipeline/utils.py:31-35). */
  function Coalesce<T>(vals: seq<Option<T>>): (r: Option<T>)
    ensures r.None? <==> forall i :: 0 <= i < |vals| ==> vals[i].None?
    ensures r.Some? ==> exists i :: 0 <= i < |vals| && vals[i] == r &&
                                   forall j :: 0 <= j < i ==> vals[j].None?
  {
    if vals == [] then None
    else if vals[0].Some? then vals[0]
    else Coalesce(vals[1..])
  }
}
