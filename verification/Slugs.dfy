/** The slug of a name. Models slugify in backend/relay/persistence/employee_handle_backfill.py. */
module Slugs {
  import opened Wrappers
  import opened Text

  predicate IsSlugChar(c: char) {
    'a' <= c <= 'z' || '0' <= c <= '9' || c == '.' || c == '_' || c == '-'
  }

  /** Every maximal run of other characters becomes one hyphen. */
  function Hyphenate(s: string): string {
    if s == "" then ""
    else
      var front, last := Hyphenate(s[..|s| - 1]), s[|s| - 1];
      if IsSlugChar(last) then front + [last]
      else if |s| >= 2 && !IsSlugChar(s[|s| - 2]) then front
      else front + "-"
  }

  function TrimLeft(s: string): string {
    if s != "" && s[0] in {'-', '.'} then TrimLeft(s[1..]) else s
  }

  function TrimRight(s: string): string {
    if s != "" && s[|s| - 1] in {'-', '.'} then TrimRight(s[..|s| - 1]) else s
  }

  /** Runs of hyphens become one hyphen. */
  function Collapse(s: string): string {
    if |s| < 2 then s
    else
      var front := Collapse(s[..|s| - 1]);
      if s[|s| - 1] == '-' && s[|s| - 2] == '-' then front else front + [s[|s| - 1]]
  }

  function Slugify(lower: char -> char, value: Option<string>): string {
    var stripped := Strip(value.GetOr(""));
    var lowered := seq(|stripped|, i requires 0 <= i < |stripped| => lower(stripped[i]));
    var slug := Collapse(TrimRight(TrimLeft(Hyphenate(lowered))));
    if |slug| < 2 then "" else if |slug| <= 64 then slug else slug[..64]
  }

  ghost predicate SlugChars(s: string) { forall i :: 0 <= i < |s| ==> IsSlugChar(s[i]) }

  ghost predicate NoDoubleHyphen(s: string) {
    forall i :: 0 <= i < |s| - 1 ==> !(s[i] == '-' && s[i + 1] == '-')
  }

  lemma {:induction false} HyphenateShape(s: string)
    ensures SlugChars(Hyphenate(s))
  {
    if s != "" {
      HyphenateShape(s[..|s| - 1]);
    }
  }

  lemma {:induction false} TrimLeftShape(s: string)
    requires SlugChars(s)
    ensures SlugChars(TrimLeft(s)) && (TrimLeft(s) != "" ==> TrimLeft(s)[0] !in {'-', '.'})
  {
    if s != "" && s[0] in {'-', '.'} {
      TrimLeftShape(s[1..]);
    }
  }

  lemma {:induction false} TrimRightShape(s: string)
    ensures TrimRight(s) <= s
  {
    if s != "" && s[|s| - 1] in {'-', '.'} {
      TrimRightShape(s[..|s| - 1]);
    }
  }

  lemma {:induction false} CollapseShape(s: string)
    requires SlugChars(s)
    ensures SlugChars(Collapse(s)) && NoDoubleHyphen(Collapse(s))
    ensures s != "" ==> Collapse(s) != "" && Collapse(s)[0] == s[0]
    ensures s != "" ==> Collapse(s)[|Collapse(s)| - 1] == s[|s| - 1]
  {
    if |s| >= 2 {
      CollapseShape(s[..|s| - 1]);
    }
  }

  lemma {:induction false} TrimRightEnds(s: string)
    ensures TrimRight(s) != "" ==> TrimRight(s)[|TrimRight(s)| - 1] !in {'-', '.'}
  {
    if s != "" && s[|s| - 1] in {'-', '.'} {
      TrimRightEnds(s[..|s| - 1]);
    }
  }

  function LowerAll(lower: char -> char, s: string): string {
    seq(|s|, i requires 0 <= i < |s| => lower(s[i]))
  }

  /** The slug before it is found too short or cut. */
  function Uncut(lowered: string): string { Collapse(TrimRight(TrimLeft(Hyphenate(lowered)))) }

  lemma UncutShape(lowered: string)
    ensures
      var slug := Uncut(lowered);
      SlugChars(slug) && NoDoubleHyphen(slug)
      && (slug != "" ==> slug[0] !in {'-', '.'} && slug[|slug| - 1] !in {'-', '.'})
  {
    HyphenateShape(lowered);
    TrimLeftShape(Hyphenate(lowered));
    TrimRightShape(TrimLeft(Hyphenate(lowered)));
    TrimRightEnds(TrimLeft(Hyphenate(lowered)));
    CollapseShape(TrimRight(TrimLeft(Hyphenate(lowered))));
  }

  /** A slug is empty, or has 2 to 64 characters of the handle alphabet, does not start with a hyphen
      or a dot, ends with one only where it was cut, and never has two hyphens in a row. */
  lemma SlugShape(lower: char -> char, value: Option<string>)
    ensures
      var slug := Slugify(lower, value);
      || slug == ""
      || (2 <= |slug| <= 64 && SlugChars(slug) && NoDoubleHyphen(slug) && slug[0] !in {'-', '.'}
          && (|slug| < 64 ==> slug[|slug| - 1] !in {'-', '.'}))
  {
    UncutShape(LowerAll(lower, Strip(value.GetOr(""))));
  }

  lemma AlphabetIs(c: char)
    ensures IsSlugChar(c) <==> c in "abcdefghijklmnopqrstuvwxyz0123456789._-"
  {
  }

  // ----- what each pass does, by the runs of its input

  lemma {:induction false} HyphenateKeeps(s: string)
    requires SlugChars(s)
    ensures Hyphenate(s) == s
  {
    if s != "" {
      HyphenateKeeps(s[..|s| - 1]);
      assert s == s[..|s| - 1] + [s[|s| - 1]];
    }
  }

  lemma SplitLast(a: string, b: string) returns (front: string, last: char)
    requires b != ""
    ensures b == front + [last] && a + b == (a + front) + [last] && |front| < |b|
    ensures front == "" ==> last == b[0]
    ensures front != "" ==> front[0] == b[0]
  {
    front, last := b[..|b| - 1], b[|b| - 1];
  }

  lemma HyphenateMore(s: string, c: char)
    ensures Hyphenate(s + [c]) ==
      if IsSlugChar(c) then Hyphenate(s) + [c] else if EndsAsSlug(s) then Hyphenate(s) + "-" else Hyphenate(s)
  {
    assert (s + [c])[..|s|] == s;
  }

  predicate EndsAsSlug(s: string) { s == "" || IsSlugChar(s[|s| - 1]) }

  lemma HyphenateJoinMore(a: string, front: string, last: char)
    requires Hyphenate(a + front) == Hyphenate(a) + Hyphenate(front) && (front == "" ==> IsSlugChar(last))
    ensures Hyphenate((a + front) + [last]) == Hyphenate(a) + Hyphenate(front + [last])
  {
    HyphenateMore(a + front, last);
    HyphenateMore(front, last);
    assert front != "" ==> (EndsAsSlug(a + front) <==> EndsAsSlug(front));
  }

  /** Two texts are taken one by one when the second starts with a character
      of the alphabet. */
  lemma {:induction false} HyphenateJoin(a: string, b: string)
    requires b != "" ==> IsSlugChar(b[0])
    ensures Hyphenate(a + b) == Hyphenate(a) + Hyphenate(b)
    decreases |b|
  {
    if b == "" {
      assert a + b == a && Hyphenate(b) == "";
    } else {
      var front, last := SplitLast(a, b);
      HyphenateJoin(a, front);
      HyphenateJoinMore(a, front, last);
    }
  }

  lemma {:induction false} HyphenateOfRun(a: string, run: string)
    requires EndsAsSlug(a) && run != "" && forall i :: 0 <= i < |run| ==> !IsSlugChar(run[i])
    ensures Hyphenate(a + run) == Hyphenate(a) + "-"
    decreases |run|
  {
    var front, last := run[..|run| - 1], run[|run| - 1];
    assert a + run == (a + front) + [last];
    HyphenateMore(a + front, last);
    if front == "" {
      assert a + front == a;
    } else {
      HyphenateOfRun(a, front);
    }
  }

  /** A run of other characters, however long, is one hyphen, and what stands on its two sides is
      hyphenated for itself. */
  lemma HyphenateRun(a: string, run: string, b: string)
    requires EndsAsSlug(a) && run != "" && forall i :: 0 <= i < |run| ==> !IsSlugChar(run[i])
    requires b != "" ==> IsSlugChar(b[0])
    ensures Hyphenate(a + run + b) == Hyphenate(a) + "-" + Hyphenate(b)
  {
    HyphenateOfRun(a, run);
    HyphenateJoin(a + run, b);
  }

  lemma {:induction false} CollapseKeeps(s: string)
    requires NoDoubleHyphen(s)
    ensures Collapse(s) == s
  {
    if |s| >= 2 {
      CollapseKeeps(s[..|s| - 1]);
    }
  }

  predicate EndsInHyphen(s: string) { s != "" && s[|s| - 1] == '-' }

  lemma CollapseMore(s: string, c: char)
    ensures Collapse(s + [c]) == if EndsInHyphen(s) && c == '-' then Collapse(s) else Collapse(s) + [c]
  {
    assert (s + [c])[..|s|] == s;
  }

  lemma CollapseJoinMore(a: string, front: string, last: char)
    requires Collapse(a + front) == Collapse(a) + Collapse(front) && (front == "" ==> last != '-')
    ensures Collapse((a + front) + [last]) == Collapse(a) + Collapse(front + [last])
  {
    CollapseMore(a + front, last);
    CollapseMore(front, last);
    assert front != "" ==> (EndsInHyphen(a + front) <==> EndsInHyphen(front));
  }

  /** Two texts are taken one by one when the second starts with no hyphen. */
  lemma {:induction false} CollapseJoin(a: string, b: string)
    requires b != "" ==> b[0] != '-'
    ensures Collapse(a + b) == Collapse(a) + Collapse(b)
    decreases |b|
  {
    if b == "" {
      assert a + b == a && Collapse(b) == "";
    } else {
      var front, last := SplitLast(a, b);
      CollapseJoin(a, front);
      CollapseJoinMore(a, front, last);
    }
  }

  lemma {:induction false} CollapseOfRun(a: string, run: string)
    requires !EndsInHyphen(a) && run != "" && forall i :: 0 <= i < |run| ==> run[i] == '-'
    ensures Collapse(a + run) == Collapse(a) + "-"
    decreases |run|
  {
    var front, last := run[..|run| - 1], run[|run| - 1];
    assert a + run == (a + front) + [last];
    CollapseMore(a + front, last);
    if front == "" {
      assert a + front == a;
    } else {
      CollapseOfRun(a, front);
    }
  }

  /** A run of hyphens, however long, is one hyphen. */
  lemma CollapseRun(a: string, run: string, b: string)
    requires !EndsInHyphen(a) && run != "" && forall i :: 0 <= i < |run| ==> run[i] == '-'
    requires b != "" ==> b[0] != '-'
    ensures Collapse(a + run + b) == Collapse(a) + "-" + Collapse(b)
  {
    CollapseOfRun(a, run);
    CollapseJoin(a + run, b);
  }

  predicate Edges(s: string) { forall i :: 0 <= i < |s| ==> s[i] == '-' || s[i] == '.' }

  lemma {:induction false} TrimLeftIs(s: string) returns (cut: string)
    ensures Edges(cut) && s == cut + TrimLeft(s)
  {
    cut := "";
    if s != "" && s[0] in {'-', '.'} {
      var rest := TrimLeftIs(s[1..]);
      cut := [s[0]] + rest;
    }
  }

  lemma {:induction false} TrimRightIs(s: string) returns (cut: string)
    ensures Edges(cut) && s == TrimRight(s) + cut
  {
    cut := "";
    if s != "" && s[|s| - 1] in {'-', '.'} {
      var rest := TrimRightIs(s[..|s| - 1]);
      cut := rest + [s[|s| - 1]];
    }
  }

  // ----- a slug says what the name says

  predicate IsLetter(c: char) { 'a' <= c <= 'z' || '0' <= c <= '9' || c == '_' }

  /** The letters, digits and underscores, in order. */
  function Letters(s: string): string {
    if s == "" then "" else Letters(s[..|s| - 1]) + if IsLetter(s[|s| - 1]) then [s[|s| - 1]] else ""
  }

  lemma {:induction false} LettersJoin(a: string, b: string)
    ensures Letters(a + b) == Letters(a) + Letters(b)
  {
    if b == "" {
      assert a + b == a;
    } else {
      var s := a + b;
      assert s[..|s| - 1] == a + b[..|b| - 1];
      LettersJoin(a, b[..|b| - 1]);
    }
  }

  lemma {:induction false} EdgesHaveNoLetters(s: string)
    requires Edges(s)
    ensures Letters(s) == ""
  {
    if s != "" {
      EdgesHaveNoLetters(s[..|s| - 1]);
    }
  }

  lemma {:induction false} HyphenateKeepsLetters(s: string)
    ensures Letters(Hyphenate(s)) == Letters(s)
  {
    if s != "" {
      HyphenateKeepsLetters(s[..|s| - 1]);
      OneMoreLetter(Hyphenate(s[..|s| - 1]), s[|s| - 1]);
      OneMoreLetter(Hyphenate(s[..|s| - 1]), '-');
    }
  }

  lemma OneMoreLetter(s: string, c: char)
    ensures Letters(s + [c]) == Letters(s) + if IsLetter(c) then [c] else ""
  {
    assert (s + [c])[..|s|] == s;
  }

  lemma {:induction false} CollapseKeepsLetters(s: string)
    ensures Letters(Collapse(s)) == Letters(s)
  {
    if |s| >= 2 {
      CollapseKeepsLetters(s[..|s| - 1]);
      OneMoreLetter(Collapse(s[..|s| - 1]), s[|s| - 1]);
    }
  }

  lemma UncutKeepsLetters(lowered: string)
    ensures Letters(Uncut(lowered)) == Letters(lowered)
  {
    var hyphenated := Hyphenate(lowered);
    HyphenateKeepsLetters(lowered);
    var left := TrimLeftIs(hyphenated);
    LettersJoin(left, TrimLeft(hyphenated));
    EdgesHaveNoLetters(left);
    var right := TrimRightIs(TrimLeft(hyphenated));
    LettersJoin(TrimRight(TrimLeft(hyphenated)), right);
    EdgesHaveNoLetters(right);
    CollapseKeepsLetters(TrimRight(TrimLeft(hyphenated)));
  }

  lemma {:induction false} LettersAreNoLonger(s: string)
    ensures |Letters(s)| <= |s|
  {
    if s != "" {
      LettersAreNoLonger(s[..|s| - 1]);
    }
  }

  /** A name with two letters or more has a slug, and that has the letters of the lowered name, in
      order: all of them, or as many as come before the cut. */
  lemma SlugKeepsLetters(lower: char -> char, value: Option<string>)
    ensures
      var slug, letters := Slugify(lower, value), Letters(LowerAll(lower, Strip(value.GetOr(""))));
      && (|letters| >= 2 ==> slug != "")
      && (slug != "" ==> Letters(slug) <= letters && (|slug| < 64 ==> Letters(slug) == letters))
  {
    var lowered := LowerAll(lower, Strip(value.GetOr("")));
    var uncut := Uncut(lowered);
    UncutKeepsLetters(lowered);
    LettersAreNoLonger(uncut);
    if |uncut| > 64 {
      assert uncut == uncut[..64] + uncut[64..];
      LettersJoin(uncut[..64], uncut[64..]);
    }
  }

  lemma {:induction false} TrimNothing(s: string)
    requires s != "" ==> s[0] !in {'-', '.'} && s[|s| - 1] !in {'-', '.'}
    ensures TrimRight(TrimLeft(s)) == s
  {
  }

  lemma StripNothing(s: string)
    requires s != "" ==> !IsSpace(s[0]) && !IsSpace(s[|s| - 1])
    ensures Strip(s) == s
  {
  }

  lemma UncutOfSlug(slug: string)
    requires SlugChars(slug) && NoDoubleHyphen(slug)
    requires slug != "" ==> slug[0] !in {'-', '.'} && slug[|slug| - 1] !in {'-', '.'}
    ensures Uncut(slug) == slug
  {
    HyphenateKeeps(slug);
    TrimNothing(slug);
    CollapseKeeps(slug);
  }

  lemma SlugIsNoSpace(c: char)
    requires IsSlugChar(c)
    ensures !IsSpace(c)
  {
  }

  /** A name that is a slug is its own slug. */
  lemma SlugOfSlug(lower: char -> char, slug: string)
    requires 2 <= |slug| <= 64 && SlugChars(slug) && NoDoubleHyphen(slug)
    requires slug[0] !in {'-', '.'} && slug[|slug| - 1] !in {'-', '.'}
    requires forall i :: 0 <= i < |slug| ==> lower(slug[i]) == slug[i]
    ensures Slugify(lower, Some(slug)) == slug
  {
    SlugIsNoSpace(slug[0]);
    SlugIsNoSpace(slug[|slug| - 1]);
    StripNothing(slug);
    UncutOfSlug(slug);
    assert LowerAll(lower, slug) == slug;
  }
}
