/**
 * The marker's CSS transform in the second-version page: it is written as
 * `translateX(<x>px) translateY(<y>px)` and read back with the regular
 * expressions `/translateX\(([^p]+)px\)/` and `/translateY\(([^p]+)px\)/`.
 */
module MarkerText {
  import opened Wrappers

  /** What the number-to-text conversion produces: never empty, and free of
      `p` and `(` (digits, sign, point, exponent, `NaN`, `Infinity`). */
  predicate NumberText(s: string) {
    |s| > 0 && 'p' !in s && '(' !in s
  }

  /** `translateX(${x}px) translateY(${y}px)` */
  function TranslateText(xs: string, ys: string): string {
    "translateX(" + xs + "px) translateY(" + ys + "px)"
  }

  function Opening(axis: char): string {
    "translate" + [axis] + "("
  }

  /** The end of the greedy run of non-`p` characters starting at `j`. */
  function RunEnd(s: string, j: nat): (e: nat)
    requires j <= |s|
    ensures j <= e <= |s|
    ensures forall k :: j <= k < e ==> s[k] != 'p'
    ensures e < |s| ==> s[e] == 'p'
    decreases |s| - j
  {
    if j == |s| || s[j] == 'p' then j else RunEnd(s, j + 1)
  }

  /**
   * The regular expression anchored at `i`. `[^p]+` is greedy and cannot give
   * characters back usefully: a shorter run would have to be followed by the
   * `p` of `px)`, which the run excludes. So the only candidate is the
   * longest run, and it must be non-empty and followed by `px)`.
   */
  function MatchAt(axis: char, s: string, i: nat): (m: Option<string>)
    requires i <= |s|
    ensures m.Some? ==> i + 11 <= |s| && s[i..i + 11] == Opening(axis)
    ensures m.Some? ==> |m.value| > 0 && 'p' !in m.value
    ensures m.Some? ==> var e := i + 11 + |m.value|;
              e + 3 <= |s| && s[i + 11..e] == m.value && s[e..e + 3] == "px)"
  {
    if i + 11 <= |s| && s[i..i + 11] == Opening(axis) then
      var e := RunEnd(s, i + 11);
      if e > i + 11 && e + 3 <= |s| && s[e..e + 3] == "px)" then Some(s[i + 11..e]) else None
    else None
  }

  /** Conversely, an opening followed by a non-empty run without `p` and then
      `px)` is a match, and the run is what it captures. */
  lemma MatchAtFindsRun(axis: char, s: string, i: nat, e: nat)
    requires i + 11 < e && e + 3 <= |s|
    requires s[i..i + 11] == Opening(axis) && 'p' !in s[i + 11..e] && s[e..e + 3] == "px)"
    ensures MatchAt(axis, s, i) == Some(s[i + 11..e])
  {
    assert forall k :: i + 11 <= k < e ==> s[k] == s[i + 11..e][k - i - 11];
    assert s[e] == s[e..e + 3][0];
    RunEndStopsAt(s, i + 11, e);
  }

  lemma {:induction false} RunEndStopsAt(s: string, j: nat, e: nat)
    requires j <= e < |s| && s[e] == 'p'
    requires forall k :: j <= k < e ==> s[k] != 'p'
    ensures RunEnd(s, j) == e
    decreases e - j
  {
    if j < e {
      RunEndStopsAt(s, j + 1, e);
    }
  }

  /** The leftmost match at or after `i`; `None` is the `null` of `String.match`. */
  function FirstMatch(axis: char, s: string, i: nat): Option<string>
    requires i <= |s|
    decreases |s| - i
  {
    match MatchAt(axis, s, i)
    case Some(run) => Some(run)
    case None => if i == |s| then None else FirstMatch(axis, s, i + 1)
  }

  /** `s.match(/translate<axis>\(([^p]+)px\)/)[1]`, or `None` when there is no match. */
  function MatchTranslate(axis: char, s: string): Option<string> {
    FirstMatch(axis, s, 0)
  }

  lemma {:induction false} SkipNonMatches(axis: char, s: string, i: nat, k: nat)
    requires i <= k <= |s|
    requires forall m :: i <= m < k ==> MatchAt(axis, s, m).None?
    ensures FirstMatch(axis, s, i) == FirstMatch(axis, s, k)
    decreases k - i
  {
    if i < k {
      SkipNonMatches(axis, s, i + 1, k);
    }
  }

  /** The layout of the written transform, piece by piece. */
  lemma TranslateLayout(xs: string, ys: string)
    ensures var t := TranslateText(xs, ys);
      var k := 15 + |xs|;
      && |t| == k + 14 + |ys|
      && t[..11] == "translateX(" && t[11..11 + |xs|] == xs
      && t[11 + |xs|..k] == "px) "
      && t[k..k + 11] == "translateY(" && t[k + 11..k + 11 + |ys|] == ys
      && t[k + 11 + |ys|..] == "px)"
  {
    var t := TranslateText(xs, ys);
    var k := 15 + |xs|;
    var tail := ys + "px)";
    var middle := "px) " + "translateY(" + tail;
    assert t == "translateX(" + xs + middle;
    assert t[11 + |xs|..] == middle;
    assert t[11 + |xs|..k] == middle[..4];
    assert t[k..] == "translateY(" + tail;
    assert t[k + 11..] == tail;
  }

  /** Apart from the two openings, the written transform holds no `(`
      before the start of its `translateY(`. */
  lemma NoParenBetween(xs: string, ys: string, m: nat)
    requires '(' !in xs
    requires 11 <= m < 25 + |xs|
    ensures TranslateText(xs, ys)[m] != '('
  {
    var t := TranslateText(xs, ys);
    TranslateLayout(xs, ys);
    if m < 11 + |xs| {
      assert t[m] == t[11..11 + |xs|][m - 11];
    } else if m < 15 + |xs| {
      assert t[m] == t[11 + |xs|..15 + |xs|][m - 11 - |xs|];
    } else {
      assert t[m] == t[15 + |xs|..26 + |xs|][m - 15 - |xs|];
    }
  }

  lemma ReadX(xs: string, ys: string)
    requires NumberText(xs)
    ensures MatchAt('X', TranslateText(xs, ys), 0) == Some(xs)
  {
    var t := TranslateText(xs, ys);
    TranslateLayout(xs, ys);
    assert t[0..11] == Opening('X');
    var e := RunEnd(t, 11);
    forall k | 11 <= k < 11 + |xs| ensures t[k] != 'p' {
      assert t[k] == t[11..11 + |xs|][k - 11];
    }
    assert t[11 + |xs|] == t[11 + |xs|..15 + |xs|][0];
    assert e == 11 + |xs|;
    assert t[e..e + 3] == t[11 + |xs|..15 + |xs|][..3];
  }

  lemma ReadY(xs: string, ys: string)
    requires NumberText(xs) && NumberText(ys)
    ensures MatchAt('Y', TranslateText(xs, ys), 15 + |xs|) == Some(ys)
  {
    var t := TranslateText(xs, ys);
    var k := 15 + |xs|;
    TranslateLayout(xs, ys);
    assert t[k..k + 11] == Opening('Y');
    var e := RunEnd(t, k + 11);
    forall j | k + 11 <= j < k + 11 + |ys| ensures t[j] != 'p' {
      assert t[j] == t[k + 11..k + 11 + |ys|][j - k - 11];
    }
    assert t[k + 11 + |ys|] == t[k + 11 + |ys|..][0];
    assert e == k + 11 + |ys|;
    assert t[e..e + 3] == t[k + 11 + |ys|..];
  }

  lemma NoEarlierY(xs: string, ys: string, i: nat)
    requires NumberText(xs)
    requires i < 15 + |xs|
    ensures MatchAt('Y', TranslateText(xs, ys), i).None?
  {
    var t := TranslateText(xs, ys);
    TranslateLayout(xs, ys);
    if i == 0 {
      assert t[0..11][9] == 'X' != Opening('Y')[9];
    } else if i + 11 <= |t| {
      NoParenBetween(xs, ys, i + 10);
      assert t[i..i + 11][10] == t[i + 10] != Opening('Y')[10];
    }
  }

  /** Reading the transform back yields exactly the two number texts written,
      because a number's text contains neither `p` nor `(`. */
  lemma ReadBackTranslate(xs: string, ys: string)
    requires NumberText(xs) && NumberText(ys)
    ensures MatchTranslate('X', TranslateText(xs, ys)) == Some(xs)
    ensures MatchTranslate('Y', TranslateText(xs, ys)) == Some(ys)
  {
    var t := TranslateText(xs, ys);
    ReadX(xs, ys);
    forall m | 0 <= m < 15 + |xs| ensures MatchAt('Y', t, m).None? {
      NoEarlierY(xs, ys, m);
    }
    TranslateLayout(xs, ys);
    SkipNonMatches('Y', t, 0, 15 + |xs|);
    ReadY(xs, ys);
  }
}
