/**
 * The floor-label helpers of the pages: `String(floor).endsWith('F') ? floor
 * : floor + 'F'`, the `urlFloor.replace('F', '')` that turns a page label back
 * into a database floor, and the image and navigation URL templates.
 */
module Labels {
  import opened Wrappers


  predicate EndsWithF(s: string) {
    |s| > 0 && s[|s| - 1] == 'F'
  }

  /** The label of a floor as the image names and the title bar show it. */
  function NormaliseFloor(floor: string): (shown: string)
    ensures EndsWithF(shown)
    ensures |floor| <= |shown| <= |floor| + 1 && shown[..|floor|] == floor
    ensures |shown| == |floor| <==> EndsWithF(floor)
  {
    if EndsWithF(floor) then floor else floor + "F"
  }

  lemma NormaliseIsIdempotent(floor: string)
    ensures NormaliseFloor(NormaliseFloor(floor)) == NormaliseFloor(floor)
  {
  }

  /** JavaScript's `s.replace('F', '')`: a string pattern replaces only its
      first occurrence. */
  function StripFirstF(s: string): (r: string)
    ensures |r| == if 'F' in s then |s| - 1 else |s|
    ensures 'F' !in s ==> r == s
  {
    if s == [] then []
    else if s[0] == 'F' then s[1..]
    else [s[0]] + StripFirstF(s[1..])
  }

  /** The character removed is the first `F`: what precedes it holds none. */
  lemma {:induction false} StripRemovesFirstF(s: string)
    requires 'F' in s
    ensures exists i :: WitnessFirstF(s, i)
  {
    if s[0] == 'F' {
      assert s[..0] + s[1..] == s[1..];
      assert 'F' !in s[..0];
      assert WitnessFirstF(s, 0);
    } else {
      StripRemovesFirstF(s[1..]);
      var j :| WitnessFirstF(s[1..], j);
      WitnessShifts(s, j);
    }
  }

  /** A first `F` at `j` in the tail of a string that does not start with
      one is its first `F` at `j + 1`. */
  lemma WitnessShifts(s: string, j: int)
    requires |s| > 0 && s[0] != 'F' && WitnessFirstF(s[1..], j)
    ensures WitnessFirstF(s, j + 1)
  {
    var t := s[1..];
    assert s[..j + 1] == [s[0]] + t[..j];
    assert s[j + 2..] == t[j + 1..];
  }

  ghost predicate WitnessFirstF(s: string, i: int) {
    0 <= i < |s| && s[i] == 'F' && 'F' !in s[..i] && StripFirstF(s) == s[..i] + s[i + 1..]
  }

  /** Only the first `F` goes: stripping a label that already held one leaves
      the appended `F` in place. */
  lemma {:induction false} StripAppendedF(floor: string)
    ensures StripFirstF(floor + "F") == if 'F' in floor then StripFirstF(floor) + "F" else floor
  {
    if floor != [] {
      assert (floor + "F")[1..] == floor[1..] + "F";
      StripAppendedF(floor[1..]);
      if floor[0] != 'F' {
        assert 'F' in floor <==> 'F' in floor[1..];
      }
    }
  }

  /** A page reached with `floor=<f>F` for a database floor `f` without an `F`
      works with `f` again and loads the image of label `fF`. */
  lemma HandedOffLabel(floor: string)
    requires 'F' !in floor
    ensures StripFirstF(floor + "F") == floor
    ensures NormaliseFloor(StripFirstF(floor + "F")) == floor + "F"
  {
    StripAppendedF(floor);
  }

  /** `images/${building}_${label}.png` */
  function ImageUrl(building: string, floorLabel: string): (url: string)
    ensures |url| == 12 + |building| + |floorLabel|
    ensures url[..7] == "images/" && url[|url| - 4..] == ".png"
    ensures url[7..7 + |building|] == building && url[7 + |building|] == '_'
    ensures url[8 + |building|..|url| - 4] == floorLabel
  {
    "images/" + building + "_" + floorLabel + ".png"
  }

  /** Different floors of buildings whose names hold no `_` load different
      images. */
  lemma ImageUrlIsInjective(b1: string, l1: string, b2: string, l2: string)
    requires '_' !in b1 && '_' !in b2
    requires ImageUrl(b1, l1) == ImageUrl(b2, l2)
    ensures b1 == b2 && l1 == l2
  {
    var u := ImageUrl(b1, l1);
    assert forall k :: 0 <= k < |b1| ==> u[7 + k] == b1[k];
    assert forall k :: 0 <= k < |b2| ==> u[7 + k] == b2[k];
    assert |b1| == |b2|;
    assert u[8 + |b1|..|u| - 4] == l1;
  }

  /** `floor.html?building=${building}&floor=${floor}` with the label suffix
      the variant adds (`F` or nothing). */
  function NavigationUrl(building: string, floor: string, suffix: string): (url: string)
    ensures |url| == 27 + |building| + |floor| + |suffix|
    ensures url[..20] == "floor.html?building="
    ensures url[20..20 + |building|] == building
    ensures url[20 + |building|..27 + |building|] == "&floor="
    ensures url[27 + |building|..] == floor + suffix
  {
    "floor.html?building=" + building + "&floor=" + floor + suffix
  }

  // Reading a query parameter back, as `URLSearchParams.get` does for the
  // URLs these pages build.

  /** The first position of `c` in `s`, or `|s|` when there is none. */
  function IndexOf(s: string, c: char): (i: nat)
    ensures i <= |s|
    ensures i == |s| <==> c !in s
    ensures i < |s| ==> s[i] == c
    ensures c !in s[..i]
  {
    if s == [] then 0
    else if s[0] == c then 0
    else
      var j := IndexOf(s[1..], c);
      assert s[..j + 1] == [s[0]] + s[1..][..j];
      j + 1
  }

  /** `s.split(c)` */
  function SplitOn(s: string, c: char): (parts: seq<string>)
    ensures |parts| > 0
    decreases |s|
  {
    var i := IndexOf(s, c);
    if i == |s| then [s] else [s[..i]] + SplitOn(s[i + 1..], c)
  }

  /** The text after the first `?`, or nothing. */
  function QueryOf(url: string): string {
    var i := IndexOf(url, '?');
    if i == |url| then "" else url[i + 1..]
  }

  /** The value of the first `name=value` pair whose name is `name`; a pair
      without `=` has the empty value; `None` is `null`. */
  function ParamValue(pairs: seq<string>, name: string): Option<string> {
    if pairs == [] then None
    else
      var pair := pairs[0];
      var k := IndexOf(pair, '=');
      if pair[..k] == name then Some(if k == |pair| then "" else pair[k + 1..])
      else ParamValue(pairs[1..], name)
  }

  /** `new URLSearchParams(search).get(name)` */
  function UrlParam(url: string, name: string): Option<string> {
    ParamValue(SplitOn(QueryOf(url), '&'), name)
  }

  lemma IndexOfFirst(a: string, c: char, b: string)
    requires c !in a
    ensures IndexOf(a + [c] + b, c) == |a|
  {
    var s := a + [c] + b;
    assert s[|a|] == c;
    assert s[..|a|] == a;
    assert forall k :: 0 <= k < |a| ==> s[k] == a[k];
  }

  lemma SplitFirst(a: string, c: char, b: string)
    requires c !in a
    ensures SplitOn(a + [c] + b, c) == [a] + SplitOn(b, c)
  {
    var s := a + [c] + b;
    IndexOfFirst(a, c, b);
    assert s[..|a|] == a;
    assert s[|a| + 1..] == b;
  }

  /** A pair `name=value` has the name `name` when the name holds no `=`. */
  lemma PairValue(name: string, value: string, rest: seq<string>)
    requires '=' !in name
    ensures ParamValue([name + "=" + value] + rest, name) == Some(value)
  {
    var pair := name + "=" + value;
    IndexOfFirst(name, '=', value);
    assert pair[..|name|] == name;
    assert pair[|name| + 1..] == value;
  }

  /** The query of a navigation URL is everything after `floor.html?`. */
  lemma NavigationQuery(building: string, fs: string)
    ensures QueryOf("floor.html?building=" + building + "&floor=" + fs) ==
            ("building=" + building) + "&" + ("floor=" + fs)
  {
    var query := ("building=" + building) + "&" + ("floor=" + fs);
    assert "floor.html?building=" + building + "&floor=" + fs == "floor.html" + "?" + query;
    IndexOfFirst("floor.html", '?', query);
  }

  /** The query splits into its two pairs. */
  lemma NavigationPairs(building: string, fs: string)
    requires '&' !in building && '&' !in fs
    ensures SplitOn(("building=" + building) + "&" + ("floor=" + fs), '&') ==
            ["building=" + building, "floor=" + fs]
  {
    var second := "floor=" + fs;
    assert forall k :: 6 <= k < |second| ==> second[k] == fs[k - 6];
    assert '&' !in second;
    SplitFirst("building=" + building, '&', second);
  }

  /** A pair whose name differs is passed over. */
  lemma SkipPair(first: string, rest: seq<string>, name: string)
    requires first[..IndexOf(first, '=')] != name
    ensures ParamValue([first] + rest, name) == ParamValue(rest, name)
  {
    assert ([first] + rest)[1..] == rest;
  }

  lemma NavigationParams(building: string, fs: string)
    requires '&' !in building && '&' !in fs
    ensures SplitOn(QueryOf("floor.html?building=" + building + "&floor=" + fs), '&') ==
            ["building=" + building, "floor=" + fs]
  {
    NavigationQuery(building, fs);
    NavigationPairs(building, fs);
  }

  /** Reading the two pairs of a navigation query. */
  lemma NavigationPairValues(building: string, fs: string)
    ensures ParamValue(["building=" + building, "floor=" + fs], "building") == Some(building)
    ensures ParamValue(["building=" + building, "floor=" + fs], "floor") == Some(fs)
  {
    var first, second := "building=" + building, "floor=" + fs;
    PairValue("building", building, [second]);
    PairValue("floor", fs, []);
    assert "floor" + "=" + fs == second;
    IndexOfFirst("building", '=', building);
    assert first == "building" + "=" + building;
    assert first[..8] == "building";
    SkipPair(first, [second], "floor");
    assert [first, second] == [first] + [second];
  }

  /**
   * The page reached through `NavigationUrl(building, floor, suffix)` reads
   * back exactly `building` and `floor + suffix` as its `building` and
   * `floor` parameters, provided those hold no `&` (which would split them).
   */
  lemma NavigationUrlReadsBack(building: string, floor: string, suffix: string)
    requires '&' !in building && '&' !in floor + suffix
    ensures UrlParam(NavigationUrl(building, floor, suffix), "building") == Some(building)
    ensures UrlParam(NavigationUrl(building, floor, suffix), "floor") == Some(floor + suffix)
  {
    var fs := floor + suffix;
    assert NavigationUrl(building, floor, suffix) == "floor.html?building=" + building + "&floor=" + fs;
    NavigationParams(building, fs);
    NavigationPairValues(building, fs);
  }
}
