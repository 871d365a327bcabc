/** The input normalisers of the root handlers (image_to_video.js and
    text_to_image.js): free-text aspect labels to a ratio token from a fixed
    allow-list, any model name to the one accepted model, and the duration
    clamp. The two files carry the same `inferRatio`; it is defined once here. */
module Normalize {
  import opened JsText
  import opened Relay

  /** The six ratio tokens the root handlers may send. */
  const Allowed: set<string> :=
    {"720:1280", "1080:1920", "1280:720", "1920:1080", "1024:1024", "1080:1080"}

  /** The vertical token, used for portrait labels and as the safe default. */
  const Vertical: string := "720:1280"
  const Horizontal: string := "1280:720"
  const Square: string := "1024:1024"

  predicate HasPortraitLabel(s: string) {
    Contains(s, "9:16") || Contains(s, "reel") || Contains(s, "story") || Contains(s, "portrait")
  }

  predicate HasLandscapeLabel(s: string) {
    Contains(s, "16:9") || Contains(s, "landscape") || Contains(s, "youtube") || Contains(s, "tiktok")
  }

  predicate HasSquareLabel(s: string) {
    Contains(s, "1:1") || Contains(s, "square")
  }

  predicate HasLabel(s: string) {
    HasPortraitLabel(s) || HasLandscapeLabel(s) || HasSquareLabel(s)
  }

  /** The two numbers the pattern `(\d{3,4})\s*[:x]\s*(\d{3,4})` captures. */
  datatype Pair = Pair(width: string, height: string)

  /** Length of the run of digits that starts at `i`. */
  function DigitRun(s: string, i: nat): (n: nat)
    requires i <= |s|
    ensures i + n <= |s|
    decreases |s| - i
  {
    if i < |s| && IsDigit(s[i]) then 1 + DigitRun(s, i + 1) else 0
  }

  /** The run is maximal: all digits, followed by a non-digit or the end. */
  lemma {:induction false} DigitRunMaximal(s: string, i: nat)
    requires i <= |s|
    ensures var n := DigitRun(s, i);
      (forall k :: i <= k < i + n ==> IsDigit(s[k])) && (i + n == |s| || !IsDigit(s[i + n]))
    decreases |s| - i
  {
    if i < |s| && IsDigit(s[i]) {
      DigitRunMaximal(s, i + 1);
    }
  }

  /** First index at or after `i` that is not white space. */
  function SkipSpace(s: string, i: nat): (j: nat)
    requires i <= |s|
    ensures i <= j <= |s|
    decreases |s| - i
  {
    if i < |s| && IsSpace(s[i]) then SkipSpace(s, i + 1) else i
  }

  /** `\s*` taken greedily: everything skipped is white space, and the next character is not. */
  lemma {:induction false} SkipSpaceMaximal(s: string, i: nat)
    requires i <= |s|
    ensures var j := SkipSpace(s, i);
      (forall k :: i <= k < j ==> IsSpace(s[k])) && (j == |s| || !IsSpace(s[j]))
    decreases |s| - i
  {
    if i < |s| && IsSpace(s[i]) {
      SkipSpaceMaximal(s, i + 1);
    }
  }

  /** The pattern anchored at index `i`, with the backtracking of the regular
      expression engine worked out: the first group can only succeed when the
      digit run at `i` has exactly 3 or 4 digits (with 5 or more, both of its
      alternatives leave a digit where `\s*[:x]` is needed); white space is
      taken greedily, which is the only choice that can go on to match; the
      second group takes 4 digits when there are 4, else 3. */
  function MatchAt(s: string, i: nat): (m: Option<Pair>)
    requires i <= |s|
    ensures m.Some? ==> 3 <= |m.value.width| <= 4 && 3 <= |m.value.height| <= 4
  {
    var d1 := DigitRun(s, i);
    if d1 != 3 && d1 != 4 then None
    else
      var k := SkipSpace(s, i + d1);
      if k < |s| && (s[k] == ':' || s[k] == 'x') then
        var j := SkipSpace(s, k + 1);
        var d2 := DigitRun(s, j);
        if d2 < 3 then None
        else Some(Pair(s[i..i + d1], s[j..j + (if d2 > 4 then 4 else d2)]))
      else None
  }

  /** Leftmost index at or after `i` where the pattern matches, or `|s|`. */
  function FirstMatch(s: string, i: nat): (j: nat)
    requires i <= |s|
    ensures i <= j <= |s|
    ensures forall k :: i <= k < j ==> MatchAt(s, k).None?
    ensures j < |s| ==> MatchAt(s, j).Some?
    decreases |s| - i
  {
    if i == |s| then i
    else if MatchAt(s, i).Some? then i
    else FirstMatch(s, i + 1)
  }

  /** `s.match(/(\d{3,4})\s*[:x]\s*(\d{3,4})/)`: the leftmost match, if any. */
  function SearchPair(s: string): (m: Option<Pair>)
    ensures m.None? <==> forall k :: 0 <= k <= |s| ==> MatchAt(s, k).None?
    ensures m.Some? ==>
      exists j :: 0 <= j < |s| && MatchAt(s, j) == m && forall k :: 0 <= k < j ==> MatchAt(s, k).None?
  {
    assert MatchAt(s, |s|).None? by { assert DigitRun(s, |s|) == 0; }
    var j := FirstMatch(s, 0);
    if j < |s| then MatchAt(s, j) else None
  }

  /** `inferRatio`: portrait labels first, then landscape, then square, then a
      raw `W:H` or `WxH` pair if its colon form is allowed, else the vertical default. */
  function InferRatio(input: string): (r: string)
    ensures r in Allowed
  {
    var s := ToLower(input);
    if HasPortraitLabel(s) then Vertical
    else if HasLandscapeLabel(s) then Horizontal
    else if HasSquareLabel(s) then Square
    else match SearchPair(s)
      case Some(p) =>
        var v := p.width + ":" + p.height;
        if v in Allowed then v else Vertical
      case None => Vertical
  }

  /** The lower-cased text of `before + word + after` still contains a
      lower-case `word`. */
  lemma LowerKeepsWord(before: string, word: string, after: string)
    requires forall i :: 0 <= i < |word| ==> !('A' <= word[i] <= 'Z')
    ensures Contains(ToLower(before + word + after), word)
  {
    ToLowerAppend(before + word, after);
    ToLowerAppend(before, word);
    ToLowerOfLower(word);
    ContainsMiddle(ToLower(before), word, ToLower(after));
  }

  /** The labels are written in lower case. */
  lemma LabelIsLower(word: string)
    requires word in {"9:16", "reel", "story", "portrait", "16:9", "landscape", "youtube", "tiktok", "1:1", "square"}
    ensures forall i :: 0 <= i < |word| ==> !('A' <= word[i] <= 'Z')
  {
  }

  /** A portrait label anywhere in the input wins, whatever surrounds it
      (a landscape or square label included). */
  lemma PortraitWins(before: string, word: string, after: string)
    requires word == "9:16" || word == "reel" || word == "story" || word == "portrait"
    ensures InferRatio(before + word + after) == Vertical
  {
    LabelIsLower(word);
    LowerKeepsWord(before, word, after);
    assert HasPortraitLabel(ToLower(before + word + after));
  }

  /** With no portrait label, a landscape label anywhere wins over square
      labels and raw pairs. */
  lemma LandscapeBeatsSquare(before: string, word: string, after: string)
    requires word == "16:9" || word == "landscape" || word == "youtube" || word == "tiktok"
    requires !HasPortraitLabel(ToLower(before + word + after))
    ensures InferRatio(before + word + after) == Horizontal
  {
    LabelIsLower(word);
    LowerKeepsWord(before, word, after);
    assert HasLandscapeLabel(ToLower(before + word + after));
  }

  /** With neither a portrait nor a landscape label, a square label wins over raw pairs. */
  lemma SquareBeatsPair(before: string, word: string, after: string)
    requires word == "1:1" || word == "square"
    requires !HasPortraitLabel(ToLower(before + word + after))
    requires !HasLandscapeLabel(ToLower(before + word + after))
    ensures InferRatio(before + word + after) == Square
  {
    LabelIsLower(word);
    LowerKeepsWord(before, word, after);
    assert HasSquareLabel(ToLower(before + word + after));
  }

  /** Every label contains a character that is neither a digit nor `x`. */
  lemma LabelsNeedForeignChar(s: string)
    requires forall i :: 0 <= i < |s| ==> IsDigit(s[i]) || s[i] == 'x'
    ensures !HasLabel(s)
  {
    assert ':' !in s && 'r' !in s && 's' !in s && 'p' !in s && 'l' !in s && 'y' !in s && 't' !in s;
    if Contains(s, "9:16") { ContainsChars(s, "9:16", ':'); }
    if Contains(s, "16:9") { ContainsChars(s, "16:9", ':'); }
    if Contains(s, "1:1") { ContainsChars(s, "1:1", ':'); }
    if Contains(s, "reel") { ContainsChars(s, "reel", 'r'); }
    if Contains(s, "story") { ContainsChars(s, "story", 's'); }
    if Contains(s, "portrait") { ContainsChars(s, "portrait", 'p'); }
    if Contains(s, "landscape") { ContainsChars(s, "landscape", 'l'); }
    if Contains(s, "youtube") { ContainsChars(s, "youtube", 'y'); }
    if Contains(s, "tiktok") { ContainsChars(s, "tiktok", 't'); }
    if Contains(s, "square") { ContainsChars(s, "square", 's'); }
  }

  /** A run of exactly `n` digits starts at `i`. */
  lemma {:induction false} DigitRunIs(s: string, i: nat, n: nat)
    requires i + n <= |s|
    requires forall k :: i <= k < i + n ==> IsDigit(s[k])
    requires i + n == |s| || !IsDigit(s[i + n])
    ensures DigitRun(s, i) == n
    decreases n
  {
    if n > 0 {
      DigitRunIs(s, i + 1, n - 1);
    }
  }

  /** The run of white space that starts at `i` has exactly `n` characters. */
  lemma {:induction false} SkipSpaceIs(s: string, i: nat, n: nat)
    requires i + n <= |s|
    requires forall k :: i <= k < i + n ==> IsSpace(s[k])
    requires i + n == |s| || !IsSpace(s[i + n])
    ensures SkipSpace(s, i) == i + n
    decreases n
  {
    if n > 0 {
      SkipSpaceIs(s, i + 1, n - 1);
    }
  }

  /** A run of at least `n` digits starts at `i`. */
  lemma {:induction false} DigitRunAtLeast(s: string, i: nat, n: nat)
    requires i + n <= |s|
    requires forall k :: i <= k < i + n ==> IsDigit(s[k])
    ensures DigitRun(s, i) >= n
    decreases n
  {
    if n > 0 {
      DigitRunAtLeast(s, i + 1, n - 1);
    }
  }

  /** The parts of a match of `(\d{3,4})\s*[:x]\s*(\d{3,4})`: the two captured
      digit groups, the white space around the separator, and what follows.
      A three-digit height must not be followed by a digit, since the greedy
      group would have taken it. */
  predicate Captures(w: string, sp1: string, sep: char, sp2: string, h: string, after: string) {
    AllDigits(w) && 3 <= |w| <= 4 && AllSpace(sp1) && (sep == ':' || sep == 'x') &&
    AllSpace(sp2) && AllDigits(h) && 3 <= |h| <= 4 && (|h| == 4 || after == [] || !IsDigit(after[0]))
  }

  /** The text made of those parts, in order. */
  function PatternText(w: string, sp1: string, sep: char, sp2: string, h: string, after: string): (t: string)
    ensures |t| == |w| + |sp1| + 1 + |sp2| + |h| + |after|
  {
    w + (sp1 + ([sep] + (sp2 + (h + after))))
  }

  /** `t` begins with a match of the pattern capturing `w` and `h`. */
  ghost predicate PairShape(t: string, w: string, h: string) {
    exists sp1, sep, sp2, after :: Captures(w, sp1, sep, sp2, h, after) && t == PatternText(w, sp1, sep, sp2, h, after)
  }

  lemma SplitAt(s: string, i: nat, a: string, b: string)
    requires i <= |s| && s[i..] == a + b
    ensures i + |a| <= |s| && s[i..i + |a|] == a && s[i + |a|..] == b
  {
    assert s[i..i + |a|] == (a + b)[..|a|];
  }

  lemma JoinAt(s: string, i: nat, j: nat)
    requires i <= j <= |s|
    ensures s[i..j] + s[j..] == s[i..]
  {
  }

  lemma SliceSpaces(s: string, i: nat, j: nat)
    requires i <= j <= |s|
    ensures AllSpace(s[i..j]) <==> forall q :: i <= q < j ==> IsSpace(s[q])
  {
    assert forall q :: i <= q < j ==> s[q] == s[i..j][q - i];
  }

  lemma SliceDigits(s: string, i: nat, j: nat)
    requires i <= j <= |s|
    ensures AllDigits(s[i..j]) <==> forall q :: i <= q < j ==> IsDigit(s[q])
  {
    assert forall q :: i <= q < j ==> s[q] == s[i..j][q - i];
  }

  /** Positions in `s` that split a match of the pattern starting at `i`:
      digits in `[i, p1)`, white space in `[p1, k)`, the separator at `k`,
      white space in `[k + 1, j)` and digits in `[j, e)`. */
  predicate ScanParts(s: string, i: nat, p1: nat, k: nat, j: nat, e: nat) {
    i <= p1 <= k < j <= e <= |s| && (s[k] == ':' || s[k] == 'x') &&
    (forall q :: i <= q < p1 ==> IsDigit(s[q])) &&
    (forall q :: p1 <= q < k ==> IsSpace(s[q])) &&
    (forall q :: k + 1 <= q < j ==> IsSpace(s[q])) &&
    (forall q :: j <= q < e ==> IsDigit(s[q])) &&
    3 <= p1 - i <= 4 && 3 <= e - j <= 4 && (e - j == 4 || e == |s| || !IsDigit(s[e]))
  }

  /** Where each step of the scan stops, given the parts of a match. */
  lemma ScanStops(s: string, i: nat, p1: nat, k: nat, j: nat, e: nat)
    requires ScanParts(s, i, p1, k, j, e)
    ensures DigitRun(s, i) == p1 - i && SkipSpace(s, p1) == k && SkipSpace(s, k + 1) == j
    ensures DigitRun(s, j) >= e - j && (e - j == 3 ==> DigitRun(s, j) == 3)
  {
    DigitRunIs(s, i, p1 - i);
    SkipSpaceIs(s, p1, k - p1);
    SkipSpaceIs(s, k + 1, j - k - 1);
    DigitRunAtLeast(s, j, e - j);
    if e - j == 3 {
      DigitRunIs(s, j, 3);
    }
  }

  /** The scan at `i` reports the digit groups of the match split at these positions. */
  lemma MatchAtIndices(s: string, i: nat, p1: nat, k: nat, j: nat, e: nat)
    requires ScanParts(s, i, p1, k, j, e)
    ensures MatchAt(s, i) == Some(Pair(s[i..p1], s[j..e]))
  {
    ScanStops(s, i, p1, k, j, e);
    MatchAtSteps(s, i, p1 - i, k, j, e - j);
  }

  /** The scan at `i`, given where each of its steps stops. */
  lemma MatchAtSteps(s: string, i: nat, nw: nat, k: nat, j: nat, nh: nat)
    requires i + nw <= k < j <= |s| - nh && 3 <= nh <= 4
    requires DigitRun(s, i) == nw && (nw == 3 || nw == 4)
    requires SkipSpace(s, i + nw) == k && (s[k] == ':' || s[k] == 'x')
    requires SkipSpace(s, k + 1) == j
    requires var d2 := DigitRun(s, j); d2 >= nh && (nh == 3 ==> d2 == 3)
    ensures MatchAt(s, i) == Some(Pair(s[i..i + nw], s[j..j + nh]))
  {
  }

  /** The scan at `i` finds every match that starts there. */
  lemma MatchAtComplete(s: string, i: nat, w: string, sp1: string, sep: char, sp2: string, h: string, after: string)
    requires i <= |s| && s[i..] == PatternText(w, sp1, sep, sp2, h, after)
    requires Captures(w, sp1, sep, sp2, h, after)
    ensures MatchAt(s, i) == Some(Pair(w, h))
  {
    var k := i + |w| + |sp1|;
    var j := k + 1 + |sp2|;
    PartsOfPattern(s, i, w, sp1, sep, sp2, h, after);
    MatchAtIndices(s, i, i + |w|, k, j, j + |h|);
    assert Pair(s[i..i + |w|], s[j..j + |h|]) == Pair(w, h);
  }

  /** The parts of a match at `i` split `s` at these positions. */
  lemma PartsOfPattern(s: string, i: nat, w: string, sp1: string, sep: char, sp2: string, h: string, after: string)
    requires i <= |s| && s[i..] == PatternText(w, sp1, sep, sp2, h, after)
    requires Captures(w, sp1, sep, sp2, h, after)
    ensures var k := i + |w| + |sp1|; var j := k + 1 + |sp2|;
      ScanParts(s, i, i + |w|, k, j, j + |h|) && s[i..i + |w|] == w && s[j..j + |h|] == h
  {
    PatternSlices(s, i, w, sp1, sep, sp2, h, after);
    PartsOfSlices(s, i, w, sp1, sep, sp2, h, after);
  }

  /** Where each part of a pattern text lies in `s`. */
  lemma PatternSlices(s: string, i: nat, w: string, sp1: string, sep: char, sp2: string, h: string, after: string)
    requires i <= |s| && s[i..] == PatternText(w, sp1, sep, sp2, h, after)
    ensures var k := i + |w| + |sp1|; var e := k + 1 + |sp2| + |h|;
      e <= |s| && s[i..i + |w|] == w && s[i + |w|..k] == sp1 && s[k] == sep &&
      s[k + 1..k + 1 + |sp2|] == sp2 && s[e - |h|..e] == h && s[e..] == after
  {
    var p1 := i + |w|;
    var k := p1 + |sp1|;
    var j := k + 1 + |sp2|;
    SplitAt(s, i, w, sp1 + ([sep] + (sp2 + (h + after))));
    SplitAt(s, p1, sp1, [sep] + (sp2 + (h + after)));
    SplitAt(s, k, [sep], sp2 + (h + after));
    SplitAt(s, k + 1, sp2, h + after);
    SplitAt(s, j, h, after);
    assert s[k] == s[k..k + 1][0];
  }

  /** Slices of `s` that are the parts of a match split it at these positions. */
  lemma PartsOfSlices(s: string, i: nat, w: string, sp1: string, sep: char, sp2: string, h: string, after: string)
    requires var k := i + |w| + |sp1|; var e := k + 1 + |sp2| + |h|;
      e <= |s| && s[i..i + |w|] == w && s[i + |w|..k] == sp1 && s[k] == sep &&
      s[k + 1..k + 1 + |sp2|] == sp2 && s[e - |h|..e] == h && s[e..] == after
    requires Captures(w, sp1, sep, sp2, h, after)
    ensures var k := i + |w| + |sp1|; var j := k + 1 + |sp2|;
      ScanParts(s, i, i + |w|, k, j, j + |h|)
  {
    var k := i + |w| + |sp1|;
    var j := k + 1 + |sp2|;
    var e := j + |h|;
    SliceDigits(s, i, i + |w|);
    SliceSpaces(s, i + |w|, k);
    SliceSpaces(s, k + 1, j);
    SliceDigits(s, j, e);
    assert e < |s| ==> s[e] == after[0];
  }

  /** Every match the scan reports at `i` has the shape of the pattern. */
  lemma MatchAtSound(s: string, i: nat)
    requires i <= |s| && MatchAt(s, i).Some?
    ensures PairShape(s[i..], MatchAt(s, i).value.width, MatchAt(s, i).value.height)
  {
    var k, j, e := MatchAtParts(s, i);
    ShapeFromSlices(s, i, i + DigitRun(s, i), k, j, e);
  }

  /** Where the scan's steps stop when it reports a match at `i`. */
  lemma MatchAtParts(s: string, i: nat) returns (k: nat, j: nat, e: nat)
    requires i <= |s| && MatchAt(s, i).Some?
    ensures var p1 := i + DigitRun(s, i);
      ScanParts(s, i, p1, k, j, e) && MatchAt(s, i) == Some(Pair(s[i..p1], s[j..e]))
  {
    var d1 := DigitRun(s, i);
    k := SkipSpace(s, i + d1);
    j := SkipSpace(s, k + 1);
    var d2 := DigitRun(s, j);
    e := j + (if d2 > 4 then 4 else d2);
    DigitRunMaximal(s, i);
    SkipSpaceMaximal(s, i + d1);
    SkipSpaceMaximal(s, k + 1);
    DigitRunMaximal(s, j);
  }

  /** Slices of `s` with the pattern's parts make a pattern text. */
  lemma ShapeFromSlices(s: string, i: nat, p1: nat, k: nat, j: nat, e: nat)
    requires ScanParts(s, i, p1, k, j, e)
    ensures PairShape(s[i..], s[i..p1], s[j..e])
  {
    JoinParts(s, i, p1, k, j, e);
    CapturesOfParts(s, i, p1, k, j, e);
    var sp1, sep, sp2, after := s[p1..k], s[k], s[k + 1..j], s[e..];
    assert Captures(s[i..p1], sp1, sep, sp2, s[j..e], after) &&
      s[i..] == PatternText(s[i..p1], sp1, sep, sp2, s[j..e], after);
  }

  /** `s[i..]` is the text of its parts at these positions, in order. */
  lemma JoinParts(s: string, i: nat, p1: nat, k: nat, j: nat, e: nat)
    requires i <= p1 <= k < j <= e <= |s|
    ensures s[i..] == PatternText(s[i..p1], s[p1..k], s[k], s[k + 1..j], s[j..e], s[e..])
  {
    JoinAt(s, j, e);
    JoinAt(s, k + 1, j);
    assert [s[k]] + s[k + 1..] == s[k..];
    JoinAt(s, p1, k);
    JoinAt(s, i, p1);
  }

  /** The parts of a match at these positions are what the pattern captures. */
  lemma CapturesOfParts(s: string, i: nat, p1: nat, k: nat, j: nat, e: nat)
    requires ScanParts(s, i, p1, k, j, e)
    ensures Captures(s[i..p1], s[p1..k], s[k], s[k + 1..j], s[j..e], s[e..])
  {
    SliceDigits(s, i, p1);
    SliceSpaces(s, p1, k);
    SliceSpaces(s, k + 1, j);
    SliceDigits(s, j, e);
    assert s[e..] != [] ==> s[e..][0] == s[e];
  }

  /** The scan at `i` reports `w` and `h` exactly when a match of the pattern
      capturing them starts at `i`. */
  lemma MatchAtIff(s: string, i: nat, w: string, h: string)
    requires i <= |s|
    ensures MatchAt(s, i) == Some(Pair(w, h)) <==> PairShape(s[i..], w, h)
  {
    if PairShape(s[i..], w, h) {
      var sp1, sep, sp2, after :| Captures(w, sp1, sep, sp2, h, after) && s[i..] == PatternText(w, sp1, sep, sp2, h, after);
      MatchAtComplete(s, i, w, sp1, sep, sp2, h, after);
    }
    if MatchAt(s, i) == Some(Pair(w, h)) {
      MatchAtSound(s, i);
    }
  }

  /** The leftmost match is at `j` when it matches there and nowhere before. */
  lemma FirstMatchIs(s: string, j: nat)
    requires j < |s| && MatchAt(s, j).Some?
    requires forall k :: 0 <= k < j ==> MatchAt(s, k).None?
    ensures SearchPair(s) == MatchAt(s, j)
  {
    assert FirstMatch(s, 0) == j;
  }

  /** A raw pair inside other text, written `W:H`, `WxH` or `WXH` with any white
      space around the separator, after text with no digit and with no label
      anywhere, is read as `W:H` when that is allowed, else as the vertical default. */
  lemma RawPairUsesColonForm(before: string, w: string, sp1: string, sep: char, sp2: string, h: string, after: string)
    requires NoDigit(before)
    requires AllDigits(w) && 3 <= |w| <= 4 && AllSpace(sp1) && AllSpace(sp2) && AllDigits(h) && 3 <= |h| <= 4
    requires sep == ':' || sep == 'x' || sep == 'X'
    requires |h| == 4 || after == [] || !IsDigit(after[0])
    requires !HasLabel(ToLower(before + PatternText(w, sp1, sep, sp2, h, after)))
    ensures InferRatio(before + PatternText(w, sp1, sep, sp2, h, after)) ==
      if w + ":" + h in Allowed then w + ":" + h else Vertical
  {
    var lb, la := ToLower(before), ToLower(after);
    LowerOfPair(before, w, sp1, sep, sp2, h, after);
    assert NoDigit(lb);
    assert Captures(w, sp1, LowerChar(sep), sp2, h, la);
    PairAfterPlainText(lb, w, sp1, LowerChar(sep), sp2, h, la);
  }

  /** After text with no digit, the leftmost match is the pattern that follows it. */
  lemma PairAfterPlainText(before: string, w: string, sp1: string, sep: char, sp2: string, h: string, after: string)
    requires NoDigit(before) && Captures(w, sp1, sep, sp2, h, after)
    ensures SearchPair(before + PatternText(w, sp1, sep, sp2, h, after)) == Some(Pair(w, h))
  {
    var t := PatternText(w, sp1, sep, sp2, h, after);
    var s := before + t;
    assert s[|before|..] == t;
    MatchAtComplete(s, |before|, w, sp1, sep, sp2, h, after);
    forall k | 0 <= k < |before| ensures MatchAt(s, k).None? {
      assert s[k] == before[k];
      NoMatchAtNonDigit(s, k);
    }
    FirstMatchIs(s, |before|);
  }

  /** The pattern cannot start at a character that is not a digit. */
  lemma NoMatchAtNonDigit(s: string, k: nat)
    requires k < |s| && !IsDigit(s[k])
    ensures MatchAt(s, k).None?
  {
    assert DigitRun(s, k) == 0;
  }

  /** Lower-casing a raw pair in text lower-cases only the text around it and the separator. */
  lemma LowerOfPair(before: string, w: string, sp1: string, sep: char, sp2: string, h: string, after: string)
    requires AllDigits(w) && AllSpace(sp1) && AllSpace(sp2) && AllDigits(h)
    ensures ToLower(before + PatternText(w, sp1, sep, sp2, h, after)) ==
      ToLower(before) + PatternText(w, sp1, LowerChar(sep), sp2, h, ToLower(after))
  {
    var r4 := h + after;
    var r3 := sp2 + r4;
    var r2 := [sep] + r3;
    var r1 := sp1 + r2;
    ToLowerAppend(before, w + r1);
    ToLowerAppend(w, r1);
    ToLowerAppend(sp1, r2);
    ToLowerAppend([sep], r3);
    ToLowerAppend(sp2, r4);
    ToLowerAppend(h, after);
    ToLowerOfLower(w);
    ToLowerOfLower(sp1);
    ToLowerOfLower(sp2);
    ToLowerOfLower(h);
  }

  /** A bare `WxH` text holds no label, so it is read as `W:H` when that is
      allowed, else as the vertical default. */
  lemma BarePairUsesColonForm(w: string, h: string)
    requires AllDigits(w) && AllDigits(h) && 3 <= |w| <= 4 && 3 <= |h| <= 4
    ensures InferRatio(w + "x" + h) == if w + ":" + h in Allowed then w + ":" + h else Vertical
  {
    BarePairText(w, 'x', h);
    LabelsNeedForeignChar(w + "x" + h);
    BarePairRead(w, 'x', h);
  }

  /** A bare pair with no label in it is read through its colon form. */
  lemma BarePairRead(w: string, sep: char, h: string)
    requires AllDigits(w) && AllDigits(h) && 3 <= |w| <= 4 && 3 <= |h| <= 4 && (sep == ':' || sep == 'x')
    requires !HasLabel(w + [sep] + h)
    ensures InferRatio(w + [sep] + h) == if w + ":" + h in Allowed then w + ":" + h else Vertical
  {
    var t := w + [sep] + h;
    BarePairText(w, sep, h);
    ToLowerOfLower(t);
    RawPairUsesColonForm("", w, "", sep, "", h, "");
  }

  /** A bare pair is a pattern text with nothing around it, made of digits and its separator. */
  lemma BarePairText(w: string, sep: char, h: string)
    requires AllDigits(w) && AllDigits(h)
    ensures w + [sep] + h == "" + PatternText(w, "", sep, "", h, "")
    ensures forall i :: 0 <= i < |w + [sep] + h| ==> IsDigit((w + [sep] + h)[i]) || (w + [sep] + h)[i] == sep
  {
    var t := w + [sep] + h;
    forall i | 0 <= i < |t| ensures IsDigit(t[i]) || t[i] == sep {
      if i < |w| { assert t[i] == w[i]; }
      else if i > |w| { assert t[i] == h[i - |w| - 1]; }
    }
  }

  /** Text with no label and no raw pair falls back to the vertical default. */
  lemma UnrecognisedIsVertical(input: string)
    requires !HasLabel(ToLower(input))
    requires SearchPair(ToLower(input)).None?
    ensures InferRatio(input) == Vertical
  {
  }

  /** A label that has a colon at index `j` needs a colon in `s` right
      after the character the label has before its colon. */
  lemma ColonLabelNeeds(s: string, word: string, j: nat)
    requires Contains(s, word) && 0 < j < |word| && word[j] == ':'
    ensures exists c :: 0 < c < |s| && s[c] == ':' && s[c - 1] == word[j - 1]
  {
    ContainsAt(s, word);
    var k :| OccursAt(s, word, k);
    assert s[k + j] == s[k..k + |word|][j];
    assert s[k + j - 1] == s[k..k + |word|][j - 1];
  }

  /** A digit pair `w:h` holds no label when `w` does not end in 1, 6 or 9:
      the letter labels need a letter, and each colon label puts 1, 6 or 9
      before its colon. */
  lemma PairHasNoLabel(w: string, h: string)
    requires AllDigits(w) && AllDigits(h) && |w| > 0
    requires w[|w| - 1] != '1' && w[|w| - 1] != '6' && w[|w| - 1] != '9'
    ensures !HasLabel(w + ":" + h)
  {
    var s := w + ":" + h;
    forall i | 0 <= i < |s| ensures IsDigit(s[i]) || (i == |w| && s[i] == ':') {
      if i < |w| { assert s[i] == w[i]; }
      else if i > |w| { assert s[i] == h[i - |w| - 1]; }
    }
    assert 'r' !in s && 's' !in s && 'p' !in s && 'l' !in s && 'y' !in s && 't' !in s;
    if Contains(s, "9:16") { ColonLabelNeeds(s, "9:16", 1); }
    if Contains(s, "16:9") { ColonLabelNeeds(s, "16:9", 2); }
    if Contains(s, "1:1") { ColonLabelNeeds(s, "1:1", 1); }
    if Contains(s, "reel") { ContainsChars(s, "reel", 'r'); }
    if Contains(s, "story") { ContainsChars(s, "story", 's'); }
    if Contains(s, "portrait") { ContainsChars(s, "portrait", 'p'); }
    if Contains(s, "landscape") { ContainsChars(s, "landscape", 'l'); }
    if Contains(s, "youtube") { ContainsChars(s, "youtube", 'y'); }
    if Contains(s, "tiktok") { ContainsChars(s, "tiktok", 't'); }
    if Contains(s, "square") { ContainsChars(s, "square", 's'); }
  }

  /** An allowed `w:h` token whose `w` does not end in 1, 6 or 9 is read as itself. */
  lemma ColonPairIsFixed(w: string, h: string)
    requires AllDigits(w) && AllDigits(h) && 3 <= |w| <= 4 && 3 <= |h| <= 4
    requires w[|w| - 1] != '1' && w[|w| - 1] != '6' && w[|w| - 1] != '9'
    requires w + ":" + h in Allowed
    ensures InferRatio(w + ":" + h) == w + ":" + h
  {
    PairHasNoLabel(w, h);
    BarePairRead(w, ':', h);
  }

  /** Every allowed token is a fixed point of `inferRatio`. */
  lemma AllowedIsFixedPoint(t: string)
    requires t in Allowed
    ensures InferRatio(t) == t
  {
    if t == "720:1280" {
      assert t == "720" + ":" + "1280";
      ColonPairIsFixed("720", "1280");
    } else if t == "1080:1920" {
      assert t == "1080" + ":" + "1920";
      ColonPairIsFixed("1080", "1920");
    } else if t == "1280:720" {
      assert t == "1280" + ":" + "720";
      ColonPairIsFixed("1280", "720");
    } else if t == "1920:1080" {
      assert t == "1920" + ":" + "1080";
      ColonPairIsFixed("1920", "1080");
    } else if t == "1024:1024" {
      assert t == "1024" + ":" + "1024";
      ColonPairIsFixed("1024", "1024");
    } else {
      assert t == "1080" + ":" + "1080";
      ColonPairIsFixed("1080", "1080");
    }
  }

  /** Normalising twice is normalising once. */
  lemma InferRatioIdempotent(input: string)
    ensures InferRatio(InferRatio(input)) == InferRatio(input)
  {
    AllowedIsFixedPoint(InferRatio(input));
  }

  /** `normalizeModel`: gen4 variants, gen3 variants (upgraded) and anything else
      all become `gen4_turbo`. */
  function NormalizeModel(raw: string): (m: string)
    ensures m == "gen4_turbo"
  {
    var s := ToLower(raw);
    if Contains(s, "gen4") then "gen4_turbo"
    else if Contains(s, "gen3") then "gen4_turbo"
    else "gen4_turbo"
  }

  lemma NormalizeModelIdempotent(raw: string)
    ensures NormalizeModel(NormalizeModel(raw)) == NormalizeModel(raw)
  {
  }

  /** The maximum duration, in seconds, the root video handler sends. */
  const MaxDuration: int := 10
  const DefaultDuration: int := 5

  /** The duration expression of the root video handler. `None` stands for a
      missing or non-numeric field, for which `Number(...) > 0` is false. */
  function ClampDuration(d: Option<int>): (r: int)
    ensures 0 < r <= MaxDuration
    ensures d.Some? && d.value > 0 ==> r == (if d.value < MaxDuration then d.value else MaxDuration)
    ensures (d.None? || d.value <= 0) ==> r == DefaultDuration
  {
    if d.Some? && d.value > 0 then (if d.value < MaxDuration then d.value else MaxDuration)
    else DefaultDuration
  }
}
