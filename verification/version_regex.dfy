/** The version pattern of src/Version.php:44,
      (\d+)\.(\d+)\.(\d+)(?:-((?:dev|beta|b|alpha|a|rc)(?:\.?\d+)?))?(?:\+(.+))?   with flag i,
    as a deterministic matcher. Everything after the third number is optional and
    can always match the empty string, so backtracking never revisits a choice once
    the three numbers are found: each number is the maximal digit run, the stage is the
    first alternative (in the order written, ignoring case) that fits, its counter is
    the maximal digit run after an optional dot, and the build is the rest of the line.

    Each reader below returns where its part of the pattern ends; an optional part
    that is absent ends where it starts. */
module VersionRegex {
  import opened Results
  import opened Numerals

  /** ASCII case folding, as the `i` flag applies it to the stage words. */
  function Lower(c: char): char {
    if 'A' <= c <= 'Z' then (c as int + 32) as char else c
  }

  /** The character at `j` with its case folded, or a space past the end of `s`
      (a space matches none of the stage letters). */
  function Folded(s: string, j: nat): char {
    if j < |s| then Lower(s[j]) else ' '
  }

  /** Where the stage word read at `i` ends (`i` itself when none fits): the
      alternatives `dev|beta|b|alpha|a|rc` are tried in this order, ignoring case, and
      the first that fits wins (so `beta` is preferred to `b`, `alpha` to `a`). */
  function StageWordEnd(s: string, i: nat): (k: nat)
    requires i <= |s|
    ensures i <= k <= |s|
  {
    var c0, c1, c2, c3, c4 := Folded(s, i), Folded(s, i + 1), Folded(s, i + 2), Folded(s, i + 3), Folded(s, i + 4);
    if c0 == 'd' && c1 == 'e' && c2 == 'v' then i + 3
    else if c0 == 'b' && c1 == 'e' && c2 == 't' && c3 == 'a' then i + 4
    else if c0 == 'b' then i + 1
    else if c0 == 'a' && c1 == 'l' && c2 == 'p' && c3 == 'h' && c4 == 'a' then i + 5
    else if c0 == 'a' then i + 1
    else if c0 == 'r' && c1 == 'c' then i + 2
    else i
  }

  /** The words of the stage alternation, in the order the pattern writes them. */
  const StageWords: seq<string> := ["dev", "beta", "b", "alpha", "a", "rc"]

  /** `w` is written at `i` of `s`, ignoring case (a word holding no space cannot run
      past the end, where `Folded` reads spaces). */
  predicate Spells(s: string, i: nat, w: string) {
    forall j :: 0 <= j < |w| ==> Folded(s, i + j) == w[j]
  }

  /** For a word of at most five letters, being spelled is a comparison of its letters
      with the folded characters at `i`. */
  lemma SpellsLetters(s: string, i: nat, w: string)
    requires |w| <= 5
    ensures Spells(s, i, w) <==>
      && (|w| > 0 ==> Folded(s, i) == w[0])
      && (|w| > 1 ==> Folded(s, i + 1) == w[1])
      && (|w| > 2 ==> Folded(s, i + 2) == w[2])
      && (|w| > 3 ==> Folded(s, i + 3) == w[3])
      && (|w| > 4 ==> Folded(s, i + 4) == w[4])
  {
    if !Spells(s, i, w) {
      var j :| 0 <= j < |w| && Folded(s, i + j) != w[j];
      assert j == 0 || j == 1 || j == 2 || j == 3 || j == 4;
    }
  }

  /** The stage word read at `i` is the first alternative, in the order written, that
      is spelled there, and none is read exactly when none is spelled. */
  lemma StageWordEndFirstFit(s: string, i: nat)
    requires i <= |s|
    ensures StageWordEnd(s, i) == i <==> forall n :: 0 <= n < |StageWords| ==> !Spells(s, i, StageWords[n])
    ensures StageWordEnd(s, i) > i ==>
      exists n :: 0 <= n < |StageWords| && Spells(s, i, StageWords[n]) && StageWordEnd(s, i) == i + |StageWords[n]|
        && forall m :: 0 <= m < n ==> !Spells(s, i, StageWords[m])
  {
    SpellsLetters(s, i, "dev");
    SpellsLetters(s, i, "beta");
    SpellsLetters(s, i, "b");
    SpellsLetters(s, i, "alpha");
    SpellsLetters(s, i, "a");
    SpellsLetters(s, i, "rc");
    var k := StageWordEnd(s, i);
    var n := if k == i then 0
      else if Spells(s, i, "dev") then 0 else if Spells(s, i, "beta") then 1 else if Spells(s, i, "b") then 2
      else if Spells(s, i, "alpha") then 3 else if Spells(s, i, "a") then 4 else 5;
    assert k > i ==> Spells(s, i, StageWords[n]) && k == i + |StageWords[n]|;
    assert forall m :: 0 <= m < n ==> !Spells(s, i, StageWords[m]);
  }

  /** The end of `(?:\.?\d+)?` read from `w`: a dot is taken only when digits follow it. */
  function CounterEnd(s: string, w: nat): (k: nat)
    requires w <= |s|
    ensures w <= k <= |s|
  {
    if w < |s| && s[w] == '.' && DigitRunEnd(s, w + 1) > w + 1 then DigitRunEnd(s, w + 1)
    else DigitRunEnd(s, w)
  }

  /** The end of the optional `-stage` part at `d`; capture group 4 is the text after
      the `-`, and the part is absent (ends at `d`) unless a stage word follows. */
  function PreEnd(s: string, d: nat): (k: nat)
    requires d <= |s|
    ensures d <= k <= |s| && (k == d || d + 1 < k)
  {
    if d < |s| && s[d] == '-' then
      var w := StageWordEnd(s, d + 1);
      if w == d + 1 then d else CounterEnd(s, w)
    else d
  }

  /** The first line break at or after `i`, or the end: where `.+` stops. */
  function LineEnd(s: string, i: nat): (k: nat)
    requires i <= |s|
    ensures i <= k <= |s|
    ensures k == |s| || s[k] == '\n'
    decreases |s| - i
  {
    if i < |s| && s[i] != '\n' then LineEnd(s, i + 1) else i
  }

  /** `.+` never crosses a line break. */
  lemma {:induction false} LineEndNoBreak(s: string, i: nat)
    requires i <= |s|
    ensures forall j :: i <= j < LineEnd(s, i) ==> s[j] != '\n'
    decreases |s| - i
  {
    if i < |s| && s[i] != '\n' {
      LineEndNoBreak(s, i + 1);
    }
  }

  /** The end of the optional `+build` part at `e`: present when `+` and at least one
      character of the same line follow; capture group 5 is the text after the `+`. */
  function BuildEnd(s: string, e: nat): (k: nat)
    requires e <= |s|
    ensures e <= k <= |s| && (k == e || e + 1 < k)
  {
    if e + 1 < |s| && s[e] == '+' && s[e + 1] != '\n' then LineEnd(s, e + 1) else e
  }

  /** `\d+\.` at `i`: where the digits end when a dot follows them, else `i`. */
  function DottedEnd(s: string, i: nat): (k: nat)
    requires i <= |s|
    ensures i <= k <= |s| && (k == i || (k < |s| && s[k] == '.'))
  {
    var k := DigitRunEnd(s, i);
    if k > i && k < |s| && s[k] == '.' then k else i
  }

  /** Where the three numbers `(\d+)\.(\d+)\.(\d+)` end, when they occur at `i`. */
  datatype Numbers = Numbers(d1: nat, d2: nat, d3: nat)

  function NumbersAt(s: string, i: nat): (r: Option<Numbers>)
    requires i <= |s|
    ensures r.Some? ==> i < r.value.d1 && r.value.d1 + 1 < r.value.d2 && r.value.d2 + 1 < r.value.d3 <= |s|
    ensures r.Some? ==> s[r.value.d1] == '.' && s[r.value.d2] == '.'
    ensures r.Some? ==> r.value.d3 == |s| || !IsDigit(s[r.value.d3])
  {
    var d1 := DottedEnd(s, i);
    if d1 == i then None
    else
      var d2 := DottedEnd(s, d1 + 1);
      if d2 == d1 + 1 then None
      else
        var d3 := DigitRunEnd(s, d2 + 1);
        if d3 == d2 + 1 then None
        else Some(Numbers(d1, d2, d3))
  }

  /** The three numbers found at `i` are the maximal digit runs of
      `(\d+)\.(\d+)\.(\d+)`: digits only, a dot after each of the first two. */
  lemma NumbersAtDigits(s: string, i: nat)
    requires i <= |s| && NumbersAt(s, i).Some?
    ensures var n := NumbersAt(s, i).value;
      && AllDigits(s[i..n.d1]) && AllDigits(s[n.d1 + 1..n.d2]) && AllDigits(s[n.d2 + 1..n.d3])
      && n.d1 == DigitRunEnd(s, i) && n.d2 == DigitRunEnd(s, n.d1 + 1) && n.d3 == DigitRunEnd(s, n.d2 + 1)
  {
    var n := NumbersAt(s, i).value;
    DigitRunDigits(s, i);
    DigitRunDigits(s, n.d1 + 1);
    DigitRunDigits(s, n.d2 + 1);
  }

  /** One match, as positions: it starts at `start`; the numbers end at `d1`, `d2`,
      `d3`; the `-stage` part ends at `stageEnd` (capture group 4 is present when it
      is longer than `d3`) and the `+build` part at `end` (group 5 is present when
      `end` is past `stageEnd`). */
  datatype Match = Match(start: nat, d1: nat, d2: nat, d3: nat, stageEnd: nat, end: nat) {

    predicate HasPre() {
      stageEnd > d3
    }

    predicate HasBuild() {
      end > stageEnd
    }

    /** The positions are in order, each capture group non-empty. */
    predicate Ordered() {
      && start < d1 && d1 + 1 < d2 && d2 + 1 < d3 <= stageEnd <= end
      && (HasPre() ==> d3 + 1 < stageEnd)
      && (HasBuild() ==> stageEnd + 1 < end)
    }

    /** The positions are in order and inside a text of length `n`. */
    predicate Fits(n: nat) {
      Ordered() && end <= n
    }

    /** The same match seen from a window that starts at `a`. */
    function Shift(a: nat): Match
      requires a <= start && Ordered()
    {
      Match(start - a, d1 - a, d2 - a, d3 - a, stageEnd - a, end - a)
    }
  }

  /** The rest of a match once the three numbers, found at `i`, are known. */
  function MatchFrom(s: string, i: nat, n: Numbers): (m: Match)
    requires n.d3 <= |s|
    ensures m.start == i && m.d3 == n.d3
  {
    var p := PreEnd(s, n.d3);
    Match(i, n.d1, n.d2, n.d3, p, BuildEnd(s, p))
  }

  /** The pattern anchored at `i`. */
  function MatchAt(s: string, i: nat): (r: Option<Match>)
    requires i <= |s|
    ensures r.Some? <==> NumbersAt(s, i).Some?
    ensures r.Some? ==> r.value.start == i && r.value.Fits(|s|)
  {
    match NumbersAt(s, i)
    case None => None
    case Some(n) => Some(MatchFrom(s, i, n))
  }

  /** The text of the five capture groups (`None` for a group that did not take part). */
  datatype Groups = Groups(major: string, minor: string, patch: string, pre: Option<string>, build: Option<string>)

  function GroupsOf(s: string, m: Match): Groups
    requires m.Fits(|s|)
  {
    Groups(s[m.start..m.d1], s[m.d1 + 1..m.d2], s[m.d2 + 1..m.d3],
           if m.HasPre() then Some(s[m.d3 + 1..m.stageEnd]) else None,
           if m.HasBuild() then Some(s[m.stageEnd + 1..m.end]) else None)
  }

  /** The text of capture group 4 as the stage grammar shapes it: a stage word and
      then nothing, a digit run, or a dot and a digit run. */
  predicate PreToken(t: string) {
    var w := StageWordEnd(t, 0);
    w > 0 && CounterEnd(t, w) == |t|
  }

  /** No position of `s` starts a version (by `MatchAt`'s contract, exactly when
      the three numbers are found nowhere). */
  predicate NoVersionIn(s: string) {
    forall i :: 0 <= i <= |s| ==> NumbersAt(s, i).None?
  }

  /** Where the leftmost match at or after `from` starts, as `preg_match` and each
      step of `preg_replace_callback` find it. */
  function Find(s: string, from: nat): (r: Option<nat>)
    requires from <= |s|
    ensures r.Some? ==> from <= r.value <= |s| && MatchAt(s, r.value).Some?
    ensures r.Some? ==> forall i :: from <= i < r.value ==> NumbersAt(s, i).None?
    ensures r.None? <==> forall i :: from <= i <= |s| ==> NumbersAt(s, i).None?
    decreases |s| - from
  {
    if NumbersAt(s, from).Some? then Some(from)
    else if from == |s| then None
    else Find(s, from + 1)
  }

  // ---------------------------------------------------------------------------
  // Windows. The matcher reads only forward from where it starts, and each run it
  // reads stops at a character it inspects; so cutting the text down to a window
  // s[a..b] changes nothing that ends inside the window. Positions `x` below are
  // positions of the whole text; `x - a` is the same place in the window.
  // ---------------------------------------------------------------------------

  lemma SliceOfWindow(s: string, a: nat, b: nat, x: nat, y: nat)
    requires a <= x <= y <= b <= |s|
    ensures s[a..b][x - a..y - a] == s[x..y]
  {
    var l, r := s[a..b][x - a..y - a], s[x..y];
    forall k | 0 <= k < |l|
      ensures l[k] == r[k]
    {
    }
  }

  lemma DigitRunEndWindow(s: string, a: nat, b: nat, x: nat)
    requires a <= x <= b <= |s|
    ensures DigitRunEnd(s[a..b], x - a) + a == Min(DigitRunEnd(s, x), b)
  {
    var K := DigitRunEnd(s, x);
    DigitRunDigits(s, x);
    DigitRunEndIs(s[a..b], x - a, Min(K, b) - a);
  }

  lemma LineEndWindow(s: string, a: nat, b: nat, x: nat)
    requires a <= x <= b <= |s|
    ensures LineEnd(s[a..b], x - a) + a == Min(LineEnd(s, x), b)
    decreases b - x
  {
    if x < b && s[x] != '\n' {
      LineEndWindow(s, a, b, x + 1);
    }
  }

  lemma StageWordEndWindow(s: string, a: nat, b: nat, x: nat)
    requires a <= x <= b <= |s|
    requires StageWordEnd(s, x) <= b
    ensures StageWordEnd(s[a..b], x - a) + a == StageWordEnd(s, x)
  {
  }

  lemma CounterEndWindow(s: string, a: nat, b: nat, x: nat)
    requires a <= x <= b <= |s|
    requires CounterEnd(s, x) <= b
    ensures CounterEnd(s[a..b], x - a) + a == CounterEnd(s, x)
  {
    DigitRunEndWindow(s, a, b, x);
    if x < b {
      DigitRunEndWindow(s, a, b, x + 1);
    }
  }

  lemma PreEndWindow(s: string, a: nat, b: nat, x: nat)
    requires a <= x <= b <= |s|
    requires PreEnd(s, x) <= b
    ensures PreEnd(s[a..b], x - a) == PreEnd(s, x) - a
  {
    if x < b && s[x] == '-' {
      var w := StageWordEnd(s, x + 1);
      assert s[a..b][x - a] == '-';
      StageWordEndWindow(s, a, b, x + 1);
      if w > x + 1 {
        CounterEndWindow(s, a, b, w);
      }
    }
  }

  lemma BuildEndWindow(s: string, a: nat, b: nat, x: nat)
    requires a <= x <= b <= |s|
    requires BuildEnd(s, x) <= b
    ensures BuildEnd(s[a..b], x - a) == BuildEnd(s, x) - a
  {
    if x + 1 < b {
      LineEndWindow(s, a, b, x + 1);
    }
  }

  /** A number followed by a dot is seen in a window exactly when its dot is inside. */
  lemma DottedEndWindow(s: string, a: nat, b: nat, x: nat)
    requires a <= x <= b <= |s|
    ensures DottedEnd(s[a..b], x - a) + a == if DottedEnd(s, x) < b then DottedEnd(s, x) else x
  {
    var w := s[a..b];
    DigitRunEndWindow(s, a, b, x);
    var k := DigitRunEnd(s, x);
    if k < b {
      assert w[k - a] == s[k];
    }
  }

  lemma NumbersAtWindowFound(s: string, a: nat, b: nat, x: nat)
    requires a <= x <= b <= |s|
    requires NumbersAt(s[a..b], x - a).Some?
    ensures NumbersAt(s, x).Some?
  {
    var n := NumbersAt(s[a..b], x - a).value;
    DottedEndWindow(s, a, b, x);
    DottedEndWindow(s, a, b, n.d1 + 1 + a);
    DigitRunEndWindow(s, a, b, n.d2 + 1 + a);
  }

  lemma NumbersAtWindowSame(s: string, a: nat, b: nat, x: nat)
    requires a <= x <= b <= |s|
    requires NumbersAt(s, x).Some? && NumbersAt(s, x).value.d3 <= b
    ensures var n := NumbersAt(s, x).value;
      NumbersAt(s[a..b], x - a) == Some(Numbers(n.d1 - a, n.d2 - a, n.d3 - a))
  {
    var n := NumbersAt(s, x).value;
    NumbersAtEnds(s, x);
    DottedWindowAt(s, a, b, x, n.d1);
    DottedWindowAt(s, a, b, n.d1 + 1, n.d2);
    DigitRunEndWindow(s, a, b, n.d2 + 1);
    NumbersFromEnds(s[a..b], x - a, n.d1 - a, n.d2 - a, n.d3 - a);
  }

  /** The ends of the three numbers, as the readers find them. */
  lemma NumbersAtEnds(s: string, x: nat)
    requires x <= |s| && NumbersAt(s, x).Some?
    ensures var n := NumbersAt(s, x).value;
      && n.d1 == DottedEnd(s, x) && n.d2 == DottedEnd(s, n.d1 + 1) && n.d3 == DigitRunEnd(s, n.d2 + 1)
  {
  }

  /** A number and its dot that end inside a window are read the same there. */
  lemma DottedWindowAt(s: string, a: nat, b: nat, x: nat, k: nat)
    requires a <= x <= b <= |s| && x < k < b && DottedEnd(s, x) == k
    ensures DottedEnd(s[a..b], x - a) == k - a
  {
    DottedEndWindow(s, a, b, x);
  }

  /** The three numbers as the readers find them, one after the other. */
  lemma NumbersFromEnds(t: string, y: nat, d1: nat, d2: nat, d3: nat)
    requires y < d1 <= |t| && d1 == DottedEnd(t, y)
    requires d1 + 1 < d2 <= |t| && d2 == DottedEnd(t, d1 + 1)
    requires d2 + 1 < d3 <= |t| && d3 == DigitRunEnd(t, d2 + 1)
    ensures NumbersAt(t, y) == Some(Numbers(d1, d2, d3))
  {
  }

  /** A version found inside a window is also found, at the same place, in the
      whole text: cutting text away never creates a match. */
  lemma MatchAtWindowFound(s: string, a: nat, b: nat, x: nat)
    requires a <= x <= b <= |s|
    requires MatchAt(s[a..b], x - a).Some?
    ensures MatchAt(s, x).Some?
  {
    NumbersAtWindowFound(s, a, b, x);
  }

  /** The part after the three numbers is read the same way in a window that holds it. */
  lemma MatchFromWindow(s: string, a: nat, b: nat, x: nat, n: Numbers)
    requires a <= x < n.d1 && n.d1 + 1 < n.d2 && n.d2 + 1 < n.d3 <= b <= |s|
    requires BuildEnd(s, PreEnd(s, n.d3)) <= b
    ensures MatchFrom(s[a..b], x - a, Numbers(n.d1 - a, n.d2 - a, n.d3 - a)) == MatchFrom(s, x, n).Shift(a)
  {
    PreEndWindow(s, a, b, n.d3);
    BuildEndWindow(s, a, b, PreEnd(s, n.d3));
  }

  /** A match that ends inside a window is found in the window, shifted. */
  lemma MatchAtWindowSame(s: string, a: nat, b: nat, x: nat)
    requires a <= x <= b <= |s|
    requires MatchAt(s, x).Some? && MatchAt(s, x).value.end <= b
    ensures MatchAt(s[a..b], x - a) == Some(MatchAt(s, x).value.Shift(a))
  {
    var n := NumbersAt(s, x).value;
    NumbersAtWindowSame(s, a, b, x);
    MatchFromWindow(s, a, b, x, n);
  }

  /** The shifted match captures the same text in the window. */
  lemma GroupsOfWindow(s: string, a: nat, b: nat, m: Match)
    requires a <= m.start && m.Fits(|s|) && m.end <= b <= |s|
    ensures m.Shift(a).Fits(b - a)
    ensures GroupsOf(s[a..b], m.Shift(a)) == GroupsOf(s, m)
  {
    var w, k := s[a..b], m.Shift(a);
    assert k.Fits(b - a);
    GroupsOfWindowNumbers(s, a, b, m);
    GroupsOfWindowOptional(s, a, b, m);
  }

  lemma GroupsOfWindowNumbers(s: string, a: nat, b: nat, m: Match)
    requires a <= m.start && m.Fits(|s|) && m.end <= b <= |s|
    ensures m.Shift(a).Fits(b - a)
    ensures var g, h := GroupsOf(s[a..b], m.Shift(a)), GroupsOf(s, m);
      g.major == h.major && g.minor == h.minor && g.patch == h.patch
  {
    SliceOfWindow(s, a, b, m.start, m.d1);
    SliceOfWindow(s, a, b, m.d1 + 1, m.d2);
    SliceOfWindow(s, a, b, m.d2 + 1, m.d3);
  }

  lemma GroupsOfWindowOptional(s: string, a: nat, b: nat, m: Match)
    requires a <= m.start && m.Fits(|s|) && m.end <= b <= |s|
    ensures m.Shift(a).Fits(b - a)
    ensures var g, h := GroupsOf(s[a..b], m.Shift(a)), GroupsOf(s, m);
      g.pre == h.pre && g.build == h.build
  {
    if m.HasPre() {
      SliceOfWindow(s, a, b, m.d3 + 1, m.stageEnd);
    }
    if m.HasBuild() {
      SliceOfWindow(s, a, b, m.stageEnd + 1, m.end);
    }
  }

  /** What capture group 4 holds always has the shape of a stage token. */
  lemma PreCaptureIsToken(s: string, d: nat)
    requires d <= |s| && PreEnd(s, d) > d
    ensures PreToken(s[d + 1..PreEnd(s, d)])
  {
    var p := PreEnd(s, d);
    var w := StageWordEnd(s, d + 1);
    StageWordEndWindow(s, d + 1, p, d + 1);
    CounterEndWindow(s, d + 1, p, w);
  }

  /** How each position of a match is found: the digit runs, then the stage part
      after the patch number, then the build after that. */
  predicate ReadFrom(s: string, m: Match) {
    && m.Fits(|s|)
    && m.d1 == DigitRunEnd(s, m.start)
    && m.d2 == DigitRunEnd(s, m.d1 + 1)
    && m.d3 == DigitRunEnd(s, m.d2 + 1)
    && m.stageEnd == PreEnd(s, m.d3)
    && m.end == BuildEnd(s, m.stageEnd)
  }

  lemma MatchAtParts(s: string, i: nat)
    requires i <= |s| && MatchAt(s, i).Some?
    ensures ReadFrom(s, MatchAt(s, i).value)
  {
  }

  /** The three number groups of a match are digit strings, and group 4 is a stage token. */
  lemma CapturesShape(s: string, m: Match)
    requires ReadFrom(s, m)
    ensures var g := GroupsOf(s, m);
      && AllDigits(g.major) && AllDigits(g.minor) && AllDigits(g.patch)
      && (g.pre.Some? ==> PreToken(g.pre.value))
  {
    NumberGroupsDigits(s, m);
    if m.HasPre() {
      PreGroupToken(s, m);
    }
  }

  lemma NumberGroupsDigits(s: string, m: Match)
    requires m.Fits(|s|)
    requires m.d1 == DigitRunEnd(s, m.start) && m.d2 == DigitRunEnd(s, m.d1 + 1) && m.d3 == DigitRunEnd(s, m.d2 + 1)
    ensures var g := GroupsOf(s, m); AllDigits(g.major) && AllDigits(g.minor) && AllDigits(g.patch)
  {
    var _, _, _ := DigitRun(s, m.start), DigitRun(s, m.d1 + 1), DigitRun(s, m.d2 + 1);
  }

  lemma PreGroupToken(s: string, m: Match)
    requires m.Fits(|s|) && m.HasPre() && m.stageEnd == PreEnd(s, m.d3)
    ensures GroupsOf(s, m).pre == Some(s[m.d3 + 1..m.stageEnd])
    ensures PreToken(s[m.d3 + 1..m.stageEnd])
  {
    PreCaptureIsToken(s, m.d3);
  }
}
