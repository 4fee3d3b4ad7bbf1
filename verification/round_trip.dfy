/** Reading back what `__toString` writes (src/Version.php:128-145 against the pattern
    of line 44 and `importPre`). The rendered text is three digit runs joined by dots,
    then `-stage` with an optional counter, then `+build`; the pattern reads exactly
    these pieces back, so `fromString` undoes `__toString` up to what rendering drops:
    a counter that is not shown comes back as 1, a counter without a stage is lost,
    and the flag comes back true. */
module RoundTrip {
  import opened Results
  import opened Numerals
  import opened VersionRegex
  import opened Versions

  // ---------------------------------------------------------------------------
  // Pieces of text the matcher reads
  // ---------------------------------------------------------------------------

  /** A digit string at `i` that is not followed by a digit is the run read there. */
  lemma DigitsAt(s: string, i: nat, d: string)
    requires i + |d| <= |s| && s[i..i + |d|] == d && AllDigits(d)
    requires i + |d| == |s| || !IsDigit(s[i + |d|])
    ensures DigitRunEnd(s, i) == i + |d|
  {
    forall j | i <= j < i + |d|
      ensures IsDigit(s[j])
    {
      assert s[j] == d[j - i];
    }
    DigitRunEndIs(s, i, i + |d|);
  }

  /** A stage name written out at `i` is the stage word read there, whatever follows:
      the alternatives that come earlier in the pattern all differ from it. */
  lemma StageWordAt(s: string, i: nat, st: Stage)
    requires st != NoPre
    requires i + |StageName(st)| <= |s| && s[i..i + |StageName(st)|] == StageName(st)
    ensures StageWordEnd(s, i) == i + |StageName(st)|
  {
    var n := StageName(st);
    var w := s[i..i + |n|];
    match st {
      case Dev =>
        assert s[i] == w[0] == 'd' && s[i + 1] == w[1] == 'e' && s[i + 2] == w[2] == 'v';
      case Beta =>
        assert s[i] == w[0] == 'b' && s[i + 1] == w[1] == 'e' && s[i + 2] == w[2] == 't' && s[i + 3] == w[3] == 'a';
      case Alpha =>
        assert s[i] == w[0] == 'a' && s[i + 1] == w[1] == 'l' && s[i + 2] == w[2] == 'p';
        assert s[i + 3] == w[3] == 'h' && s[i + 4] == w[4] == 'a';
      case Rc =>
        assert s[i] == w[0] == 'r' && s[i + 1] == w[1] == 'c';
    }
  }

  /** Counter digits after the stage word, followed by the end or a `+`. */
  lemma CounterAt(s: string, w: nat, d: string)
    requires AllDigits(d) && w + |d| <= |s| && s[w..w + |d|] == d
    requires w + |d| == |s| || s[w + |d|] == '+'
    ensures CounterEnd(s, w) == w + |d|
  {
    DigitsAt(s, w, d);
    if d != [] {
      assert s[w] == d[0];
    }
  }

  /** A stage part `-<stage name><digits>` at `x`, followed by the end or a `+`, is
      read whole. */
  lemma PreEndAt(s: string, x: nat, st: Stage, d: string)
    requires st != NoPre && AllDigits(d)
    requires x + 1 + |StageName(st)| + |d| <= |s|
    requires s[x] == '-' && s[x + 1..x + 1 + |StageName(st)|] == StageName(st)
    requires s[x + 1 + |StageName(st)|..x + 1 + |StageName(st)| + |d|] == d
    requires x + 1 + |StageName(st)| + |d| == |s| || s[x + 1 + |StageName(st)| + |d|] == '+'
    ensures PreEnd(s, x) == x + 1 + |StageName(st)| + |d|
  {
    StageWordAt(s, x + 1, st);
    CounterAt(s, x + 1 + |StageName(st)|, d);
  }

  lemma {:induction false} LineEndNoBreakIs(s: string, i: nat)
    requires i <= |s| && forall j :: i <= j < |s| ==> s[j] != '\n'
    ensures LineEnd(s, i) == |s|
    decreases |s| - i
  {
    if i < |s| {
      LineEndNoBreakIs(s, i + 1);
    }
  }

  /** A build part `+<text>` at `x` with no line break in it runs to the end. */
  lemma BuildEndAt(s: string, x: nat)
    requires x + 1 < |s| && s[x] == '+'
    requires forall j :: x + 1 <= j < |s| ==> s[j] != '\n'
    ensures BuildEnd(s, x) == |s|
  {
    LineEndNoBreakIs(s, x + 1);
  }

  /** The characters of a rendered integer are a sign or digits, never a line break. */
  lemma IntTextNoBreak(x: int)
    ensures forall j :: 0 <= j < |IntToString(x)| ==> IntToString(x)[j] != '\n'
  {
    var t := IntToString(x);
    if x < 0 {
      var d := NatToString(-x);
      forall j | 1 <= j < |t|
        ensures t[j] != '\n'
      {
        assert t[j] == d[j - 1];
      }
    }
  }

  // ---------------------------------------------------------------------------
  // importPre on a rendered stage
  // ---------------------------------------------------------------------------

  lemma LowerStringFixed(t: string)
    requires forall j :: 0 <= j < |t| ==> !('A' <= t[j] <= 'Z')
    ensures LowerString(t) == t
  {
  }

  /** A stage name with digits after it is a stage token. */
  lemma RenderedPreIsToken(st: Stage, d: string)
    requires st != NoPre && AllDigits(d)
    ensures PreToken(StageName(st) + d)
  {
    var n := StageName(st);
    var t := n + d;
    assert t[0..|n|] == n;
    StageWordAt(t, 0, st);
    assert t[|n|..|n| + |d|] == d;
    CounterAt(t, |n|, d);
  }

  /** Lower-casing leaves a stage name with digits after it alone, and the split
      `importPre` makes gives back the name and the digits. */
  lemma SplitRenderedPre(st: Stage, d: string)
    requires st != NoPre && AllDigits(d)
    ensures LowerString(StageName(st) + d) == StageName(st) + d
    ensures SplitPre(StageName(st) + d) == PreSplit(StageName(st), if d == "" then None else Some(d))
  {
    var n := StageName(st);
    var t := n + d;
    assert t[..|n|] == n && t[|n|..] == d;
    StageNameLetters(st);
    assert forall j :: 0 <= j < |n| ==> t[j] == n[j];
    forall j | |n| <= j < |t|
      ensures IsDigit(t[j])
    {
      assert t[j] == d[j - |n|];
    }
    LowerStringFixed(t);
    LetterRunEndIs(t, 0, |n|);
    if d != [] {
      DigitsTail(t, |n|, d);
    } else {
      DigitRunEndIs(t, |n|, |n|);
    }
  }

  lemma StageNameLetters(st: Stage)
    ensures forall j :: 0 <= j < |StageName(st)| ==> IsLowerLetter(StageName(st)[j])
  {
  }

  /** Digits at the end of a text, read as the run that `(\d+)` captures. */
  lemma DigitsTail(t: string, k: nat, d: string)
    requires k + |d| == |t| && t[k..] == d && AllDigits(d) && d != []
    ensures t[k] != '.' && DigitRunEnd(t, k) == |t| && DigitRun(t, k) == d
  {
    assert t[k] == d[0];
    DigitsAt(t, k, d);
  }

  /** `importPre` reads a stage name with digits after it back as that stage and
      the digits (1 when there are none). */
  lemma ImportRenderedPre(st: Stage, d: string)
    requires st != NoPre && AllDigits(d)
    ensures PreToken(StageName(st) + d)
    ensures ImportPre(StageName(st) + d) == PreRelease(st, Some(if d == "" then 1 else IntCast(d)))
  {
    RenderedPreIsToken(st, d);
    SplitRenderedPre(st, d);
    LowerStringFixed(StageName(st));
  }

  // ---------------------------------------------------------------------------
  // Reading a laid-out text
  // ---------------------------------------------------------------------------

  /** The pieces of a rendering: three digit strings, the stage with the counter
      text after its name, and the build text (empty when there is no build part). */
  datatype Layout = Layout(a: string, b: string, c: string, stage: Stage, counter: string, build: string)
  {
    function D1(): nat {
      |a|
    }
    function D2(): nat {
      |a| + 1 + |b|
    }
    function D3(): nat {
      |a| + 1 + |b| + 1 + |c|
    }
    /** Where the counter text starts, after `-` and the stage name. */
    function W(): nat {
      D3() + 1 + |StageName(stage)|
    }
    function StageEnd(): nat {
      if stage == NoPre then D3() else W() + |counter|
    }
    function End(): nat {
      if build == "" then StageEnd() else StageEnd() + 1 + |build|
    }
    function PreText(): string {
      if stage == NoPre then "" else "-" + StageName(stage) + counter
    }
    function BuildText(): string {
      if build == "" then "" else "+" + build
    }
    function Text(): string {
      a + "." + b + "." + c + (PreText() + BuildText())
    }

    /** The texts the pattern can read back: digit numbers, a counter only after a
        stage, and a build part on a single line. */
    predicate Readable() {
      && |a| > 0 && |b| > 0 && |c| > 0
      && AllDigits(a) && AllDigits(b) && AllDigits(c) && AllDigits(counter)
      && (stage == NoPre ==> counter == "")
      && (forall j :: 0 <= j < |build| ==> build[j] != '\n')
    }

    function MatchOf(): Match {
      Match(0, D1(), D2(), D3(), StageEnd(), End())
    }

    function GroupsOf(): Groups {
      Groups(a, b, c, if stage == NoPre then None else Some(StageName(stage) + counter),
             if build == "" then None else Some(build))
    }
  }

  /** `s` holds the pieces of `l` at their places. */
  predicate Laid(s: string, l: Layout) {
    |s| == l.End() && LaidHead(s, l) && LaidPre(s, l) && LaidBuild(s, l)
  }

  predicate LaidHead(s: string, l: Layout) {
    && l.D3() <= |s|
    && s[0..l.D1()] == l.a && s[l.D1()] == '.'
    && s[l.D1() + 1..l.D2()] == l.b && s[l.D2()] == '.'
    && s[l.D2() + 1..l.D3()] == l.c
  }

  predicate LaidPre(s: string, l: Layout) {
    l.stage != NoPre ==>
      && l.StageEnd() <= |s|
      && s[l.D3()] == '-'
      && s[l.D3() + 1..l.W()] == StageName(l.stage)
      && s[l.W()..l.StageEnd()] == l.counter
  }

  predicate LaidBuild(s: string, l: Layout) {
    l.build != "" ==>
      && l.End() <= |s|
      && s[l.StageEnd()] == '+'
      && s[l.StageEnd() + 1..l.End()] == l.build
  }

  /** The middle piece of three, found at its place. */
  lemma Middle(x: string, y: string, z: string)
    ensures (x + y + z)[|x|..|x| + |y|] == y
  {
  }

  lemma TextLength(l: Layout)
    ensures |l.Text()| == l.End()
  {
  }

  lemma TextHead(l: Layout)
    ensures LaidHead(l.Text(), l)
  {
    HeadSlices(l.a, l.b, l.c, l.PreText() + l.BuildText());
  }

  lemma HeadSlices(a: string, b: string, c: string, r: string)
    ensures var s, d1 := a + "." + b + "." + c + r, |a|; var d2 := d1 + 1 + |b|; var d3 := d2 + 1 + |c|;
      && s[0..d1] == a && s[d1] == '.' && s[d1 + 1..d2] == b && s[d2] == '.' && s[d2 + 1..d3] == c
  {
    var s := a + "." + b + "." + c + r;
    var d1 := |a|;
    var d2 := d1 + 1 + |b|;
    var d3 := d2 + 1 + |c|;
    forall k | 0 <= k < |a|
      ensures s[k] == a[k]
    {
    }
    forall k | 0 <= k < |b|
      ensures s[d1 + 1 + k] == b[k]
    {
    }
    forall k | 0 <= k < |c|
      ensures s[d2 + 1 + k] == c[k]
    {
    }
    assert s[0..d1] == a;
    assert s[d1 + 1..d2] == b;
    assert s[d2 + 1..d3] == c;
  }

  lemma TextPre(l: Layout)
    ensures LaidPre(l.Text(), l)
  {
    if l.stage != NoPre {
      var h := l.a + "." + l.b + "." + l.c;
      assert l.Text() == h + "-" + StageName(l.stage) + l.counter + l.BuildText();
      PreSlices(h, StageName(l.stage), l.counter, l.BuildText());
    }
  }

  lemma PreSlices(h: string, n: string, k: string, q: string)
    ensures var s, w := h + "-" + n + k + q, |h| + 1 + |n|;
      && s[|h|] == '-' && s[|h| + 1..w] == n && s[w..w + |k|] == k
  {
    var s := h + "-" + n + k + q;
    assert s[|h|] == '-';
    Middle(h + "-", n, k + q);
    assert s == (h + "-") + n + (k + q);
    Middle(h + "-" + n, k, q);
  }

  lemma TextBuild(l: Layout)
    ensures LaidBuild(l.Text(), l)
  {
    if l.build != "" {
      var s := l.Text();
      var h := l.a + "." + l.b + "." + l.c + l.PreText();
      TextLength(l);
      assert s == (h + "+") + l.build + [];
      Middle(h + "+", l.build, []);
    }
  }

  lemma LaidText(l: Layout)
    ensures Laid(l.Text(), l)
  {
    TextLength(l);
    TextHead(l);
    TextPre(l);
    TextBuild(l);
  }

  lemma LaidNumbers(s: string, l: Layout)
    requires Laid(s, l) && l.Readable()
    ensures NumbersAt(s, 0) == Some(Numbers(l.D1(), l.D2(), l.D3()))
  {
    assert l.D3() == |s| || s[l.D3()] == '-' || s[l.D3()] == '+';
    NumbersFromSlices(s, l.a, l.b, l.c);
  }

  /** `A.B.C` at the start of a text, not followed by a digit, is where the three
      numbers are found. */
  lemma NumbersFromSlices(s: string, a: string, b: string, c: string)
    requires |a| > 0 && |b| > 0 && |c| > 0 && AllDigits(a) && AllDigits(b) && AllDigits(c)
    requires |a| + 1 + |b| + 1 + |c| <= |s|
    requires s[0..|a|] == a && s[|a|] == '.' && s[|a| + 1..|a| + 1 + |b|] == b && s[|a| + 1 + |b|] == '.'
    requires s[|a| + 1 + |b| + 1..|a| + 1 + |b| + 1 + |c|] == c
    requires |a| + 1 + |b| + 1 + |c| == |s| || !IsDigit(s[|a| + 1 + |b| + 1 + |c|])
    ensures NumbersAt(s, 0) == Some(Numbers(|a|, |a| + 1 + |b|, |a| + 1 + |b| + 1 + |c|))
  {
    DigitsAt(s, 0, a);
    DigitsAt(s, |a| + 1, b);
    DigitsAt(s, |a| + 1 + |b| + 1, c);
  }

  lemma LaidPreEnd(s: string, l: Layout)
    requires Laid(s, l) && l.Readable()
    ensures PreEnd(s, l.D3()) == l.StageEnd()
  {
    if l.stage != NoPre {
      PreEndAt(s, l.D3(), l.stage, l.counter);
    }
  }

  lemma LaidBuildEnd(s: string, l: Layout)
    requires Laid(s, l) && l.Readable()
    ensures BuildEnd(s, l.StageEnd()) == l.End()
  {
    if l.build != "" {
      var x := l.StageEnd();
      forall j | x + 1 <= j < |s|
        ensures s[j] != '\n'
      {
        assert s[j] == l.build[j - x - 1];
      }
      BuildEndAt(s, x);
    }
  }

  /** The leftmost match in a laid-out text is at its start and covers every piece. */
  lemma LaidMatch(s: string, l: Layout)
    requires Laid(s, l) && l.Readable()
    ensures Find(s, 0) == Some(0) && MatchAt(s, 0) == Some(l.MatchOf())
  {
    LaidNumbers(s, l);
    LaidPreEnd(s, l);
    LaidBuildEnd(s, l);
  }

  lemma LaidGroups(s: string, l: Layout)
    requires Laid(s, l) && l.MatchOf().Fits(|s|)
    ensures GroupsOf(s, l.MatchOf()) == l.GroupsOf()
  {
    var m, g := l.MatchOf(), GroupsOf(s, l.MatchOf());
    assert g.major == l.a && g.minor == l.b && g.patch == l.c;
    if l.stage != NoPre {
      SliceSplit(s, l.D3() + 1, l.W(), l.StageEnd());
      assert g.pre == l.GroupsOf().pre;
    } else {
      assert !m.HasPre();
    }
    if l.build != "" {
      assert s[l.StageEnd() + 1..l.End()] == l.build;
    } else {
      assert !m.HasBuild();
    }
  }

  lemma SliceSplit(s: string, x: nat, w: nat, y: nat)
    requires x <= w <= y <= |s|
    ensures s[x..y] == s[x..w] + s[w..y]
  {
    var l, r := s[x..y], s[x..w] + s[w..y];
    forall k | 0 <= k < |l|
      ensures l[k] == r[k]
    {
    }
  }

  /** The version `fromString` reads from a laid-out text. */
  lemma ParseLaid(s: string, l: Layout)
    requires Laid(s, l) && l.Readable()
    ensures FromString(s) == Ok(Version(IntCast(l.a), IntCast(l.b), IntCast(l.c), l.stage,
                                        if l.stage == NoPre then None
                                        else Some(if l.counter == "" then 1 else IntCast(l.counter)),
                                        if l.build == "" then 0 else IntCast(l.build), true))
  {
    LaidMatch(s, l);
    var m := l.MatchOf();
    LaidGroups(s, l);
    if l.stage != NoPre {
      ImportRenderedPre(l.stage, l.counter);
    }
  }

  // ---------------------------------------------------------------------------
  // The round trip
  // ---------------------------------------------------------------------------

  /** The text of the counter that `__toString` appends. */
  function CounterText(v: Version): string {
    if v.stage != NoPre && ShowsCounter(v) then IntToString(v.counter.value) else ""
  }

  /** What the rendering can be read back from: the numbers and a shown counter are
      not negative (a `-` there would end the match early). */
  predicate Readable(v: Version) {
    v.major >= 0 && v.minor >= 0 && v.patch >= 0
    && (v.stage != NoPre && ShowsCounter(v) ==> v.counter.value >= 0)
  }

  /** The pieces `__toString` writes for `v`. */
  function LayoutOf(v: Version): (l: Layout)
    ensures l.Text() == Render(v)
    ensures Readable(v) ==> l.Readable()
  {
    IntTextNoBreak(v.build);
    Layout(IntToString(v.major), IntToString(v.minor), IntToString(v.patch), v.stage, CounterText(v),
           if v.build != 0 then IntToString(v.build) else "")
  }

  /** What survives a rendering: a stage's counter as shown (1 when hidden), no
      counter without a stage, and the flag back at its default. */
  function Normalize(v: Version): (r: Version)
    ensures r.stage == v.stage && r.major == v.major && r.minor == v.minor && r.patch == v.patch && r.build == v.build
    ensures r.alwaysInclude
  {
    v.(counter := if v.stage == NoPre then None else Some(if ShowsCounter(v) then v.counter.value else 1),
       alwaysInclude := true)
  }

  /** `fromString(__toString(v))` gives `v` back up to what rendering drops. */
  lemma RenderParse(v: Version)
    requires Readable(v)
    ensures FromString(Render(v)) == Ok(Normalize(v))
  {
    var l := LayoutOf(v);
    LaidText(l);
    ParseLaid(l.Text(), l);
    IntCastRoundTrip(v.major);
    IntCastRoundTrip(v.minor);
    IntCastRoundTrip(v.patch);
    IntCastRoundTrip(v.build);
    if l.counter != "" {
      IntCastRoundTrip(v.counter.value);
    }
  }
}
