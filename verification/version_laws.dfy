/** Laws of the `Version` value (src/Version.php): what `__call`, `stable()` and `dev()`
    promise about each other, which names `__call` accepts, when parsing fails, and
    the scenarios test/VersionTest.php pins down. */
module VersionLaws {
  import opened Results
  import opened Numerals
  import opened VersionRegex
  import opened Versions
  import opened RoundTrip

  // ---------------------------------------------------------------------------
  // Round trip
  // ---------------------------------------------------------------------------

  /** The values rendering keeps whole: a counter exactly when there is a stage, and
      then at least 1. */
  predicate Canonical(v: Version) {
    v.major >= 0 && v.minor >= 0 && v.patch >= 0
    && (v.stage == NoPre <==> v.counter.None?)
    && (v.counter.Some? ==> v.counter.value >= 1)
  }

  /** Parsing a canonical value's rendering gives back every part of it; only the
      flag comes back at its default. */
  lemma RenderParseExact(v: Version)
    requires Canonical(v)
    ensures FromString(Render(v)) == Ok(v.(alwaysInclude := true))
  {
    CanonicalKept(v);
    RenderParse(v);
  }

  /** Rendering drops nothing from a canonical value but the flag. */
  lemma CanonicalKept(v: Version)
    requires Canonical(v)
    ensures Readable(v) && Normalize(v) == v.(alwaysInclude := true)
  {
  }

  /** One trip through the text settles a value: parsing its rendering again gives
      the same value. */
  lemma ReparseSettles(v: Version)
    requires Readable(v)
    ensures FromString(Render(v)).Ok?
    ensures var u := FromString(Render(v)).value; FromString(Render(u)) == Ok(u)
  {
    RenderParse(v);
    var u := Normalize(v);
    RenderParse(u);
  }

  /** `dev()` is outside the round trip: it leaves a null counter, "-dev" reads back
      with counter 1, and that renders as "-dev1". */
  lemma DevDoesNotRoundTrip()
    ensures var v := ToDevStage(Version(1, 0, 0, NoPre, None, 0, true));
      && Render(v) == "1.0.0-dev"
      && FromString(Render(v)) == Ok(Version(1, 0, 0, Dev, Some(1), 0, true))
      && Render(FromString(Render(v)).value) == "1.0.0-dev1"
  {
    var v := ToDevStage(Version(1, 0, 0, NoPre, None, 0, true));
    assert v == Version(1, 0, 0, Dev, None, 0, true);
    RenderParse(v);
    ShownDev();
    ShownDev1();
  }

  lemma ShownDev()
    ensures Render(Version(1, 0, 0, Dev, None, 0, true)) == "1.0.0-dev"
  {
    assert PreText(Version(1, 0, 0, Dev, None, 0, true)) == "-dev";
  }

  lemma ShownDev1()
    ensures Render(Version(1, 0, 0, Dev, Some(1), 0, true)) == "1.0.0-dev1"
  {
    assert PreText(Version(1, 0, 0, Dev, Some(1), 0, true)) == "-dev1";
  }

  // ---------------------------------------------------------------------------
  // When parsing fails
  // ---------------------------------------------------------------------------

  /** Digits from `i` up to `j`, then a dot, digits, a dot and at least one digit:
      `s[i..k]` spells `\d+\.\d+\.\d+`, with `j1`, `j2` the dots. */
  predicate DotTriple(s: string, i: nat, j1: nat, j2: nat, k: nat) {
    && i < j1 && j1 + 1 < j2 && j2 + 1 < k <= |s|
    && (forall j :: i <= j < j1 ==> IsDigit(s[j]))
    && s[j1] == '.'
    && (forall j :: j1 < j < j2 ==> IsDigit(s[j]))
    && s[j2] == '.'
    && (forall j :: j2 < j < k ==> IsDigit(s[j]))
  }

  /** The three numbers are found at `i` exactly when `\d+\.\d+\.\d+` starts there. */
  lemma NumbersAtIffDotTriple(s: string, i: nat)
    requires i <= |s|
    ensures NumbersAt(s, i).Some? <==> exists j1: nat, j2: nat, k: nat :: DotTriple(s, i, j1, j2, k)
  {
    if NumbersAt(s, i).Some? {
      NumbersSpellTriple(s, i);
    }
    if exists j1: nat, j2: nat, k: nat :: DotTriple(s, i, j1, j2, k) {
      var j1: nat, j2: nat, k: nat :| DotTriple(s, i, j1, j2, k);
      TripleGivesNumbers(s, i, j1, j2, k);
    }
  }

  lemma NumbersSpellTriple(s: string, i: nat)
    requires i <= |s| && NumbersAt(s, i).Some?
    ensures var n := NumbersAt(s, i).value; DotTriple(s, i, n.d1, n.d2, n.d3)
  {
    var n := NumbersAt(s, i).value;
    DigitRunDigits(s, i);
    DigitRunDigits(s, n.d1 + 1);
    DigitRunDigits(s, n.d2 + 1);
  }

  lemma TripleGivesNumbers(s: string, i: nat, j1: nat, j2: nat, k: nat)
    requires DotTriple(s, i, j1, j2, k)
    ensures NumbersAt(s, i).Some?
  {
    DigitRunEndIs(s, i, j1);
    DigitRunEndIs(s, j1 + 1, j2);
    DigitRunDigits(s, j2 + 1);
    assert IsDigit(s[j2 + 1]);
  }

  /** `fromString` throws exactly when no `\d+\.\d+\.\d+` occurs anywhere in the text;
      anything around the first one is ignored. */
  lemma ParseFailsIff(s: string)
    ensures FromString(s).Err? <==> !exists i: nat, j1: nat, j2: nat, k: nat :: DotTriple(s, i, j1, j2, k)
  {
    if exists i: nat, j1: nat, j2: nat, k: nat :: DotTriple(s, i, j1, j2, k) {
      var i: nat, j1: nat, j2: nat, k: nat :| DotTriple(s, i, j1, j2, k);
      NumbersAtIffDotTriple(s, i);
    } else {
      forall i | 0 <= i <= |s|
        ensures NumbersAt(s, i).None?
      {
        NumbersAtIffDotTriple(s, i);
      }
    }
  }

  /** The search stops at the first place the three numbers start. */
  lemma FindFirst(s: string, i: nat)
    requires i <= |s| && NumbersAt(s, i).Some?
    requires forall j :: 0 <= j < i ==> NumbersAt(s, j).None?
    ensures Find(s, 0) == Some(i)
  {
  }

  /** In a window that starts before the first version and takes in all of its
      match, the search finds the same match, moved with the window. */
  lemma FindInWindow(s: string, a: nat, b: nat, i: nat)
    requires a <= i <= b <= |s|
    requires MatchAt(s, i).Some? && MatchAt(s, i).value.end <= b
    requires forall j :: a <= j < i ==> NumbersAt(s, j).None?
    ensures Find(s[a..b], 0) == Some(i - a)
    ensures MatchAt(s[a..b], i - a) == Some(MatchAt(s, i).value.Shift(a))
  {
    var w := s[a..b];
    forall j | 0 <= j < i - a
      ensures NumbersAt(w, j).None?
    {
      if NumbersAt(w, j).Some? {
        NumbersAtWindowFound(s, a, b, a + j);
      }
    }
    MatchAtWindowSame(s, a, b, i);
    FindFirst(w, i - a);
  }

  /** Parsing such a window gives the version parsing the whole text finds there. */
  lemma ParseWindow(s: string, a: nat, b: nat, i: nat)
    requires a <= i <= b <= |s|
    requires MatchAt(s, i).Some? && MatchAt(s, i).value.end <= b
    requires forall j :: a <= j < i ==> NumbersAt(s, j).None?
    ensures ReadFrom(s, MatchAt(s, i).value)
    ensures FromString(s[a..b]) == Ok(Captured(s, MatchAt(s, i).value))
  {
    var m := MatchAt(s, i).value;
    MatchAtParts(s, i);
    FindInWindow(s, a, b, i);
    MatchAtParts(s[a..b], i - a);
    GroupsOfWindow(s, a, b, m);
    assert FromString(s[a..b]) == Ok(Captured(s[a..b], m.Shift(a)));
  }

  /** `fromString` ignores whatever comes before the first version: cutting it off
      changes neither whether parsing succeeds nor what it finds. */
  lemma ParseSkipsPrefix(s: string, a: nat)
    requires a <= |s|
    requires forall j :: 0 <= j < a ==> NumbersAt(s, j).None?
    ensures FromString(s[a..]).Ok? <==> FromString(s).Ok?
    ensures FromString(s).Ok? ==> FromString(s[a..]) == FromString(s)
  {
    match Find(s, 0)
    case None =>
      forall j | 0 <= j <= |s| - a
        ensures NumbersAt(s[a..], j).None?
      {
        assert s[a..] == s[a..|s|];
        if NumbersAt(s[a..|s|], j).Some? {
          NumbersAtWindowFound(s, a, |s|, a + j);
        }
      }
    case Some(i) =>
      ParseWindow(s, a, |s|, i);
      ParseWindow(s, 0, |s|, i);
      assert s[0..|s|] == s && s[a..|s|] == s[a..];
  }

  /** A leading "v" is skipped: `fromString('v1.0.0')` is 1.0.0. */
  lemma ScenarioLeadingV()
    ensures FromString("v1.0.0") == Ok(Version(1, 0, 0, NoPre, None, 0, true))
  {
    LeadingV("v1.0.0");
    assert "v1.0.0"[1..] == "1.0.0";
    ParsePlain();
  }

  lemma LeadingV(s: string)
    requires |s| > 0 && s[0] == 'v'
    ensures FromString(s[1..]).Ok? ==> FromString(s) == FromString(s[1..])
  {
    assert NumbersAt(s, 0).None?;
    ParseSkipsPrefix(s, 1);
  }

  lemma ParsePlain()
    ensures FromString("1.0.0") == Ok(Version(1, 0, 0, NoPre, None, 0, true))
  {
    assert Render(Version(1, 0, 0, NoPre, None, 0, true)) == "1.0.0";
    ParseRendered("1.0.0", Version(1, 0, 0, NoPre, None, 0, true));
  }

  lemma ParseRendered(s: string, v: Version)
    requires Canonical(v) && s == Render(v)
    ensures FromString(s) == Ok(v.(alwaysInclude := true))
  {
    RenderParseExact(v);
  }

  /** A text without digits holds no version. */
  lemma NoDigitNoVersion(s: string)
    requires forall j :: 0 <= j < |s| ==> !IsDigit(s[j])
    ensures FromString(s) == Err(ParseError(s))
  {
    forall i | 0 <= i <= |s|
      ensures NumbersAt(s, i).None?
    {
      if i < |s| {
        assert !IsDigit(s[i]);
      }
    }
  }

  /** test/VersionTest.php:45-48. */
  lemma ScenarioParseFails()
    ensures FromString("dev-fff") == Err(ParseError("dev-fff"))
  {
    NoDigitNoVersion("dev-fff");
  }

  // ---------------------------------------------------------------------------
  // Increase and decrease
  // ---------------------------------------------------------------------------

  /** The lowest value a decrease leaves: 1 for the counter, 0 for the others. */
  function Floor(t: Target): int {
    if t == PreVersion then 1 else 0
  }

  /** A decrease is the floored step down. */
  lemma DecreaseIsFloored(v: Version, t: Target)
    ensures Get(Decrease(v, t), t) == Max(Get(v, t) - 1, Floor(t))
  {
  }

  /** `n` decreases in a row. */
  function DecreaseTimes(v: Version, t: Target, n: nat): Version
    decreases n
  {
    if n == 0 then v else DecreaseTimes(Decrease(v, t), t, n - 1)
  }

  /** Repeated decreases count down to the floor and stay there. */
  lemma {:induction false} DecreaseTimesFloor(v: Version, t: Target, n: nat)
    requires n >= 1
    ensures Get(DecreaseTimes(v, t, n), t) == Max(Get(v, t) - n, Floor(t))
    decreases n
  {
    DecreaseIsFloored(v, t);
    if n > 1 {
      DecreaseTimesFloor(Decrease(v, t), t, n - 1);
    }
  }

  /** The floor is reached after as many decreases as the value is above it. */
  lemma DecreaseReachesFloor(v: Version, t: Target, n: nat)
    requires n >= 1 && n >= Get(v, t) - Floor(t)
    ensures Get(DecreaseTimes(v, t, n), t) == Floor(t)
  {
    DecreaseTimesFloor(v, t, n);
  }

  /** A decrease undoes an increase from a value at or above the floor, up to the
      reset the increase made. */
  lemma DecreaseUndoesIncrease(v: Version, t: Target)
    requires Get(v, t) >= Floor(t) || t == PreVersion
    ensures Decrease(Increase(v, t), t)
         == if t == PreVersion then v.(counter := Some(Max(CounterOr0(v), 1))) else Cascade(v, t)
  {
  }

  /** An increase undoes a decrease from a value above the floor, up to the reset
      the decrease made. */
  lemma IncreaseUndoesDecrease(v: Version, t: Target)
    requires Get(v, t) > Floor(t)
    ensures Increase(Decrease(v, t), t)
         == if t == PreVersion then v.(counter := Some(CounterOr0(v))) else Cascade(v, t)
  {
  }

  /** The precedence of the numbers (item 11 of Semantic Versioning 2.0.0). */
  predicate CoreBelow(v: Version, w: Version) {
    || v.major < w.major
    || (v.major == w.major && v.minor < w.minor)
    || (v.major == w.major && v.minor == w.minor && v.patch < w.patch)
  }

  /** Increasing major, minor or patch raises the version's precedence; decreasing
      one that is above 0 lowers it; the counter and the build leave the numbers alone. */
  lemma StepsOrderCore(v: Version, t: Target)
    ensures Resets(t) ==> CoreBelow(v, Increase(v, t))
    ensures Resets(t) && Get(v, t) > 0 ==> CoreBelow(Decrease(v, t), v)
    ensures !Resets(t) ==> var i, d := Increase(v, t), Decrease(v, t);
      i.major == d.major == v.major && i.minor == d.minor == v.minor && i.patch == d.patch == v.patch
  {
  }

  // ---------------------------------------------------------------------------
  // Stages
  // ---------------------------------------------------------------------------

  /** `stable()` is idempotent, and it forgets whatever stage operation came before. */
  lemma StableLaws(v: Version, st: PreStage, arg: Option<int>)
    ensures Stable(Stable(v)) == Stable(v)
    ensures Stable(EnterPre(v, st, arg)) == Stable(v)
    ensures Stable(ToDevStage(v)) == Stable(v)
  {
  }

  /** After a reset of major, minor or patch the version is already stable. */
  lemma ResetIsStable(v: Version, t: Target)
    requires Resets(t)
    ensures Stable(Increase(v, t)) == Increase(v, t) && Stable(Decrease(v, t)) == Decrease(v, t)
  {
  }

  /** `n` calls of the same stage operation without an argument. */
  function EnterPreTimes(v: Version, st: PreStage, n: nat): Version
    decreases n
  {
    if n == 0 then v else EnterPreTimes(EnterPre(v, st, None), st, n - 1)
  }

  /** Calling a stage `n` times counts its pre-releases: from another stage the
      counter ends at `n`, from the same stage it goes up by `n`. */
  lemma {:induction false} EnterPreTimesCounts(v: Version, st: PreStage, n: nat)
    requires n >= 1
    ensures var r := EnterPreTimes(v, st, n);
      && r.stage == st
      && r.counter == Some(if v.stage == st then CounterOr0(v) + n else n)
      && r.(stage := v.stage, counter := v.counter) == v
    decreases n
  {
    if n > 1 {
      EnterPreTimesCounts(EnterPre(v, st, None), st, n - 1);
    }
  }

  /** A stage operation with an argument sets the counter outright, so repeating it
      changes nothing. */
  lemma EnterPreWithArgument(v: Version, st: PreStage, k: int)
    ensures EnterPre(EnterPre(v, st, Some(k)), st, Some(k)) == EnterPre(v, st, Some(k))
    ensures EnterPre(v, st, Some(k)).counter == Some(k)
  {
  }

  // ---------------------------------------------------------------------------
  // The names __call accepts
  // ---------------------------------------------------------------------------

  /** The five targets, the first letter in either case: what `lcfirst` maps onto a target. */
  const TargetSpellings: set<string> :=
    {"major", "Major", "minor", "Minor", "patch", "Patch", "preVersion", "PreVersion", "build", "Build"}

  /** Every name `__call` accepts: the three stages, the five targets, and "decrease"
      followed by a target in either spelling: eighteen names. */
  const AcceptedNames: set<string> :=
    {"rc", "beta", "alpha", "major", "minor", "patch", "preVersion", "build"}
    + set w | w in TargetSpellings :: "decrease" + w

  /** The first letter of a lower-case name in upper case. */
  function Capital(w: string): (r: string)
    requires |w| > 0 && 'a' <= w[0] <= 'z'
    ensures |r| == |w| && 'A' <= r[0] <= 'Z' && r[1..] == w[1..]
  {
    [(w[0] as int - 32) as char] + w[1..]
  }

  /** `lcfirst` lowers the first letter and nothing else, so a name it maps to a
      lower-case word is that word or its capitalised form. */
  lemma LcFirstInverse(r: string, w: string)
    requires LcFirst(r) == w && |w| > 0 && 'a' <= w[0] <= 'z'
    ensures r == w || r == Capital(w)
  {
    assert r == [r[0]] + r[1..];
  }

  lemma CapitalTargets()
    ensures Capital("major") == "Major" && Capital("minor") == "Minor" && Capital("patch") == "Patch"
    ensures Capital("preVersion") == "PreVersion" && Capital("build") == "Build"
  {
  }

  lemma LcFirstCapital(w: string)
    requires |w| > 0 && 'a' <= w[0] <= 'z'
    ensures LcFirst(Capital(w)) == w
  {
    assert LcFirst(Capital(w)) == [w[0]] + w[1..];
  }

  /** The names whose `lcfirst` is a target are exactly the ten spellings. */
  lemma LcFirstTarget(r: string)
    ensures TargetOf(LcFirst(r)).Some? <==> r in TargetSpellings
  {
    if TargetOf(LcFirst(r)).Some? {
      LcFirstInverse(r, LcFirst(r));
      CapitalTargets();
    }
    if r in TargetSpellings {
      SpellingTargets(r);
    }
  }

  lemma SpellingTargets(r: string)
    requires r in TargetSpellings
    ensures TargetOf(LcFirst(r)).Some?
  {
    CapitalTargets();
    if r[0] == 'M' || r[0] == 'P' || r[0] == 'B' {
      var w := if r == "Major" then "major" else if r == "Minor" then "minor" else if r == "Patch" then "patch"
               else if r == "PreVersion" then "preVersion" else "build";
      LcFirstCapital(w);
    } else {
      assert LcFirst(r) == r;
    }
  }

  /** "decrease" and a spelling of a target is accepted. */
  lemma ResolveDecrease(w: string, args: seq<Option<int>>)
    requires w in TargetSpellings
    ensures Resolve("decrease" + w, args).Ok?
  {
    var name := "decrease" + w;
    assert name[..8] == "decrease" && name[8..] == w;
    LcFirstTarget(w);
  }

  /** `__call` accepts exactly these names, whatever the arguments, and throws
      `BadMethodCallException` naming the method for any other. */
  lemma ResolveAcceptsExactly(name: string, args: seq<Option<int>>)
    ensures Resolve(name, args).Ok? <==> name in AcceptedNames
    ensures Resolve(name, args).Err? ==> Resolve(name, args).error == UnsupportedOperation(name)
  {
    if Resolve(name, args).Ok? && name != "rc" && name != "beta" && name != "alpha"
       && |name| >= 8 && name[..8] == "decrease" {
      LcFirstTarget(name[8..]);
      assert name == "decrease" + name[8..];
    }
    if name in AcceptedNames {
      if name in {"rc", "beta", "alpha", "major", "minor", "patch", "build"} {
      } else if name == "preVersion" {
        assert name[..8][0] != "decrease"[0];
      } else {
        var w :| w in TargetSpellings && name == "decrease" + w;
        ResolveDecrease(w, args);
      }
    }
  }

  /** The name `__call` is given for each operation it dispatches. */
  function OpName(op: Op): string
    requires !op.ToStable? && !op.ToDev?
  {
    match op
    case Up(t) => TargetName(t)
    case Down(t) => "decrease" + Capital(TargetName(t))
    case Enter(st, _) => StageName(st)
  }

  function TargetName(t: Target): (n: string)
    ensures |n| > 0 && 'a' <= n[0] <= 'z' && TargetOf(n) == Some(t)
  {
    match t
    case Major => "major"
    case Minor => "minor"
    case Patch => "patch"
    case PreVersion => "preVersion"
    case Build => "build"
  }

  /** The arguments the call passes: the counter for a stage operation, none otherwise. */
  function OpArgs(op: Op): seq<Option<int>> {
    if op.Enter? then [op.arg] else []
  }

  /** `__call` reads each operation back from its name and arguments. */
  lemma ResolveOpName(op: Op)
    requires !op.ToStable? && !op.ToDev?
    ensures Resolve(OpName(op), OpArgs(op)) == Ok(op)
  {
    match op
    case Up(t) =>
      if t == PreVersion {
        assert "preVersion"[..8][0] != "decrease"[0];
      }
    case Down(t) =>
      var n := TargetName(t);
      var name := OpName(op);
      assert name[..8] == "decrease" && name[8..] == Capital(n);
      LcFirstCapital(n);
    case Enter(st, _) =>
  }

  // ---------------------------------------------------------------------------
  // Scenarios of test/VersionTest.php
  // ---------------------------------------------------------------------------

  /** `fromString('1.2.3-beta4+567')`. */
  lemma ScenarioFromString()
    ensures FromString("1.2.3-beta4+567") == Ok(Version(1, 2, 3, Beta, Some(4), 567, true))
  {
    RenderParseExact(Version(1, 2, 3, Beta, Some(4), 567, true));
    ShownBeta4Build();
  }

  lemma ShownBeta4Build()
    ensures Render(Version(1, 2, 3, Beta, Some(4), 567, true)) == "1.2.3-beta4+567"
  {
    var v := Version(1, 2, 3, Beta, Some(4), 567, true);
    assert IntToString(567) == "567";
    assert PreText(v) == "-beta4";
    assert BuildText(v) == "+567";
    assert IntToString(1) + "." + IntToString(2) + "." + IntToString(3) == "1.2.3";
  }

  /** `new Version(1, 0, 0, 'b')` is 1.0.0-beta1: the shorthand is the full stage. */
  lemma ScenarioShorthandB()
    ensures PreToken("b") && Render(Construct(1, 0, 0, "b", 0)) == "1.0.0-beta1"
  {
    ImportShorthand("b", Beta);
    assert Construct(1, 0, 0, "b", 0) == Version(1, 0, 0, Beta, Some(1), 0, true);
    ShownFirst(Beta);
  }

  /** `new Version(1, 0, 0, 'a')` is 1.0.0-alpha1. */
  lemma ScenarioShorthandA()
    ensures PreToken("a") && Render(Construct(1, 0, 0, "a", 0)) == "1.0.0-alpha1"
  {
    ImportShorthand("a", Alpha);
    assert Construct(1, 0, 0, "a", 0) == Version(1, 0, 0, Alpha, Some(1), 0, true);
    ShownFirst(Alpha);
  }

  lemma ImportShorthand(t: string, st: Stage)
    requires (t == "b" && st == Beta) || (t == "a" && st == Alpha)
    ensures PreToken(t) && ImportPre(t) == PreRelease(st, Some(1))
  {
    assert StageWordEnd(t, 0) == 1 && LowerString(t) == t && SplitPre(t) == PreSplit(t, None);
  }

  lemma ShownFirst(st: Stage)
    requires st == Beta || st == Alpha
    ensures Render(Version(1, 0, 0, st, Some(1), 0, true)) == "1.0.0-" + StageName(st) + "1"
  {
    assert PreText(Version(1, 0, 0, st, Some(1), 0, true)) == "-" + StageName(st) + "1";
  }

  /** A call that succeeds and renders as `text`. */
  predicate Shows(r: Result<Version, VersionError>, text: string) {
    r.Ok? && Render(r.value) == text
  }

  /** `decreaseMajor` and the others resolve to the decrease of their target. */
  lemma DecreaseNamed(t: Target, name: string)
    requires name == "decrease" + Capital(TargetName(t))
    ensures Resolve(name, []) == Ok(Down(t))
  {
    ResolveOpName(Down(t));
  }

  /** The stage tokens the scenarios construct with. */
  lemma ImportStageToken(st: Stage, d: string, k: nat)
    requires st != NoPre
    requires (d == "" && k == 1) || (d == "1" && k == 1) || (d == "2" && k == 2)
    ensures PreToken(StageName(st) + d) && ImportPre(StageName(st) + d) == PreRelease(st, Some(k))
  {
    ImportRenderedPre(st, d);
    IntCastRoundTrip(k);
  }

  /** `(new Version(1, 2))->major()` is 2.0.0. */
  lemma ScenarioMajor()
    ensures Shows(Call(Construct(1, 2, 0, "", 0), "major", []), "2.0.0")
  {
    assert Construct(1, 2, 0, "", 0) == Version(1, 2, 0, NoPre, None, 0, true);
    ResolveOpName(Up(Major));
    assert Call(Version(1, 2, 0, NoPre, None, 0, true), "major", []) == Ok(Version(2, 0, 0, NoPre, None, 0, true));
  }

  /** `(new Version(2, 0, 1))->minor()` is 2.1.0. */
  lemma ScenarioMinor()
    ensures Shows(Call(Construct(2, 0, 1, "", 0), "minor", []), "2.1.0")
  {
    assert Construct(2, 0, 1, "", 0) == Version(2, 0, 1, NoPre, None, 0, true);
    ResolveOpName(Up(Minor));
    assert Call(Version(2, 0, 1, NoPre, None, 0, true), "minor", []) == Ok(Version(2, 1, 0, NoPre, None, 0, true));
  }

  /** `(new Version(1, 1, 1))->decreaseMajor()` is 0.0.0: the cascade zeroes the rest. */
  lemma ScenarioDecreaseMajor()
    ensures Shows(Call(Construct(1, 1, 1, "", 0), "decreaseMajor", []), "0.0.0")
  {
    CapitalTargets();
    DecreaseNamed(Major, "decreaseMajor");
  }

  /** `(new Version(1, 0, 0))->decreasePatch()` stays 1.0.0: the floor. */
  lemma ScenarioDecreasePatch()
    ensures Shows(Call(Construct(1, 0, 0, "", 0), "decreasePatch", []), "1.0.0")
  {
    CapitalTargets();
    DecreaseNamed(Patch, "decreasePatch");
  }

  /** `(new Version(1, 0, 0, 'beta'))->preVersion()` is 1.0.0-beta2. */
  lemma ScenarioPreVersion()
    ensures PreToken("beta") && Shows(Call(Construct(1, 0, 0, "beta", 0), "preVersion", []), "1.0.0-beta2")
  {
    StagedConstruct("beta", Beta, "", 1);
    PreVersionOfBeta();
  }

  lemma PreVersionOfBeta()
    ensures Shows(Call(Version(1, 0, 0, Beta, Some(1), 0, true), "preVersion", []), "1.0.0-beta2")
  {
    ResolveOpName(Up(PreVersion));
    ShownPre(Beta, 2);
  }

  /** `new Version(1, 0, 0, $pre)` for the stage tokens the scenarios use. */
  lemma StagedConstruct(pre: string, st: Stage, d: string, k: nat)
    requires st != NoPre && pre == StageName(st) + d
    requires (d == "" && k == 1) || (d == "1" && k == 1) || (d == "2" && k == 2)
    ensures PreToken(pre)
    ensures Construct(1, 0, 0, pre, 0) == Version(1, 0, 0, st, Some(k), 0, true)
  {
    ImportStageToken(st, d, k);
  }

  /** `(new Version(1, 0, 0, 'beta1'))->decreasePreVersion()` stays 1.0.0-beta1: the
      counter's floor is 1. */
  lemma ScenarioDecreasePreVersion()
    ensures PreToken("beta1")
    ensures Shows(Call(Construct(1, 0, 0, "beta1", 0), "decreasePreVersion", []), "1.0.0-beta1")
  {
    StagedConstruct("beta1", Beta, "1", 1);
    DecreaseFirstBeta();
  }

  lemma DecreaseFirstBeta()
    ensures Shows(Call(Version(1, 0, 0, Beta, Some(1), 0, true), "decreasePreVersion", []), "1.0.0-beta1")
  {
    CapitalTargets();
    DecreaseNamed(PreVersion, "decreasePreVersion");
    assert Call(Version(1, 0, 0, Beta, Some(1), 0, true), "decreasePreVersion", [])
        == Ok(Version(1, 0, 0, Beta, Some(1), 0, true));
    ShownFirst(Beta);
  }

  /** `(new Version(1, 0, 0, null, 1))->build()` is 1.0.0+2. */
  lemma ScenarioBuild()
    ensures Shows(Call(Construct(1, 0, 0, "", 1), "build", []), "1.0.0+2")
  {
    assert Construct(1, 0, 0, "", 1) == Version(1, 0, 0, NoPre, None, 1, true);
    ResolveOpName(Up(Build));
    assert Call(Version(1, 0, 0, NoPre, None, 1, true), "build", []) == Ok(Version(1, 0, 0, NoPre, None, 2, true));
  }

  /** `(new Version())->foo()` throws. */
  lemma ScenarioUnknownName()
    ensures Call(Construct(0, 0, 0, "", 0), "foo", []) == Err(UnsupportedOperation("foo"))
  {
  }

  /** `rc()` from beta2 starts the rc counter at 1. */
  lemma ScenarioRcFromBeta()
    ensures PreToken("beta2") && Shows(Call(Construct(1, 0, 0, "beta2", 0), "rc", []), "1.0.0-rc1")
  {
    StagedConstruct("beta2", Beta, "2", 2);
    RcOf(Version(1, 0, 0, Beta, Some(2), 0, true), 1);
  }

  /** `rc()` at rc goes on to rc2. */
  lemma ScenarioRcAgain()
    ensures PreToken("rc") && Shows(Call(Construct(1, 0, 0, "rc", 0), "rc", []), "1.0.0-rc2")
  {
    StagedConstruct("rc", Rc, "", 1);
    RcOf(Version(1, 0, 0, Rc, Some(1), 0, true), 2);
  }

  lemma RcOf(v: Version, k: nat)
    requires v.major == 1 && v.minor == 0 && v.patch == 0 && v.build == 0 && v.alwaysInclude
    requires k == 1 || k == 2
    requires if v.stage == Rc then v.counter == Some(k - 1) else k == 1
    ensures Shows(Call(v, "rc", []), "1.0.0-rc" + [DigitChar(k)])
  {
    assert Call(v, "rc", []) == Ok(Version(1, 0, 0, Rc, Some(k), 0, true));
    ShownPre(Rc, k);
  }

  /** `beta(4)` sets the counter outright. */
  lemma ScenarioBetaArgument()
    ensures Shows(Call(Construct(1, 0, 0, "", 0), "beta", [Some(4)]), "1.0.0-beta4")
  {
    ShownPre(Beta, 4);
  }

  /** `stable()` drops the stage and its counter. */
  lemma ScenarioStable()
    ensures PreToken("beta2") && Render(Stable(Construct(1, 0, 0, "beta2", 0))) == "1.0.0"
  {
    StagedConstruct("beta2", Beta, "2", 2);
  }

  /** `dev()` shows the stage without a counter. */
  lemma ScenarioDev()
    ensures Render(ToDevStage(Construct(1, 0, 0, "", 0))) == "1.0.0-dev"
  {
    ShownDev();
  }

  lemma ShownPre(st: Stage, k: nat)
    requires st == Rc || st == Beta
    requires 1 <= k <= 4
    ensures Render(Version(1, 0, 0, st, Some(k), 0, true)) == "1.0.0-" + StageName(st) + [DigitChar(k)]
  {
    assert PreText(Version(1, 0, 0, st, Some(k), 0, true)) == "-" + StageName(st) + [DigitChar(k)];
  }

  /** With `alwaysIncludePreReleaseVersion(false)` a first rc renders without its
      counter, and `rc()` moves it to the visible rc2. */
  lemma ScenarioFlagOff()
    ensures Render(Version(1, 0, 0, Rc, Some(1), 0, false)) == "1.0.0-rc"
    ensures Shows(Call(Version(1, 0, 0, Rc, Some(1), 0, false), "rc", []), "1.0.0-rc2")
  {
    assert PreText(Version(1, 0, 0, Rc, Some(1), 0, false)) == "-rc";
    assert PreText(Version(1, 0, 0, Rc, Some(2), 0, false)) == "-rc2";
  }
}
