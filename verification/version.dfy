/** The `Version` value of src/Version.php: parsing with the version pattern, the
    pre-release import, rendering, and the modifiers `__call` dispatches to, plus
    `stable()` and `dev()`. Every modifier works on a clone, so here each one is a
    function from the old value to the new. */
module Versions {
  import opened Results
  import opened Numerals
  import opened VersionRegex

  /** `$pre`: null, or one of the stage names a version can carry. */
  datatype Stage = NoPre | Dev | Rc | Beta | Alpha

  /** The stages `rc()`, `beta()` and `alpha()` switch to (`$preStages`). */
  type PreStage = st: Stage | st.Rc? || st.Beta? || st.Alpha? witness Rc

  /** The text `$pre` holds for a stage; empty for null. */
  function StageName(st: Stage): string {
    match st
    case NoPre => ""
    case Dev => "dev"
    case Rc => "rc"
    case Beta => "beta"
    case Alpha => "alpha"
  }

  predicate IsStageName(name: string) {
    name == "dev" || name == "rc" || name == "beta" || name == "alpha"
  }

  function StageOf(name: string): (st: Stage)
    requires IsStageName(name)
    ensures st != NoPre && StageName(st) == name
  {
    if name == "dev" then Dev else if name == "rc" then Rc else if name == "beta" then Beta else Alpha
  }

  /** A version. `counter` is `$preVersion`, where `None` is PHP's null: it renders as
      nothing, adds like 0 and compares as at most 1. `alwaysInclude` is
      `$alwaysIncludePreReleaseVersion`, which every clone carries along. */
  datatype Version = Version(major: int, minor: int, patch: int, stage: Stage,
                             counter: Option<int>, build: int, alwaysInclude: bool)

  datatype VersionError =
    | ParseError(input: string)          // InvalidArgumentException from fromString
    | UnsupportedOperation(name: string) // BadMethodCallException from __call

  /** The counter as PHP arithmetic reads it: null is 0. */
  function CounterOr0(v: Version): int {
    if v.counter.Some? then v.counter.value else 0
  }

  // ---------------------------------------------------------------------------
  // importPre and expandPreShorthand
  // ---------------------------------------------------------------------------

  /** `strtolower`, which folds ASCII letters only. */
  function LowerString(s: string): (t: string)
    ensures |t| == |s| && forall j :: 0 <= j < |s| ==> t[j] == Lower(s[j])
  {
    seq(|s|, j requires 0 <= j < |s| => Lower(s[j]))
  }

  predicate IsLowerLetter(c: char) {
    'a' <= c <= 'z'
  }

  /** The end of the maximal run of `[a-z]` that starts at `i`. */
  function LetterRunEnd(t: string, i: nat): (k: nat)
    requires i <= |t|
    ensures i <= k <= |t|
    ensures k == |t| || !IsLowerLetter(t[k])
    decreases |t| - i
  {
    if i < |t| && IsLowerLetter(t[i]) then LetterRunEnd(t, i + 1) else i
  }

  lemma {:induction false} LetterRunEndIs(t: string, i: nat, k: nat)
    requires i <= k <= |t|
    requires forall j :: i <= j < k ==> IsLowerLetter(t[j])
    requires k == |t| || !IsLowerLetter(t[k])
    ensures LetterRunEnd(t, i) == k
    decreases k - i
  {
    if i < k {
      LetterRunEndIs(t, i + 1, k);
    }
  }

  /** `expandPreShorthand`: the one-letter stages `a` and `b` stand for `alpha` and `beta`. */
  function ExpandPreShorthand(pre: string): (name: string)
    ensures LowerString(pre) == "a" ==> name == "alpha"
    ensures LowerString(pre) == "b" ==> name == "beta"
    ensures LowerString(pre) != "a" && LowerString(pre) != "b" ==> name == LowerString(pre)
  {
    var p := LowerString(pre);
    if p == "a" then "alpha" else if p == "b" then "beta" else p
  }

  /** `$pre` and `$preVersion` as `importPre` sets them. */
  datatype PreRelease = PreRelease(stage: Stage, counter: Option<int>)

  /** The stage words of the version pattern, lower-cased. */
  predicate IsStageWord(word: string) {
    word == "dev" || word == "beta" || word == "b" || word == "alpha" || word == "a" || word == "rc"
  }

  /** Reading a stage token in lower case: its stage word is the letter run at the
      front, and the counter part (when present) is unchanged by lower-casing. */
  lemma PreTokenShape(pre: string)
    requires PreToken(pre)
    ensures var w := StageWordEnd(pre, 0); var t := LowerString(pre);
      && LetterRunEnd(t, 0) == w
      && IsStageWord(t[..w])
      && t[w..] == pre[w..]
  {
    var w := StageWordEnd(pre, 0);
    var t := LowerString(pre);
    StageWordLetters(pre, w);
    CounterNotLetter(pre, w);
    LetterRunEndIs(t, 0, w);
  }

  /** The characters of a stage word, lower-cased, spell one of the alternatives. */
  lemma StageWordLetters(pre: string, w: nat)
    requires StageWordEnd(pre, 0) == w > 0
    ensures forall j :: 0 <= j < w ==> IsLowerLetter(LowerString(pre)[j])
    ensures IsStageWord(LowerString(pre)[..w])
  {
    var t := LowerString(pre);
    assert forall j :: 0 <= j < w ==> t[j] == Folded(pre, j);
    if w == 3 {
      assert t[..w] == "dev";
    } else if w == 4 {
      assert t[..w] == "beta";
    } else if w == 5 {
      assert t[..w] == "alpha";
    } else if w == 2 {
      assert t[..w] == "rc";
    } else {
      assert t[..w] == "b" || t[..w] == "a";
    }
  }

  /** After the stage word of a token come only a dot and digits, which lower-casing
      leaves alone and which are not letters. */
  lemma CounterNotLetter(pre: string, w: nat)
    requires StageWordEnd(pre, 0) == w > 0 && CounterEnd(pre, w) == |pre|
    ensures w == |pre| || !IsLowerLetter(LowerString(pre)[w])
    ensures LowerString(pre)[w..] == pre[w..]
  {
    var t := LowerString(pre);
    var k := DigitRunEnd(pre, w);
    if w < |pre| && pre[w] == '.' && DigitRunEnd(pre, w + 1) > w + 1 {
      DigitRunDigits(pre, w + 1);
    } else {
      DigitRunDigits(pre, w);
    }
    assert forall j :: w <= j < |pre| ==> pre[j] == '.' || IsDigit(pre[j]);
    assert forall j :: 0 <= j < |pre| - w ==> t[w..][j] == pre[w..][j];
  }

  /** `preg_match('/([a-z]+)\.?(\d+)/', $pre)` as `importPre` uses it on a lower-cased
      token: the letter run at the front, then an optional dot and the counter digits.
      Without digits the pattern fails and the whole text stays the name. */
  datatype PreSplit = PreSplit(name: string, digits: Option<string>)

  function SplitPre(t: string): (r: PreSplit)
    ensures r.digits.Some? ==> AllDigits(r.digits.value) && |r.digits.value| > 0
  {
    var k := LetterRunEnd(t, 0);
    var j := if k < |t| && t[k] == '.' then k + 1 else k;
    var e := DigitRunEnd(t, j);
    if 0 < k && e > j then PreSplit(t[..k], Some(DigitRun(t, j))) else PreSplit(t, None)
  }

  /** The name split off a stage token is one of the stage words. */
  lemma SplitPreName(pre: string)
    requires PreToken(pre)
    ensures IsStageWord(SplitPre(LowerString(pre)).name)
  {
    var w := StageWordEnd(pre, 0);
    var t := LowerString(pre);
    PreTokenShape(pre);
    var k := LetterRunEnd(t, 0);
    var j := if k < |t| && t[k] == '.' then k + 1 else k;
    if DigitRunEnd(t, j) <= j {
      CounterEmptyIsWord(pre);
    }
  }

  /** A lower-case stage word expands to a stage name. */
  lemma ExpandStageWord(word: string)
    requires IsStageWord(word)
    ensures IsStageName(ExpandPreShorthand(word))
  {
    var l := LowerString(word);
    assert l == word by {
      assert forall j :: 0 <= j < |word| ==> l[j] == word[j];
    }
  }

  /** `importPre` on the text capture group 4 can hold, or on nothing (null and the
      empty string are both falsy, so nothing changes). The string is lower-cased and
      split; a missing counter reads as 1; `a`/`b` are expanded. */
  function ImportPre(pre: string): (p: PreRelease)
    requires pre == "" || PreToken(pre)
    ensures pre == "" <==> p.stage == NoPre
    ensures p.stage == NoPre <==> p.counter.None?
    ensures p.counter.Some? ==> p.counter.value >= 0
  {
    if pre == "" then PreRelease(NoPre, None)
    else
      var split := SplitPre(LowerString(pre));
      SplitPreName(pre);
      ExpandStageWord(split.name);
      var counter := if split.digits.Some? then IntCast(split.digits.value) else 1;
      PreRelease(StageOf(ExpandPreShorthand(split.name)), Some(counter))
  }

  /** A token whose counter part holds no digits is its stage word alone. */
  lemma CounterEmptyIsWord(pre: string)
    requires PreToken(pre)
    requires var t := LowerString(pre); var k := LetterRunEnd(t, 0);
      var j := if k < |t| && t[k] == '.' then k + 1 else k;
      DigitRunEnd(t, j) <= j
    ensures LowerString(pre) == LowerString(pre)[..StageWordEnd(pre, 0)]
  {
    var w := StageWordEnd(pre, 0);
    var t := LowerString(pre);
    PreTokenShape(pre);
    if w < |pre| {
      forall j | w <= j < |t|
        ensures t[j] == pre[j]
      {
        assert t[w..][j - w] == pre[w..][j - w];
      }
      if pre[w] == '.' {
        DigitRunEndSuffix(t, pre, w + 1);
      }
    }
  }

  /** Digit runs read the same in two texts that agree from `i` on. */
  lemma {:induction false} DigitRunEndSuffix(t: string, u: string, i: nat)
    requires i <= |t| && |t| == |u|
    requires forall j :: i <= j < |t| ==> t[j] == u[j]
    ensures DigitRunEnd(t, i) == DigitRunEnd(u, i)
    decreases |t| - i
  {
    if i < |t| {
      DigitRunEndSuffix(t, u, i + 1);
    }
  }

  // ---------------------------------------------------------------------------
  // Construction, fromString, __toString
  // ---------------------------------------------------------------------------

  /** `new Version($major, $minor, $patch, $pre, $build)`, the integer casts already
      applied; the flag starts out true. */
  function Construct(major: int, minor: int, patch: int, pre: string, build: int): Version
    requires pre == "" || PreToken(pre)
  {
    var p := ImportPre(pre);
    Version(major, minor, patch, p.stage, p.counter, build, true)
  }

  /** The version built from the captures of a match: `$matches += ['', 0, 0, 0, null, 0]`
      fills in the groups that did not take part, and the constructor casts with `(int)`. */
  function Captured(s: string, m: Match): (v: Version)
    requires ReadFrom(s, m)
    ensures v.alwaysInclude && v.major >= 0 && v.minor >= 0 && v.patch >= 0
    ensures (v.stage == NoPre <==> v.counter.None?) && (v.counter.Some? ==> v.counter.value >= 0)
  {
    var g := GroupsOf(s, m);
    CapturesShape(s, m);
    Construct(IntCast(g.major), IntCast(g.minor), IntCast(g.patch),
              if g.pre.Some? then g.pre.value else "",
              if g.build.Some? then IntCast(g.build.value) else 0)
  }

  /** `Version::fromString`: the leftmost match anywhere in the text, or an error when
      the text holds no version. */
  function FromString(s: string): (r: Result<Version, VersionError>)
    ensures r.Err? <==> NoVersionIn(s)
    ensures r.Err? ==> r.error == ParseError(s)
    ensures r.Ok? ==> r.value.alwaysInclude && r.value.major >= 0 && r.value.minor >= 0 && r.value.patch >= 0
    ensures r.Ok? ==> (r.value.stage == NoPre <==> r.value.counter.None?)
  {
    match Find(s, 0)
    case None => Err(ParseError(s))
    case Some(i) => MatchAtParts(s, i); Ok(Captured(s, MatchAt(s, i).value))
  }

  /** `__toString` appends the counter when it exceeds 1 or the flag is on; a null
      counter appends nothing either way. */
  predicate ShowsCounter(v: Version) {
    v.counter.Some? && (v.counter.value > 1 || v.alwaysInclude)
  }

  function PreText(v: Version): string {
    if v.stage == NoPre then ""
    else "-" + StageName(v.stage) + (if ShowsCounter(v) then IntToString(v.counter.value) else "")
  }

  function BuildText(v: Version): string {
    if v.build != 0 then "+" + IntToString(v.build) else ""
  }

  /** `__toString`: "major.minor.patch", then the stage when there is one, then the
      build when it is not 0. */
  function Render(v: Version): string {
    IntToString(v.major) + "." + IntToString(v.minor) + "." + IntToString(v.patch) + (PreText(v) + BuildText(v))
  }

  // ---------------------------------------------------------------------------
  // __call: increase, decrease, rc/beta/alpha; stable(); dev()
  // ---------------------------------------------------------------------------

  /** The properties `increase`/`decrease` may name. */
  datatype Target = Major | Minor | Patch | PreVersion | Build

  /** The value `+=` starts from (a null counter reads as 0). */
  function Get(v: Version, t: Target): int {
    match t
    case Major => v.major
    case Minor => v.minor
    case Patch => v.patch
    case PreVersion => CounterOr0(v)
    case Build => v.build
  }

  function Put(v: Version, t: Target, x: int): Version {
    match t
    case Major => v.(major := x)
    case Minor => v.(minor := x)
    case Patch => v.(patch := x)
    case PreVersion => v.(counter := Some(x))
    case Build => v.(build := x)
  }

  /** Targets whose change resets the pre-release (and the lower numbers). */
  predicate Resets(t: Target) {
    t == Major || t == Minor || t == Patch
  }

  /** The fall-through `switch`: major zeroes minor, major and minor zero patch, and all
      three clear the stage and its counter. */
  function Cascade(v: Version, t: Target): Version {
    match t
    case Major => v.(minor := 0, patch := 0, stage := NoPre, counter := None)
    case Minor => v.(patch := 0, stage := NoPre, counter := None)
    case Patch => v.(stage := NoPre, counter := None)
    case _ => v
  }

  /** One `__call` of `increase`/`decrease`: add, cascade, then (decrease only) floor
      the target, judged by the value before the call: a counter that was at most 1
      becomes 1, any other target that was at most 0 becomes 0. */
  function Step(v: Version, t: Target, add: int): Version
    requires add == 1 || add == -1
  {
    var m := Cascade(Put(v, t, Get(v, t) + add), t);
    if add < 0 && t == PreVersion && Get(v, t) <= 1 then Put(m, t, 1)
    else if add < 0 && Get(v, t) <= 0 then Put(m, t, 0)
    else m
  }

  /** The other parts of a version are those a target's cascade leaves alone. */
  predicate KeepsRest(v: Version, r: Version, t: Target) {
    && r.alwaysInclude == v.alwaysInclude
    && (t != Major ==> r.major == v.major)
    && (t != Major && t != Minor ==> r.minor == v.minor)
    && (!Resets(t) ==> r.patch == v.patch && r.stage == v.stage)
    && (t != Build ==> r.build == v.build)
    && (t == Build ==> r.counter == v.counter)
  }

  /** What every reset leaves behind: lower numbers zeroed, no stage, a null counter. */
  predicate ResetBelow(r: Version, t: Target) {
    && (t == Major ==> r.minor == 0)
    && (t == Major || t == Minor ==> r.patch == 0)
    && (Resets(t) ==> r.stage == NoPre && r.counter.None?)
  }

  /** `major()`, `minor()`, `patch()`, `preVersion()`, `build()`. */
  function Increase(v: Version, t: Target): (r: Version)
    ensures Get(r, t) == Get(v, t) + 1 && ResetBelow(r, t) && KeepsRest(v, r, t)
    ensures t == PreVersion ==> r.counter == Some(CounterOr0(v) + 1)
  {
    Step(v, t, 1)
  }

  /** `decreaseMajor()` and the others: never below 0, the counter never below 1. */
  function Decrease(v: Version, t: Target): (r: Version)
    ensures t != PreVersion ==> Get(r, t) == (if Get(v, t) <= 0 then 0 else Get(v, t) - 1)
    ensures t == PreVersion ==> r.counter == Some(if CounterOr0(v) <= 1 then 1 else CounterOr0(v) - 1)
    ensures ResetBelow(r, t) && KeepsRest(v, r, t)
    ensures Get(r, t) >= 0 && (t == PreVersion ==> Get(r, t) >= 1)
  {
    Step(v, t, -1)
  }

  /** `rc()`, `beta()`, `alpha()`: at the same stage the counter becomes the argument or
      goes up by one; otherwise the stage switches and the counter becomes the
      argument or 1. The numbers, the build and the flag stay. */
  function EnterPre(v: Version, st: PreStage, arg: Option<int>): (r: Version)
    ensures r.stage == st
    ensures r.counter == Some(if arg.Some? then arg.value else if v.stage == st then CounterOr0(v) + 1 else 1)
    ensures r.major == v.major && r.minor == v.minor && r.patch == v.patch
    ensures r.build == v.build && r.alwaysInclude == v.alwaysInclude
  {
    if v.stage == st then
      v.(counter := Some(if arg.Some? then arg.value else CounterOr0(v) + 1))
    else
      v.(stage := st, counter := Some(if arg.Some? then arg.value else 1))
  }

  /** `stable()`: no stage, null counter, everything else kept. */
  function Stable(v: Version): (r: Version)
    ensures r.stage == NoPre && r.counter.None?
    ensures r.(stage := v.stage, counter := v.counter) == v
  {
    v.(stage := NoPre, counter := None)
  }

  /** `dev()`: stage dev, null counter, everything else kept. */
  function ToDevStage(v: Version): (r: Version)
    ensures r.stage == Dev && r.counter.None?
    ensures r.(stage := v.stage, counter := v.counter) == v
  {
    v.(stage := Dev, counter := None)
  }

  /** The modifiers, as a closed set of operations. */
  datatype Op =
    | Up(target: Target)
    | Down(target: Target)
    | Enter(stage: PreStage, arg: Option<int>)
    | ToStable
    | ToDev

  function Apply(v: Version, op: Op): Version {
    match op
    case Up(t) => Increase(v, t)
    case Down(t) => Decrease(v, t)
    case Enter(st, arg) => EnterPre(v, st, arg)
    case ToStable => Stable(v)
    case ToDev => ToDevStage(v)
  }

  // ---------------------------------------------------------------------------
  // The names __call accepts
  // ---------------------------------------------------------------------------

  /** `lcfirst`. */
  function LcFirst(s: string): string {
    if |s| == 0 then s else [Lower(s[0])] + s[1..]
  }

  function TargetOf(name: string): Option<Target> {
    if name == "major" then Some(Major)
    else if name == "minor" then Some(Minor)
    else if name == "patch" then Some(Patch)
    else if name == "preVersion" then Some(PreVersion)
    else if name == "build" then Some(Build)
    else None
  }

  /** How `__call` reads a method name and its arguments: a stage name first; otherwise
      an optional "decrease" prefix whose remainder, `lcfirst`-ed, must name a target.
      `isset($arguments[0])` treats a missing and a null first argument alike. */
  function Resolve(name: string, args: seq<Option<int>>): (r: Result<Op, VersionError>)
    ensures r.Err? ==> r.error == UnsupportedOperation(name)
  {
    var arg := if |args| > 0 then args[0] else None;
    if name == "rc" then Ok(Op.Enter(Rc, arg))
    else if name == "beta" then Ok(Op.Enter(Beta, arg))
    else if name == "alpha" then Ok(Op.Enter(Alpha, arg))
    else if |name| >= 8 && name[..8] == "decrease" then
      match TargetOf(LcFirst(name[8..]))
      case None => Err(UnsupportedOperation(name))
      case Some(t) => Ok(Op.Down(t))
    else
      match TargetOf(name)
      case None => Err(UnsupportedOperation(name))
      case Some(t) => Ok(Op.Up(t))
  }

  /** `$version->$name(...$args)` through `__call`. */
  function Call(v: Version, name: string, args: seq<Option<int>>): (r: Result<Version, VersionError>)
    ensures r.Err? <==> Resolve(name, args).Err?
  {
    match Resolve(name, args)
    case Err(e) => Err(e)
    case Ok(op) => Ok(Apply(v, op))
  }
}
