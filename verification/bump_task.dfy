/** The bump task of src/Task/Bump.php, without its files: which calls it records, how
    `bump` turns one version text into the new one, and how `bumpVersionInString`
    rewrites every version inside a span of text. */
module BumpTask {
  import opened Results
  import opened Numerals
  import opened VersionRegex
  import opened Versions
  import opened VersionLaws

  // ---------------------------------------------------------------------------
  // Recording calls
  // ---------------------------------------------------------------------------

  /** `POSSIBLE_CALLS`: the modifiers the task records for `Version`. */
  const PossibleCalls: seq<string> := [
    "major", "decreaseMajor", "minor", "decreaseMinor", "patch", "decreasePatch",
    "preVersion", "decreasePreVersion", "build", "decreaseBuild", "rc", "beta", "alpha"
  ]

  /** One entry of `$calls`: a method name and its arguments. */
  datatype RecordedCall = RecordedCall(name: string, args: seq<Option<int>>)

  /** The state `bump` reads: `$to` (null is `None`) and `$calls`. */
  datatype Task = Task(to: Option<string>, calls: seq<RecordedCall>)

  /** What `__call` does with a call: records it, or hands it to the dynamic
      parameter setter, which is not part of this model. */
  datatype Outcome = Recorded(task: Task) | Delegated(call: RecordedCall)

  /** `Bump::__call`. */
  function Record(task: Task, c: RecordedCall): (o: Outcome)
    ensures o.Recorded? <==> c.name in PossibleCalls
    ensures o.Recorded? ==> o.task.to == task.to && o.task.calls == task.calls + [c]
    ensures o.Delegated? ==> o.call == c
  {
    if c.name in PossibleCalls then Recorded(task.(calls := task.calls + [c])) else Delegated(c)
  }

  /** A sequence of calls on the task, in order; the delegated ones leave the calls alone. */
  function RecordAll(task: Task, cs: seq<RecordedCall>): Task
    decreases |cs|
  {
    if |cs| == 0 then task
    else
      var next := match Record(task, cs[0]) case Recorded(t) => t case Delegated(_) => task;
      RecordAll(next, cs[1..])
  }

  /** The calls among `cs` whose names are recordable, in their order. */
  function Recordables(cs: seq<RecordedCall>): (r: seq<RecordedCall>)
    ensures |r| <= |cs|
    ensures forall k :: 0 <= k < |r| ==> r[k].name in PossibleCalls
    decreases |cs|
  {
    if |cs| == 0 then []
    else (if cs[0].name in PossibleCalls then [cs[0]] else []) + Recordables(cs[1..])
  }

  /** Recording appends exactly the recordable calls, in the order they were made;
      the calls handed on are not applied here, so the target stays as it was. */
  lemma {:induction false} RecordAllAppends(task: Task, cs: seq<RecordedCall>)
    ensures RecordAll(task, cs).calls == task.calls + Recordables(cs)
    ensures RecordAll(task, cs).to == task.to
    decreases |cs|
  {
    if |cs| > 0 {
      var next := match Record(task, cs[0]) case Recorded(t) => t case Delegated(_) => task;
      RecordAllAppends(next, cs[1..]);
      assert task.calls + Recordables(cs)
          == task.calls + (if cs[0].name in PossibleCalls then [cs[0]] else []) + Recordables(cs[1..]);
    }
  }

  /** A task whose every call was recorded through `__call`. */
  predicate Recordable(task: Task) {
    forall k :: 0 <= k < |task.calls| ==> task.calls[k].name in PossibleCalls
  }

  /** A new task (no calls, no target) only ever holds recordable calls. */
  lemma RecordedAreRecordable(cs: seq<RecordedCall>)
    ensures Recordable(RecordAll(Task(None, []), cs))
  {
    RecordAllAppends(Task(None, []), cs);
    assert RecordAll(Task(None, []), cs).calls == Recordables(cs);
  }

  /** `stable` and `dev` are not recorded: the task cannot replay them. */
  lemma StableAndDevNotRecorded(task: Task, args: seq<Option<int>>)
    ensures Record(task, RecordedCall("stable", args)).Delegated?
    ensures Record(task, RecordedCall("dev", args)).Delegated?
  {
  }

  /** Every recordable name is one `Version::__call` accepts. */
  lemma RecordableAccepted(name: string, args: seq<Option<int>>)
    requires name in PossibleCalls
    ensures Resolve(name, args).Ok?
  {
    if name == "preVersion" {
      assert name[..8][0] != "decrease"[0];
    } else if |name| >= 8 && name[..8] == "decrease" {
      DecreaseAccepted(name, args);
    }
  }

  lemma DecreaseAccepted(name: string, args: seq<Option<int>>)
    requires name in {"decreaseMajor", "decreaseMinor", "decreasePatch", "decreasePreVersion", "decreaseBuild"}
    ensures Resolve(name, args).Ok?
  {
    CapitalTargets();
    if name == "decreaseMajor" {
      DecreaseNamedWith(Major, name, args);
    } else if name == "decreaseMinor" {
      DecreaseNamedWith(Minor, name, args);
    } else if name == "decreasePatch" {
      DecreaseNamedWith(Patch, name, args);
    } else if name == "decreasePreVersion" {
      DecreaseNamedWith(PreVersion, name, args);
    } else {
      DecreaseNamedWith(Build, name, args);
    }
  }

  /** The decrease names read the same whatever arguments come with them. */
  lemma DecreaseNamedWith(t: Target, name: string, args: seq<Option<int>>)
    requires name == "decrease" + Capital(TargetName(t))
    ensures Resolve(name, args) == Ok(Down(t))
  {
    DecreaseNamed(t, name);
    assert name[..8] == "decrease";
  }

  // ---------------------------------------------------------------------------
  // bump
  // ---------------------------------------------------------------------------

  /** `call_user_func_array` over the recorded calls, each on the previous result.
      Calls go through `Call`, which knows the names `__call` dispatches; `stable` and
      `dev` are public methods it does not know. Replay therefore assumes the calls were
      recorded through `__call`, which never stores those two names. */
  function Replay(v: Version, calls: seq<RecordedCall>): (r: Result<Version, VersionError>)
    decreases |calls|
  {
    if |calls| == 0 then Ok(v)
    else
      var w :- Call(v, calls[0].name, calls[0].args);
      Replay(w, calls[1..])
  }

  /** The operations, applied in order. */
  function ApplyAll(v: Version, ops: seq<Op>): Version
    decreases |ops|
  {
    if |ops| == 0 then v else ApplyAll(Apply(v, ops[0]), ops[1..])
  }

  /** The operation a recordable call stands for. */
  function OpOf(c: RecordedCall): Op
    requires c.name in PossibleCalls
  {
    RecordableAccepted(c.name, c.args);
    Resolve(c.name, c.args).value
  }

  function OpsOf(calls: seq<RecordedCall>): (ops: seq<Op>)
    requires forall k :: 0 <= k < |calls| ==> calls[k].name in PossibleCalls
    ensures |ops| == |calls|
    decreases |calls|
  {
    if |calls| == 0 then [] else [OpOf(calls[0])] + OpsOf(calls[1..])
  }

  /** Replaying recorded calls never raises: it applies their operations in order. */
  lemma {:induction false} ReplayRecorded(v: Version, calls: seq<RecordedCall>)
    requires forall k :: 0 <= k < |calls| ==> calls[k].name in PossibleCalls
    ensures Replay(v, calls) == Ok(ApplyAll(v, OpsOf(calls)))
    decreases |calls|
  {
    if |calls| > 0 {
      RecordableAccepted(calls[0].name, calls[0].args);
      ReplayRecorded(Apply(v, OpOf(calls[0])), calls[1..]);
      assert OpsOf(calls)[1..] == OpsOf(calls[1..]);
    }
  }

  /** `if ($this->to)`: PHP truthiness, under which null, "" and "0" are all unset. */
  predicate Truthy(to: Option<string>) {
    to.Some? && to.value != "" && to.value != "0"
  }

  /** `Bump::bump`: the fixed target when one is set, otherwise the parsed version with
      the recorded calls applied, rendered. */
  function Bump(task: Task, text: string): (r: Result<string, VersionError>)
    ensures Truthy(task.to) ==> r == Ok(task.to.value)
    ensures !Truthy(task.to) && NoVersionIn(text) ==> r == Err(ParseError(text))
  {
    if Truthy(task.to) then Ok(task.to.value)
    else
      var v :- FromString(text);
      var w :- Replay(v, task.calls);
      Ok(Render(w))
  }

  /** Without a target, a recordable task bumps any text holding a version: the
      operations of its calls, in order, on the version found, rendered. */
  lemma BumpApplies(task: Task, text: string)
    requires Recordable(task) && !Truthy(task.to) && FromString(text).Ok?
    ensures Bump(task, text) == Ok(Render(ApplyAll(FromString(text).value, OpsOf(task.calls))))
  {
    ReplayRecorded(FromString(text).value, task.calls);
  }

  /** With no calls and no target, `bump` renders what it parsed: the text comes
      back in its normal form. */
  lemma EmptyPipelineRenders(to: Option<string>, text: string)
    requires !Truthy(to) && FromString(text).Ok?
    ensures Bump(Task(to, []), text) == Ok(Render(FromString(text).value))
  {
    BumpApplies(Task(to, []), text);
  }

  // ---------------------------------------------------------------------------
  // bumpVersionInString
  // ---------------------------------------------------------------------------

  /** A span cut where the pattern matches: text between matches, and matches. */
  datatype Piece = Gap(text: string) | Hit(text: string)

  /** How `preg_replace_callback` walks `s` from `from`: the leftmost match, then on
      from where it ends, until no match is left. */
  function Pieces(s: string, from: nat): (ps: seq<Piece>)
    requires from <= |s|
    ensures |ps| > 0 && ps[|ps| - 1].Gap?
    decreases |s| - from
  {
    match Find(s, from)
    case None => [Gap(s[from..])]
    case Some(i) =>
      var e := MatchAt(s, i).value.end;
      [Gap(s[from..i]), Hit(s[i..e])] + Pieces(s, e)
  }

  /** The pieces put back together. */
  function Join(ps: seq<Piece>): string
    decreases |ps|
  {
    if |ps| == 0 then "" else ps[0].text + Join(ps[1..])
  }

  /** Each match replaced by what `f` makes of it, left to right; the first failure
      is what the whole replacement raises. */
  function Substitute(ps: seq<Piece>, f: string -> Result<string, VersionError>): (r: Result<string, VersionError>)
    decreases |ps|
  {
    if |ps| == 0 then Ok("")
    else
      var head :- if ps[0].Hit? then f(ps[0].text) else Ok(ps[0].text);
      var rest :- Substitute(ps[1..], f);
      Ok(head + rest)
  }

  /** `Bump::bumpVersionInString`. */
  function BumpVersionInString(task: Task, s: string): Result<string, VersionError> {
    Substitute(Pieces(s, 0), text => Bump(task, text))
  }

  /** The pieces cover the span exactly: nothing is dropped or repeated. */
  lemma {:induction false} PiecesJoin(s: string, from: nat)
    requires from <= |s|
    ensures Join(Pieces(s, from)) == s[from..]
    decreases |s| - from
  {
    match Find(s, from)
    case None =>
    case Some(i) =>
      var e := MatchAt(s, i).value.end;
      PiecesJoin(s, e);
      JoinStep(s[from..i], s[i..e], Pieces(s, e));
      Cut(s, from, i, e);
  }

  lemma JoinStep(g: string, h: string, rest: seq<Piece>)
    ensures Join([Gap(g), Hit(h)] + rest) == g + (h + Join(rest))
  {
    var ps := [Gap(g), Hit(h)] + rest;
    assert ps[1..][1..] == rest;
  }

  lemma Cut(s: string, from: nat, i: nat, e: nat)
    requires from <= i <= e <= |s|
    ensures s[from..] == s[from..i] + (s[i..e] + s[e..])
  {
  }

  /** A whole match of the pattern, starting at the first character. */
  predicate WholeMatch(t: string) {
    MatchAt(t, 0).Some? && MatchAt(t, 0).value.end == |t|
  }

  /** What the walk guarantees of each piece: a gap holds no version, a hit is one
      whole match and parses. */
  predicate Sound(p: Piece) {
    match p
    case Gap(t) => NoVersionIn(t)
    case Hit(t) => WholeMatch(t) && FromString(t).Ok?
  }

  lemma NoneAtEnd(t: string)
    ensures NumbersAt(t, |t|).None?
  {
  }

  /** The text before the leftmost match holds no version. */
  lemma GapBeforeMatch(s: string, from: nat, i: nat)
    requires from <= i <= |s|
    requires forall j :: from <= j < i ==> NumbersAt(s, j).None?
    ensures NoVersionIn(s[from..i])
  {
    var g := s[from..i];
    forall j | 0 <= j <= |g|
      ensures NumbersAt(g, j).None?
    {
      if j == |g| {
        NoneAtEnd(g);
      } else if NumbersAt(g, j).Some? {
        NumbersAtWindowFound(s, from, i, from + j);
      }
    }
  }

  /** A match cut out of the span is a whole match and parses to what was matched. */
  lemma HitSound(s: string, i: nat)
    requires i <= |s| && MatchAt(s, i).Some?
    ensures var e := MatchAt(s, i).value.end; i <= e <= |s| && Sound(Hit(s[i..e]))
  {
    var e := MatchAt(s, i).value.end;
    FindInWindow(s, i, e, i);
    ParseWindow(s, i, e, i);
  }

  lemma {:induction false} PiecesSound(s: string, from: nat)
    requires from <= |s|
    ensures forall k :: 0 <= k < |Pieces(s, from)| ==> Sound(Pieces(s, from)[k])
    decreases |s| - from
  {
    match Find(s, from)
    case None =>
      GapBeforeMatch(s, from, |s|);
      assert s[from..|s|] == s[from..];
    case Some(i) =>
      var e := MatchAt(s, i).value.end;
      GapBeforeMatch(s, from, i);
      HitSound(s, i);
      PiecesSound(s, e);
      SoundStep(Gap(s[from..i]), Hit(s[i..e]), Pieces(s, e));
  }

  lemma SoundStep(g: Piece, h: Piece, rest: seq<Piece>)
    requires Sound(g) && Sound(h)
    requires forall k :: 0 <= k < |rest| ==> Sound(rest[k])
    ensures forall k :: 0 <= k < |[g, h] + rest| ==> Sound(([g, h] + rest)[k])
  {
    AllStep(Sound, g, h, rest);
  }

  lemma AllStep(P: Piece -> bool, g: Piece, h: Piece, rest: seq<Piece>)
    requires P(g) && P(h)
    requires forall k :: 0 <= k < |rest| ==> P(rest[k])
    ensures forall k :: 0 <= k < |[g, h] + rest| ==> P(([g, h] + rest)[k])
  {
    var ps := [g, h] + rest;
    forall k | 0 <= k < |ps|
      ensures P(ps[k])
    {
      if k >= 2 {
        assert ps[k] == rest[k - 2];
      }
    }
  }

  /** A span without a version comes back unchanged, whatever the task. */
  lemma NoVersionUnchanged(task: Task, s: string)
    requires NoVersionIn(s)
    ensures BumpVersionInString(task, s) == Ok(s)
  {
    assert Find(s, 0).None?;
    assert Pieces(s, 0) == [Gap(s[0..])];
    var f := text => Bump(task, text);
    assert Substitute([Gap(s)], f) == Ok(s + "");
    assert s[0..] + "" == s;
  }

  /** Replacing each match by itself gives the span back: the text around the
      matches is kept verbatim. */
  lemma {:induction false} SubstituteSame(ps: seq<Piece>, f: string -> Result<string, VersionError>)
    requires forall k :: 0 <= k < |ps| ==> ps[k].Hit? ==> f(ps[k].text) == Ok(ps[k].text)
    ensures Substitute(ps, f) == Ok(Join(ps))
    decreases |ps|
  {
    if |ps| > 0 {
      SubstituteSame(ps[1..], f);
    }
  }

  /** With a fixed target set, the rewrite never fails and every match becomes the
      target, the rest of the span kept. */
  lemma {:induction false} SubstituteFixed(ps: seq<Piece>, task: Task)
    requires Truthy(task.to)
    ensures Substitute(ps, text => Bump(task, text)) == Ok(JoinWith(ps, task.to.value))
    decreases |ps|
  {
    if |ps| > 0 {
      SubstituteFixed(ps[1..], task);
    }
  }

  /** The pieces put back together with every match replaced by `t`. */
  function JoinWith(ps: seq<Piece>, t: string): string
    decreases |ps|
  {
    if |ps| == 0 then "" else (if ps[0].Hit? then t else ps[0].text) + JoinWith(ps[1..], t)
  }

  /** The pieces put back together with every match `h` replaced by `g(h)`. */
  function JoinMap(ps: seq<Piece>, g: string -> string): string
    decreases |ps|
  {
    if |ps| == 0 then "" else (if ps[0].Hit? then g(ps[0].text) else ps[0].text) + JoinMap(ps[1..], g)
  }

  /** When `f` turns every match into `g` of it, the replacement succeeds, keeps the
      text between matches and puts `g` of each match in its place. */
  lemma {:induction false} SubstituteMap(ps: seq<Piece>, f: string -> Result<string, VersionError>, g: string -> string)
    requires forall k :: 0 <= k < |ps| ==> ps[k].Hit? ==> f(ps[k].text) == Ok(g(ps[k].text))
    ensures Substitute(ps, f) == Ok(JoinMap(ps, g))
    decreases |ps|
  {
    if |ps| > 0 {
      SubstituteMap(ps[1..], f, g);
    }
  }

  /** A version text with recordable calls applied to it, rendered; any other text
      is kept. */
  function Rebumped(calls: seq<RecordedCall>, h: string): string
    requires forall k :: 0 <= k < |calls| ==> calls[k].name in PossibleCalls
  {
    match FromString(h)
    case Ok(v) => Render(ApplyAll(v, OpsOf(calls)))
    case Err(_) => h
  }

  /** Without a target, a recordable task rewrites a span match by match: the text
      between matches is kept and each match becomes the version it holds with the
      operations of the calls applied in order, rendered. */
  lemma BumpVersionInStringRecorded(task: Task, s: string)
    requires Recordable(task) && !Truthy(task.to)
    ensures BumpVersionInString(task, s) == Ok(JoinMap(Pieces(s, 0), h => Rebumped(task.calls, h)))
  {
    var ps := Pieces(s, 0);
    PiecesSound(s, 0);
    forall k | 0 <= k < |ps| && ps[k].Hit?
      ensures Bump(task, ps[k].text) == Ok(Rebumped(task.calls, ps[k].text))
    {
      BumpApplies(task, ps[k].text);
    }
    SubstituteMap(ps, text => Bump(task, text), h => Rebumped(task.calls, h));
  }

  /** A recordable task never fails on a span: each match parses, and replaying its
      calls raises nothing. */
  lemma {:induction false} SubstituteRecorded(ps: seq<Piece>, task: Task)
    requires Recordable(task)
    requires forall k :: 0 <= k < |ps| ==> Sound(ps[k])
    ensures Substitute(ps, text => Bump(task, text)).Ok?
    decreases |ps|
  {
    if |ps| > 0 {
      if ps[0].Hit? && !Truthy(task.to) {
        ReplayRecorded(FromString(ps[0].text).value, task.calls);
      }
      SubstituteRecorded(ps[1..], task);
    }
  }

  /** `bumpVersionInString` never raises for a task built through `__call`. */
  lemma BumpVersionInStringOk(task: Task, s: string)
    requires Recordable(task)
    ensures BumpVersionInString(task, s).Ok?
  {
    PiecesSound(s, 0);
    SubstituteRecorded(Pieces(s, 0), task);
  }

  // ---------------------------------------------------------------------------
  // Scenarios of test/Task/BumpTest.php
  // ---------------------------------------------------------------------------

  /** The block comment the tests bump in, around the version text `v`. */
  const LibraryLine: string := "/**\n * Library v"
  const CopyrightLines: string := "\n * Copyright 2011-2016 Acme Inc \n */"

  function Comment(v: string): string {
    LibraryLine + v + CopyrightLines
  }

  /** A position the three numbers cannot start at: not a digit. */
  lemma NoDigitNoNumbers(s: string, j: nat)
    requires j < |s| && !IsDigit(s[j])
    ensures NumbersAt(s, j).None?
  {
  }

  /** No version starts where no dot follows. */
  lemma NoDotNoNumbers(s: string, j: nat)
    requires j <= |s|
    requires forall k :: j <= k < |s| ==> s[k] != '.'
    ensures NumbersAt(s, j).None?
  {
    if NumbersAt(s, j).Some? {
      NumbersSpellTriple(s, j);
    }
  }

  /** The walk over a span holding a single version. */
  lemma PiecesOfOne(s: string, i: nat)
    requires i <= |s| && MatchAt(s, i).Some?
    requires forall j :: 0 <= j < i ==> NumbersAt(s, j).None?
    requires forall j :: MatchAt(s, i).value.end <= j <= |s| ==> NumbersAt(s, j).None?
    ensures var e := MatchAt(s, i).value.end;
      Pieces(s, 0) == [Gap(s[..i]), Hit(s[i..e]), Gap(s[e..])]
  {
    var e := MatchAt(s, i).value.end;
    FindFirst(s, i);
    assert Find(s, e).None?;
  }

  lemma CommentLines()
    ensures |LibraryLine| == 16 && forall j :: 0 <= j < 16 ==> !IsDigit(LibraryLine[j])
    ensures CopyrightLines[0] == '\n' && forall j :: 0 <= j < |CopyrightLines| ==> CopyrightLines[j] != '.'
  {
  }

  lemma MatchInComment(s: string)
    requires |s| > 21 && s[16..21] == "1.0.0" && s[21] == '\n'
    ensures MatchAt(s, 16).Some? && MatchAt(s, 16).value.end == 21
  {
    assert s[16] == '1' && s[17] == '.' && s[18] == '0' && s[19] == '.' && s[20] == '0';
    DigitRunEndIs(s, 16, 17);
    DigitRunEndIs(s, 18, 19);
    DigitRunEndIs(s, 20, 21);
  }

  /** "Copyright 2011-2016" holds no version: the comment's only match is "1.0.0". */
  lemma CommentPieces(s: string)
    requires s == Comment("1.0.0")
    ensures Pieces(s, 0) == [Gap(s[..16]), Hit(s[16..21]), Gap(s[21..])]
    ensures s[..16] == LibraryLine && s[16..21] == "1.0.0" && s[21..] == CopyrightLines
  {
    CommentLines();
    assert s[..16] == LibraryLine && s[16..21] == "1.0.0" && s[21..] == CopyrightLines;
    forall j | 0 <= j < 16
      ensures NumbersAt(s, j).None?
    {
      assert s[j] == LibraryLine[j];
      NoDigitNoNumbers(s, j);
    }
    forall j | 21 <= j <= |s|
      ensures NumbersAt(s, j).None?
    {
      forall k | j <= k < |s|
        ensures s[k] != '.'
      {
        assert s[k] == CopyrightLines[k - 21];
      }
      NoDotNoNumbers(s, j);
    }
    MatchInComment(s);
    PiecesOfOne(s, 16);
  }

  /** Three pieces, the middle one replaced. */
  lemma SubstituteOne(ps: seq<Piece>, f: string -> Result<string, VersionError>, a: string, h: string, b: string, t: string)
    requires ps == [Gap(a), Hit(h), Gap(b)]
    requires f(h) == Ok(t)
    ensures Substitute(ps, f) == Ok(a + t + b)
  {
    assert ps[1..][1..][1..] == [];
    assert Substitute(ps[1..][1..], f) == Ok(b + "");
    assert b + "" == b;
    assert a + (t + b) == a + t + b;
  }

  /** `->to('1.2.3')`: the version in the comment becomes 1.2.3; the years stay. */
  lemma ScenarioFixedTarget(s: string)
    requires s == Comment("1.0.0")
    ensures BumpVersionInString(Task(Some("1.2.3"), []), s) == Ok(Comment("1.2.3"))
  {
    CommentPieces(s);
    var task := Task(Some("1.2.3"), []);
    assert Bump(task, s[16..21]) == Ok("1.2.3");
    SubstituteOne(Pieces(s, 0), text => Bump(task, text), s[..16], s[16..21], s[21..], "1.2.3");
  }

  /** The calls `->major()->minor()->patch()->rc(2)` make. */
  const RelativeCalls: seq<RecordedCall> :=
    [RecordedCall("major", []), RecordedCall("minor", []), RecordedCall("patch", []), RecordedCall("rc", [Some(2)])]

  /** `->major()->minor()->patch()->rc(2)` on 1.0.0 gives 2.1.1-rc2; the years stay. */
  lemma ScenarioRelative(s: string)
    requires s == Comment("1.0.0")
    ensures BumpVersionInString(RecordAll(Task(None, []), RelativeCalls), s) == Ok(Comment("2.1.1-rc2"))
  {
    var task := RecordAll(Task(None, []), RelativeCalls);
    RecordAllAppends(Task(None, []), RelativeCalls);
    assert task == Task(None, RelativeCalls);
    CommentPieces(s);
    var v := Version(1, 0, 0, NoPre, None, 0, true);
    var w := Version(2, 1, 1, Rc, Some(2), 0, true);
    RelativeParse(s[16..21]);
    RelativeOps();
    RelativeApply(v);
    RelativeRender(w);
    BumpSteps(task, s[16..21], v, w, "2.1.1-rc2");
    SubstituteOne(Pieces(s, 0), text => Bump(task, text), s[..16], s[16..21], s[21..], "2.1.1-rc2");
  }

  /** The bump of one version text, put together from its three steps. */
  lemma BumpSteps(task: Task, h: string, v: Version, w: Version, t: string)
    requires Recordable(task) && !Truthy(task.to)
    requires FromString(h) == Ok(v) && ApplyAll(v, OpsOf(task.calls)) == w && Render(w) == t
    ensures Bump(task, h) == Ok(t)
  {
    BumpApplies(task, h);
  }

  lemma RelativeParse(h: string)
    requires h == "1.0.0"
    ensures FromString(h) == Ok(Version(1, 0, 0, NoPre, None, 0, true))
  {
    var v := Version(1, 0, 0, NoPre, None, 0, true);
    assert Render(v) == "1.0.0";
    ParseRendered(h, v);
  }

  lemma RelativeOps()
    ensures Recordable(Task(None, RelativeCalls))
    ensures OpsOf(RelativeCalls) == [Up(Major), Up(Minor), Up(Patch), Enter(Rc, Some(2))]
  {
    var cs := RelativeCalls;
    assert cs[0].name == "major" && cs[1].name == "minor" && cs[2].name == "patch" && cs[3].name == "rc";
    assert OpOf(cs[0]) == Up(Major);
    assert OpOf(cs[1]) == Up(Minor);
    assert OpOf(cs[2]) == Up(Patch);
    assert OpOf(cs[3]) == Enter(Rc, Some(2));
    assert cs[1..][1..][1..][1..] == [];
  }

  lemma RelativeApply(v: Version)
    requires v == Version(1, 0, 0, NoPre, None, 0, true)
    ensures ApplyAll(v, [Up(Major), Up(Minor), Up(Patch), Enter(Rc, Some(2))]) == Version(2, 1, 1, Rc, Some(2), 0, true)
  {
    var ops := [Up(Major), Up(Minor), Up(Patch), Enter(Rc, Some(2))];
    var v1 := Version(2, 0, 0, NoPre, None, 0, true);
    var v2 := Version(2, 1, 0, NoPre, None, 0, true);
    var v3 := Version(2, 1, 1, NoPre, None, 0, true);
    var v4 := Version(2, 1, 1, Rc, Some(2), 0, true);
    assert Apply(v, ops[0]) == v1;
    assert Apply(v1, ops[1]) == v2;
    assert Apply(v2, ops[2]) == v3;
    assert Apply(v3, ops[3]) == v4;
    assert ops[1..][1..][1..][1..] == [];
    assert ApplyAll(v4, ops[1..][1..][1..][1..]) == v4;
  }

  lemma RelativeRender(w: Version)
    requires w == Version(2, 1, 1, Rc, Some(2), 0, true)
    ensures Render(w) == "2.1.1-rc2"
  {
    assert PreText(w) == "-rc2";
  }
  /** The shorthand stage reads as the full one: "1.0.0-b" holds 1.0.0-beta1. */
  lemma ShorthandParse(s: string)
    requires s == "1.0.0-b"
    ensures FromString(s) == Ok(Version(1, 0, 0, Beta, Some(1), 0, true))
  {
    ShorthandMatch(s);
    MatchAtParts(s, 0);
    assert GroupsOf(s, Match(0, 1, 3, 5, 7, 7)) == Groups(s[0..1], s[2..3], s[4..5], Some(s[6..7]), None);
    assert s[0..1] == "1" && s[2..3] == "0" && s[4..5] == "0" && s[6..7] == "b";
    assert IntToString(1) == "1" && IntToString(0) == "0";
    IntCastRoundTrip(1);
    IntCastRoundTrip(0);
    ImportShorthand("b", Beta);
  }

  lemma ShorthandMatch(s: string)
    requires s == "1.0.0-b"
    ensures Find(s, 0) == Some(0) && MatchAt(s, 0) == Some(Match(0, 1, 3, 5, 7, 7))
  {
    assert s[0] == '1' && s[1] == '.' && s[2] == '0' && s[3] == '.' && s[4] == '0' && s[5] == '-' && s[6] == 'b';
    DigitRunEndIs(s, 0, 1);
    DigitRunEndIs(s, 2, 3);
    DigitRunEndIs(s, 4, 5);
    assert StageWordEnd(s, 6) == 7;
    DigitRunEndIs(s, 7, 7);
    assert NumbersAt(s, 0) == Some(Numbers(1, 3, 5));
    FindFirst(s, 0);
  }

  /** With no calls, `bump` turns "1.0.0-b" into "1.0.0-beta1". */
  lemma ScenarioNormalForm(s: string)
    requires s == "1.0.0-b"
    ensures Bump(Task(None, []), s) == Ok("1.0.0-beta1")
  {
    ShorthandParse(s);
    ShownBeta1();
    EmptyBumpShows(s, Version(1, 0, 0, Beta, Some(1), 0, true), "1.0.0-beta1");
  }

  lemma ShownBeta1()
    ensures Render(Version(1, 0, 0, Beta, Some(1), 0, true)) == "1.0.0-beta1"
  {
    ShownFirst(Beta);
    assert "1.0.0-" + StageName(Beta) + "1" == "1.0.0-beta1";
  }

  lemma EmptyBumpShows(text: string, v: Version, t: string)
    requires FromString(text) == Ok(v) && Render(v) == t
    ensures Bump(Task(None, []), text) == Ok(t)
  {
    EmptyPipelineRenders(None, text);
  }
}
