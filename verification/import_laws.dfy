/** `strtolower`, `expandPreShorthand` and `importPre` of src/Version.php read by
    parts: what lower-casing and expanding promise, and what a stage token imports as,
    from its word and its counter digits. */
module ImportLaws {
  import opened Results
  import opened Numerals
  import opened VersionRegex
  import opened Versions
  import opened RoundTrip

  /** Lower-casing changes exactly the upper-case ASCII letters, leaves none behind,
      and so changes nothing the second time. */
  lemma LowerStringLaws(s: string)
    ensures forall j :: 0 <= j < |s| ==> (LowerString(s)[j] != s[j] <==> 'A' <= s[j] <= 'Z')
    ensures forall j :: 0 <= j < |s| ==> !('A' <= LowerString(s)[j] <= 'Z')
    ensures LowerString(LowerString(s)) == LowerString(s)
  {
    var t := LowerString(s);
    assert forall j :: 0 <= j < |t| ==> LowerString(t)[j] == t[j];
  }

  /** Expanding is blind to case, settles after one step, and turns every stage word
      into a stage name with the same first letter; only the one-letter words change. */
  lemma ExpandShorthandLaws(word: string)
    ensures ExpandPreShorthand(word) == ExpandPreShorthand(LowerString(word))
    ensures ExpandPreShorthand(ExpandPreShorthand(word)) == ExpandPreShorthand(word)
    ensures IsStageWord(LowerString(word)) ==>
      && IsStageName(ExpandPreShorthand(word))
      && ExpandPreShorthand(word)[0] == LowerString(word)[0]
      && (|word| > 1 <==> ExpandPreShorthand(word) == LowerString(word))
  {
    var l := LowerString(word);
    LowerStringLaws(word);
    var e := ExpandPreShorthand(word);
    LowerStringLaws(e);
    if IsStageWord(l) {
      ExpandStageWord(l);
    }
  }

  /** The stage word at the front of a stage token, as written. */
  function TokenWord(pre: string): string
    requires PreToken(pre)
  {
    pre[..StageWordEnd(pre, 0)]
  }

  /** The counter digits of a stage token: what follows the stage word, less the dot
      written before them; empty when there is no counter. */
  function TokenDigits(pre: string): string
    requires PreToken(pre)
  {
    var w := StageWordEnd(pre, 0);
    if w < |pre| && pre[w] == '.' then pre[w + 1..] else pre[w..]
  }

  /** What `importPre` makes of a stage token, read off its parts: the stage its word
      names once lower-cased and expanded, and the counter its digits spell, 1 when
      there are none. */
  lemma ImportPreParts(pre: string)
    requires PreToken(pre)
    ensures IsStageWord(LowerString(TokenWord(pre))) && AllDigits(TokenDigits(pre))
    ensures IsStageName(ExpandPreShorthand(TokenWord(pre)))
    ensures ImportPre(pre) == PreRelease(StageOf(ExpandPreShorthand(TokenWord(pre))),
                                         Some(if TokenDigits(pre) == "" then 1 else IntCast(TokenDigits(pre))))
  {
    var w := StageWordEnd(pre, 0);
    var t := LowerString(pre);
    TokenWordLowered(pre);
    TokenDigitsShape(pre);
    SplitLoweredToken(pre);
    ExpandShorthandLaws(TokenWord(pre));
    ExpandStageWord(t[..w]);
  }

  /** The word of a token, lower-cased, is the front of the lower-cased token and a
      stage word. */
  lemma TokenWordLowered(pre: string)
    requires PreToken(pre)
    ensures var w := StageWordEnd(pre, 0);
      LowerString(TokenWord(pre)) == LowerString(pre)[..w] && IsStageWord(LowerString(pre)[..w])
  {
    PreTokenShape(pre);
  }

  /** The counter digits of a token are digits, and they run to the end of the token
      from just after the stage word and its dot. */
  lemma TokenDigitsShape(pre: string)
    requires PreToken(pre)
    ensures var w := StageWordEnd(pre, 0);
      var j := if w < |pre| && pre[w] == '.' then w + 1 else w;
      && AllDigits(TokenDigits(pre))
      && TokenDigits(pre) == pre[j..]
      && (TokenDigits(pre) == "" ==> w == |pre|)
      && DigitRunEnd(pre, j) == |pre|
  {
    var w := StageWordEnd(pre, 0);
    if w < |pre| && pre[w] == '.' {
      assert !IsDigit(pre[w]);
      DigitRunDigits(pre, w + 1);
    } else {
      DigitRunDigits(pre, w);
    }
  }

  /** The split `importPre` makes of a lower-cased token: its word and, when there are
      any, its counter digits. */
  lemma SplitLoweredToken(pre: string)
    requires PreToken(pre)
    ensures var w := StageWordEnd(pre, 0); var t := LowerString(pre);
      SplitPre(t) == PreSplit(t[..w], if TokenDigits(pre) == "" then None else Some(TokenDigits(pre)))
  {
    var w := StageWordEnd(pre, 0);
    var t := LowerString(pre);
    PreTokenShape(pre);
    TokenDigitsShape(pre);
    LoweredCounter(pre);
    SplitWordDigits(t, w, TokenDigits(pre));
  }

  /** A letter run followed by digits (a dot before them allowed) to the end splits
      into the two. */
  lemma SplitWordDigits(t: string, w: nat, d: string)
    requires 0 < w <= |t| && LetterRunEnd(t, 0) == w
    requires var j := if w < |t| && t[w] == '.' then w + 1 else w;
      j <= |t| && t[j..] == d && DigitRunEnd(t, j) == |t| && (d == "" ==> w == |t|)
    ensures SplitPre(t) == PreSplit(t[..w], if d == "" then None else Some(d))
  {
    var j := if w < |t| && t[w] == '.' then w + 1 else w;
    if d == "" {
      assert t[..w] == t;
    } else {
      assert t[j..|t|] == d;
    }
  }

  /** Lower-casing leaves the counter part of a token alone, so its digits run to the
      end of the lower-cased token too. */
  lemma LoweredCounter(pre: string)
    requires PreToken(pre)
    ensures var w := StageWordEnd(pre, 0); var t := LowerString(pre);
      var j := if w < |pre| && pre[w] == '.' then w + 1 else w;
      && (w < |t| ==> t[w] == pre[w])
      && t[j..] == pre[j..]
      && DigitRunEnd(t, j) == |t|
  {
    var w := StageWordEnd(pre, 0);
    var t := LowerString(pre);
    PreTokenShape(pre);
    TokenDigitsShape(pre);
    var j := if w < |pre| && pre[w] == '.' then w + 1 else w;
    assert w < |t| ==> t[w] == t[w..][0] == pre[w];
    forall x | w <= x < |t| ensures t[x] == pre[x] {
      assert t[w..][x - w] == pre[w..][x - w];
    }
    DigitRunEndSuffix(t, pre, j);
  }

  /** `importPre` does not see case: the lower-cased token is a token and imports
      the same. */
  lemma ImportPreIgnoresCase(pre: string)
    requires PreToken(pre)
    ensures PreToken(LowerString(pre))
    ensures ImportPre(LowerString(pre)) == ImportPre(pre)
  {
    var t := LowerString(pre);
    var w := StageWordEnd(pre, 0);
    forall j: nat ensures Folded(t, j) == Folded(pre, j) {
    }
    assert StageWordEnd(t, 0) == w;
    PreTokenShape(pre);
    forall x | w <= x < |t| ensures t[x] == pre[x] {
      assert t[w..][x - w] == pre[w..][x - w];
    }
    DigitRunEndSuffix(t, pre, w);
    if w < |t| {
      DigitRunEndSuffix(t, pre, w + 1);
    }
    assert CounterEnd(t, w) == CounterEnd(pre, w);
    LowerStringLaws(pre);
  }

  /** A stage word followed by the end, a dot or a digit is read whole. */
  lemma StageWordBeforeCounter(x: string, word: string)
    requires IsStageWord(LowerString(word)) && |word| <= |x| && x[..|word|] == word
    requires |word| == |x| || x[|word|] == '.' || IsDigit(x[|word|])
    ensures StageWordEnd(x, 0) == |word|
  {
    var l := LowerString(word);
    assert forall j :: 0 <= j < |word| ==> Folded(x, j) == l[j] by {
      forall j | 0 <= j < |word| ensures Folded(x, j) == l[j] {
        assert x[j] == x[..|word|][j];
      }
    }
    var c := Folded(x, |word|);
    assert c == ' ' || c == '.' || IsDigit(c);
    if l == "dev" {
      assert Folded(x, 0) == 'd' && Folded(x, 1) == 'e' && Folded(x, 2) == 'v';
    } else if l == "beta" {
      assert Folded(x, 0) == 'b' && Folded(x, 1) == 'e' && Folded(x, 2) == 't' && Folded(x, 3) == 'a';
    } else if l == "alpha" {
      assert Folded(x, 0) == 'a' && Folded(x, 1) == 'l' && Folded(x, 2) == 'p' && Folded(x, 3) == 'h';
      assert Folded(x, 4) == 'a';
    } else if l == "rc" {
      assert Folded(x, 0) == 'r' && Folded(x, 1) == 'c';
    } else {
      assert Folded(x, 0) == l[0];
    }
  }

  /** A stage word followed by counter digits, the dot written or not. */
  lemma WordDigitsToken(word: string, sep: string, d: string)
    requires IsStageWord(LowerString(word)) && AllDigits(d) && (sep == "" || (sep == "." && d != ""))
    ensures PreToken(word + sep + d)
    ensures TokenWord(word + sep + d) == word && TokenDigits(word + sep + d) == d
  {
    var x := word + sep + d;
    var w := |word|;
    assert x[..w] == word;
    if w < |x| {
      assert x[w] == if sep == "" then d[0] else '.';
    }
    StageWordBeforeCounter(x, word);
    var j := w + |sep|;
    assert x[j..] == d;
    DigitsAt(x, j, d);
    if sep == "." {
      assert x[w] == '.';
    } else if d != [] {
      assert x[w] == d[0];
    }
    assert CounterEnd(x, w) == |x|;
  }

  /** The dot before the counter is optional: with or without it the token imports
      the same. */
  lemma ImportPreDotOptional(word: string, d: string)
    requires IsStageWord(LowerString(word)) && AllDigits(d) && d != ""
    ensures PreToken(word + "." + d) && PreToken(word + d)
    ensures ImportPre(word + "." + d) == ImportPre(word + d)
  {
    WordDigitsToken(word, ".", d);
    WordDigitsToken(word, "", d);
    assert word + "" + d == word + d;
    ImportPreParts(word + "." + d);
    ImportPreParts(word + d);
  }

  /** `a` and `b` (in either case) import as `alpha` and `beta` do, whatever counter
      follows. */
  lemma ImportPreShorthand(word: string, d: string)
    requires |word| == 1 && IsStageWord(LowerString(word)) && AllDigits(d)
    ensures PreToken(word + d) && PreToken(ExpandPreShorthand(word) + d)
    ensures ImportPre(word + d) == ImportPre(ExpandPreShorthand(word) + d)
  {
    var e := ExpandPreShorthand(word);
    ExpandShorthandLaws(word);
    LowerStringLaws(e);
    assert LowerString(e) == e;
    WordDigitsToken(word, "", d);
    WordDigitsToken(e, "", d);
    assert word + "" + d == word + d && e + "" + d == e + d;
    ImportPreParts(word + d);
    ImportPreParts(e + d);
  }
}
