// The loop of getTranscript in main.js that replays backspaces: as long as the
// text contains one, delete the leftmost match of /.\x08/.
module Backspaces {

  /** A UTF-16 code unit, which is what a pattern without the u flag matches. */
  newtype Unit = x: int | 0 <= x < 0x1_0000

  type Text = seq<Unit>

  const BACKSPACE: Unit := 0x08

  /** Line terminators, section 12.3 of ECMA-262: what `.` does not match. */
  predicate IsLineTerminator(u: Unit) {
    u == 0x0A || u == 0x0D || u == 0x2028 || u == 0x2029
  }

  /** The pattern matches at `i`. Its dot matches a backspace as well as any other unit. */
  predicate MatchesAt(t: Text, i: nat) {
    i + 1 < |t| && !IsLineTerminator(t[i]) && t[i + 1] == BACKSPACE
  }

  function FirstMatch(t: Text, from: nat): (i: nat)
    requires from <= |t|
    ensures from <= i <= |t|
    ensures i < |t| ==> MatchesAt(t, i)
    ensures forall j :: from <= j < i ==> !MatchesAt(t, j)
    decreases |t| - from
  {
    if from == |t| || MatchesAt(t, from) then from else FirstMatch(t, from + 1)
  }

  /** text.replace(rgx, ""): the leftmost match goes; without a match the text stays. */
  function Replace(t: Text): Text {
    var i := FirstMatch(t, 0);
    if i == |t| then t else t[..i] + t[i + 2..]
  }

  function Iterate(t: Text, n: nat): Text {
    if n == 0 then t else Iterate(Replace(t), n - 1)
  }

  // ----- the stack machine

  /** Reads one unit: a backspace erases the unit before it on the line, and is kept when there is none. */
  function Push(stack: Text, u: Unit): Text {
    if u == BACKSPACE && stack != [] && !IsLineTerminator(stack[|stack| - 1])
    then stack[..|stack| - 1]
    else stack + [u]
  }

  function Play(stack: Text, input: Text): Text
    decreases input
  {
    if input == [] then stack else Play(Push(stack, input[0]), input[1..])
  }

  // ----- when the loop ends

  /** How many units the current line has left, and whether the lowest of them is a stranded backspace. */
  datatype Line = Line(units: nat, stranded: bool)

  function Advance(l: Line, u: Unit): Line {
    if IsLineTerminator(u) then Line(0, false)
    else if u != BACKSPACE then Line(l.units + 1, l.stranded)
    else if l.units == 0 then Line(1, true)
    else Line(l.units - 1, l.stranded && l.units > 1)
  }

  /** No line, read on its own, ends with a stranded backspace; a stranded one is erased by the next backspace that finds nothing else. */
  predicate LinesSettle(l: Line, input: Text)
    decreases input
  {
    if input == [] then !l.stranded
    else (IsLineTerminator(input[0]) ==> !l.stranded) && LinesSettle(Advance(l, input[0]), input[1..])
  }

  predicate Settles(t: Text) {
    LinesSettle(Line(0, false), t)
  }

  /** Every backspace finds a unit on its line that is not erased yet. */
  predicate NeverStrands(l: Line, input: Text)
    decreases input
  {
    input == []
    || ((input[0] == BACKSPACE ==> l.units > 0) && NeverStrands(Advance(l, input[0]), input[1..]))
  }

  /** Ordinary transcripts settle. */
  lemma {:induction false} OrdinaryTranscriptsSettle(l: Line, input: Text)
    requires NeverStrands(l, input) && !l.stranded
    ensures LinesSettle(l, input)
    decreases input
  {
    if input != [] {
      OrdinaryTranscriptsSettle(Advance(l, input[0]), input[1..]);
    }
  }

  // ----- the rewriting and the stack machine agree

  /** A text in which the pattern does not match. */
  ghost predicate Stuck(t: Text) {
    forall i :: 0 <= i < |t| ==> !MatchesAt(t, i)
  }

  lemma {:induction false} PlayConcat(stack: Text, a: Text, b: Text)
    ensures Play(stack, a + b) == Play(Play(stack, a), b)
    decreases a
  {
    if a == [] {
      assert a + b == b;
    } else {
      assert (a + b)[0] == a[0] && (a + b)[1..] == a[1..] + b;
      PlayConcat(Push(stack, a[0]), a[1..], b);
    }
  }

  /** Up to its first match a text goes onto the stack unchanged. */
  lemma {:induction false} PlayBeforeMatch(t: Text, n: nat)
    requires n <= |t| && forall i :: 0 <= i < n ==> i + 1 < n ==> !MatchesAt(t, i)
    ensures Play([], t[..n]) == t[..n]
  {
    if n > 0 {
      PlayBeforeMatch(t, n - 1);
      assert t[..n] == t[..n - 1] + [t[n - 1]];
      PlayConcat([], t[..n - 1], [t[n - 1]]);
      assert [t[n - 1]][1..] == [];
      assert n > 1 ==> !MatchesAt(t, n - 2);
    }
  }

  /** A backspace takes back the unit that has just gone onto the stack. */
  lemma PairCancels(stack: Text, u: Unit)
    requires Play(stack, [u]) == stack + [u] && !IsLineTerminator(u)
    ensures Play(stack, [u, BACKSPACE]) == stack
  {
    var both: Text := [u, BACKSPACE];
    assert both[1..] == [BACKSPACE] && [BACKSPACE][1..] == [] && [u][1..] == [];
    assert Push(stack, u) == Play(Push(stack, u), [u][1..]) == stack + [u];
    assert Play(stack + [u], [BACKSPACE]) == Play(Push(stack + [u], BACKSPACE), []);
  }

  /** So the pair can go, wherever it stands. */
  lemma PairCanGo(a: Text, u: Unit, b: Text)
    requires Play([], a) == a && Play([], a + [u]) == a + [u] && !IsLineTerminator(u)
    ensures Play([], a + ([u, BACKSPACE] + b)) == Play([], a + b)
  {
    PlayConcat([], a, [u]);
    PairCancels(a, u);
    PlayConcat([], a, [u, BACKSPACE] + b);
    PlayConcat(a, [u, BACKSPACE], b);
    PlayConcat([], a, b);
  }

  lemma AroundPair(t: Text, i: nat)
    requires MatchesAt(t, i)
    ensures t == t[..i] + ([t[i], BACKSPACE] + t[i + 2..]) && t[..i + 1] == t[..i] + [t[i]]
  {
  }

  /** One replacement does not change what the stack machine makes of the text. */
  lemma ReplaceKeepsPlay(t: Text)
    ensures Play([], Replace(t)) == Play([], t)
  {
    var i := FirstMatch(t, 0);
    if i < |t| {
      PlayBeforeMatch(t, i);
      PlayBeforeMatch(t, i + 1);
      AroundPair(t, i);
      PairCanGo(t[..i], t[i], t[i + 2..]);
    }
  }

  /** A text the pattern does not match is its own stack. */
  lemma StuckIsPlayed(t: Text)
    requires Stuck(t)
    ensures Play([], t) == t
  {
    PlayBeforeMatch(t, |t|);
    assert t[..|t|] == t;
  }

  /** What one iteration does: shorten a text that matches by two units, and leave any other as it is, for ever. */
  lemma ReplaceMakesProgressExactly(t: Text)
    ensures if Stuck(t) then Replace(t) == t else |Replace(t)| == |t| - 2
  {
    var i := FirstMatch(t, 0);
    if i == |t| {
      assert Stuck(t);
    } else {
      assert MatchesAt(t, i);
    }
  }

  /** The stack of a line-by-line reading: which line summary belongs to a stack. */
  ghost predicate Summarises(l: Line, stack: Text) {
    && l.units <= |stack|
    && (l.units < |stack| ==> IsLineTerminator(stack[|stack| - l.units - 1]))
    && (forall i :: |stack| - l.units <= i < |stack| ==> !IsLineTerminator(stack[i]))
    && (forall i :: |stack| - l.units < i < |stack| ==> stack[i] != BACKSPACE)
    && (l.stranded <==> l.units > 0 && stack[|stack| - l.units] == BACKSPACE)
  }

  lemma PushSummary(l: Line, stack: Text, u: Unit)
    requires Summarises(l, stack)
    ensures Summarises(Advance(l, u), Push(stack, u))
  {
  }

  /** The line summaries find out exactly whether the stack machine leaves a backspace behind. */
  lemma {:induction false} LinesSettleExactly(l: Line, stack: Text, input: Text)
    requires Summarises(l, stack)
    requires forall i :: 0 <= i < |stack| - l.units ==> stack[i] != BACKSPACE
    ensures LinesSettle(l, input) <==> BACKSPACE !in Play(stack, input)
    decreases input
  {
    if input == [] {
      if l.stranded {
        assert stack[|stack| - l.units] == BACKSPACE;
      } else {
        assert forall i | 0 <= i < |stack| :: stack[i] != BACKSPACE;
      }
    } else {
      PushSummary(l, stack, input[0]);
      if IsLineTerminator(input[0]) && l.stranded {
        StrandedForGood(Push(stack, input[0]), input[1..], |stack| - l.units);
      } else {
        LinesSettleExactly(Advance(l, input[0]), Push(stack, input[0]), input[1..]);
      }
    }
  }

  /** Nothing before a line terminator on the stack is ever popped. */
  lemma {:induction false} StrandedForGood(stack: Text, input: Text, k: nat)
    requires k < |stack| && stack[k] == BACKSPACE
    requires exists j :: k < j < |stack| && IsLineTerminator(stack[j])
    ensures BACKSPACE in Play(stack, input)
    decreases input
  {
    if input != [] {
      var j :| k < j < |stack| && IsLineTerminator(stack[j]);
      assert Push(stack, input[0])[j] == stack[j] && Push(stack, input[0])[k] == stack[k];
      StrandedForGood(Push(stack, input[0]), input[1..], k);
    }
  }

  lemma SettlesExactly(t: Text)
    ensures Settles(t) <==> BACKSPACE !in Play([], t)
  {
    LinesSettleExactly(Line(0, false), [], t);
  }

  lemma {:induction false} IterateKeepsPlay(t: Text, n: nat)
    ensures Play([], Iterate(t, n)) == Play([], t)
    decreases n
  {
    if n > 0 {
      ReplaceKeepsPlay(t);
      IterateKeepsPlay(Replace(t), n - 1);
    }
  }

  /**
    The loop reaches a text without backspaces if and only if no line ends up with a stranded one.
    For any other transcript every iterate still contains a backspace, and the loop never ends.
  */
  lemma LoopEndsExactly(t: Text)
    ensures Settles(t) <==> exists n: nat :: BACKSPACE !in Iterate(t, n)
  {
    SettlesExactly(t);
    if Settles(t) {
      var n := RunsDry(t);
    } else {
      forall n: nat ensures BACKSPACE in Iterate(t, n) {
        IterateKeepsPlay(t, n);
        NoneInNoneOut([], Iterate(t, n));
      }
    }
  }

  /** Text without backspaces plays to itself. */
  lemma {:induction false} NoneInNoneOut(stack: Text, input: Text)
    ensures BACKSPACE !in input ==> Play(stack, input) == stack + input
    decreases input
  {
    if input != [] && BACKSPACE !in input {
      assert input[0] in input && forall u | u in input[1..] :: u in input;
      NoneInNoneOut(Push(stack, input[0]), input[1..]);
      assert stack + [input[0]] + input[1..] == stack + input;
    }
  }

  lemma {:induction false} RunsDry(t: Text) returns (n: nat)
    requires BACKSPACE !in Play([], t)
    ensures BACKSPACE !in Iterate(t, n)
    decreases |t|
  {
    ReplaceMakesProgressExactly(t);
    if Stuck(t) {
      StuckIsPlayed(t);
      n := 0;
    } else {
      ReplaceKeepsPlay(t);
      n := RunsDry(Replace(t));
      n := n + 1;
      assert Iterate(t, n) == Iterate(Replace(t), n - 1);
    }
  }

  /** The loop. Where it ends, it ends with the stack machine's text and no backspace left. */
  method RewriteBackspaces(transcript: Text) returns (text: Text)
    requires Settles(transcript)
    ensures text == Play([], transcript) && BACKSPACE !in text
  {
    text := transcript;
    SettlesExactly(transcript);
    while BACKSPACE in text
      invariant Play([], text) == Play([], transcript)
      decreases |text|
    {
      ReplaceKeepsPlay(text);
      ReplaceMakesProgressExactly(text);
      if Stuck(text) {
        StuckIsPlayed(text);
        assert false;
      }
      text := Replace(text);
    }
    NoneInNoneOut([], text);
  }

  /** A backspace, unit 8, takes any unit before it with it, except the line terminators: line feed, carriage return, line and paragraph separator. */
  lemma TerminatorsExactly(u: Unit)
    ensures Replace([u, 8]) == if u in {0x0A, 0x0D, 0x2028, 0x2029} then [u, 8] else []
  {
    var t: Text := [u, 8];
    assert !MatchesAt(t, 1);
    if u in {0x0A, 0x0D, 0x2028, 0x2029} {
      assert !MatchesAt(t, 0) && FirstMatch(t, 0) == 2;
    } else {
      assert MatchesAt(t, 0) && FirstMatch(t, 0) == 0;
      assert t[..0] + t[2..] == [];
    }
  }

  /** A backspace with nothing before it: the loop repeats the same text for ever. */
  lemma {:induction false} LoneBackspaceLoops(n: nat)
    ensures Iterate([BACKSPACE], n) == [BACKSPACE] && !Settles([BACKSPACE])
  {
    assert [BACKSPACE][1..] == [];
    assert Advance(Line(0, false), BACKSPACE) == Line(1, true) && !LinesSettle(Line(1, true), []);
    if n > 0 {
      LoneBackspaceLoops(n - 1);
    }
  }
}
