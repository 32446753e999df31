/** What the parser promises about runs, brackets and the text it drops. */
module ParserProperties {
  import opened Instructions
  import opened Parser

  /** A run end is determined by the run it closes: there is only one maximal run from `i`. */
  lemma {:induction false} RunEndUnique(code: string, i: nat, end: nat, cls: set<char>, j: nat)
    requires i <= j <= end <= |code|
    requires forall k :: i <= k < j ==> code[k] in cls
    requires j == end || code[j] !in cls
    ensures RunEnd(code, i, end, cls) == j
    decreases j - i
  {
    if i < j {
      RunEndUnique(code, i + 1, end, cls, j);
    }
  }

  /**
    * A maximal run of `+`/`-`, of `>`/`<`, or of one of `.` and `,` starting at
    * `index` becomes exactly one instruction tagged with the run's first symbol,
    * and parsing carries on right after the run.
    */
  lemma MaximalRunIsOneInstruction(code: string, index: nat, end: nat, j: nat)
    requires index < j <= end <= |code|
    requires code[index] in {Plus, Minus, Next, Previous, OutputToken, InputToken}
    requires forall k :: index <= k < j ==> code[k] in RunClass(code[index])
    requires j == end || code[j] !in RunClass(code[index])
    ensures Parse(code, index, end).0
         == [Instr(code[index], RunDifference(code[index], code[index + 1..j]), [])] + Parse(code, j, end).0
    ensures Parse(code, index, end).1 == Parse(code, j, end).1
  {
    RunEndUnique(code, index + 1, end, RunClass(code[index]), j);
  }

  /** Only the symbol itself counts in an output or input run, so its difference is its length. */
  lemma {:induction false} CountedRunDifference(c: char, rest: seq<char>)
    requires c == OutputToken || c == InputToken
    requires forall k :: 0 <= k < |rest| ==> rest[k] == c
    ensures RunDifference(c, rest) == |[c] + rest| && RunDifference(c, rest) == multiset([c] + rest)[c]
  {
    if rest != [] {
      CountedRunDifference(c, rest[1..]);
      assert rest == [rest[0]] + rest[1..];
    }
  }

  /** The effect one source symbol has on the count `up` raises and `down` lowers. */
  function SymbolEffect(ch: char, up: char, down: char): int
  {
    if ch == up then 1 else if ch == down then -1 else 0
  }

  /** The net effect of a stretch of source text, symbol by symbol. */
  function SourceEffect(s: seq<char>, up: char, down: char): int
  {
    if s == [] then 0 else SymbolEffect(s[0], up, down) + SourceEffect(s[1..], up, down)
  }

  /** What one instruction does to that count: `up` adds its difference, `down` subtracts it. */
  function InstrEffect(x: Instr, up: char, down: char): int
  {
    if x.token == up then x.difference else if x.token == down then -x.difference else 0
  }

  /** The net effect of a flat instruction sequence. */
  function ProgramEffect(xs: seq<Instr>, up: char, down: char): int
  {
    if xs == [] then 0 else InstrEffect(xs[0], up, down) + ProgramEffect(xs[1..], up, down)
  }

  lemma {:induction false} SourceEffectCounts(s: seq<char>, up: char, down: char)
    requires up != down
    ensures SourceEffect(s, up, down) == multiset(s)[up] as int - multiset(s)[down] as int
  {
    if s != [] {
      SourceEffectCounts(s[1..], up, down);
      assert s == [s[0]] + s[1..];
    }
  }

  predicate IsSignedPair(up: char, down: char)
  {
    (up == Plus && down == Minus) || (up == Next && down == Previous)
  }

  /** The instruction a run folds into has the run's net effect. */
  lemma FoldedRunKeepsNetEffect(c: char, run: seq<char>, up: char, down: char)
    requires IsSignedPair(up, down)
    requires c in Tokens && c != LoopStart && c != LoopEnd
    requires c == Break ==> run == []
    requires forall m :: 0 <= m < |run| ==> run[m] in RunClass(c)
    ensures InstrEffect(Instr(c, RunDifference(c, run), []), up, down) == SourceEffect([c] + run, up, down)
  {
    SourceEffectCounts([c] + run, up, down);
    if c != up && c != down {
      assert up !in run && down !in run;
    }
  }

  /**
    * Run merging keeps the meaning: in text without `[`, the instructions the parser
    * returns change the cell (with `+`/`-`) or move the pointer (with `>`/`<`) by
    * exactly as much as the symbols it consumed, zero and negative differences
    * included.
    */
  lemma {:induction false} MergedRunsKeepNetEffect(code: string, index: nat, end: nat, up: char, down: char)
    requires index <= end <= |code|
    requires IsSignedPair(up, down)
    requires forall k :: index <= k < end ==> code[k] != LoopStart
    ensures ProgramEffect(Parse(code, index, end).0, up, down) == SourceEffect(code[index..Parse(code, index, end).1], up, down)
    decreases end - index
  {
    if index < end {
      var c := code[index];
      var i := index + 1;
      if c !in Tokens {
        MergedRunsKeepNetEffect(code, i, end, up, down);
        SkippedSymbolHasNoEffect(code, index, Parse(code, index, end).1, up, down);
      } else if c != LoopEnd {
        var j := if c == Break then i else RunEnd(code, i, end, RunClass(c));
        MergedRunsKeepNetEffect(code, j, end, up, down);
        FoldedRunStep(code, index, j, end, up, down);
      }
    }
  }

  lemma SkippedSymbolHasNoEffect(code: string, index: nat, k: nat, up: char, down: char)
    requires index < k <= |code|
    requires IsSignedPair(up, down)
    requires code[index] !in Tokens
    ensures SourceEffect(code[index..k], up, down) == SourceEffect(code[index + 1..k], up, down)
  {
    assert code[index..k][1..] == code[index + 1..k];
  }

  lemma {:induction false} SourceEffectAppend(a: seq<char>, b: seq<char>, up: char, down: char)
    ensures SourceEffect(a + b, up, down) == SourceEffect(a, up, down) + SourceEffect(b, up, down)
  {
    if a != [] {
      SourceEffectAppend(a[1..], b, up, down);
      assert (a + b)[1..] == a[1..] + b;
    } else {
      assert a + b == b;
    }
  }

  /** One folded run followed by the rest of the parse has the net effect of the symbols consumed. */
  lemma FoldedRunStep(code: string, index: nat, j: nat, end: nat, up: char, down: char)
    requires index < j <= end <= |code|
    requires IsSignedPair(up, down)
    requires code[index] in Tokens && code[index] != LoopStart && code[index] != LoopEnd
    requires j == if code[index] == Break then index + 1 else RunEnd(code, index + 1, end, RunClass(code[index]))
    requires ProgramEffect(Parse(code, j, end).0, up, down) == SourceEffect(code[j..Parse(code, j, end).1], up, down)
    ensures ProgramEffect(Parse(code, index, end).0, up, down) == SourceEffect(code[index..Parse(code, index, end).1], up, down)
  {
    var c := code[index];
    var (rest, k) := Parse(code, j, end);
    var x := Instr(c, RunDifference(c, code[index + 1..j]), []);
    ParseAtRun(code, index, end, j);
    assert ([x] + rest)[1..] == rest;
    assert ProgramEffect([x] + rest, up, down) == InstrEffect(x, up, down) + ProgramEffect(rest, up, down);
    FoldedRunKeepsNetEffect(c, code[index + 1..j], up, down);
    assert code[index..k] == ([c] + code[index + 1..j]) + code[j..k];
    SourceEffectAppend([c] + code[index + 1..j], code[j..k], up, down);
  }

  /** Parsing stops before `end` only just after a `]`. */
  lemma {:induction false} ParseStopsAfterClose(code: string, index: nat, end: nat)
    requires index < end <= |code|
    ensures Parse(code, index, end).1 == end || code[Parse(code, index, end).1 - 1] == LoopEnd
    decreases end - index
  {
    var c := code[index];
    var i := index + 1;
    if i < end && c != LoopEnd {
      if c !in Tokens {
        ParseStopsAfterClose(code, i, end);
      } else {
        var j := if c == LoopStart then Parse(code, i, end).1
                 else if c == Break then i
                 else RunEnd(code, i, end, RunClass(c));
        if j < end {
          ParseStopsAfterClose(code, j, end);
        }
      }
    }
  }

  /** Without a `]` ahead, parsing consumes all of the text: an unmatched `[` never fails. */
  lemma {:induction false} ParseWithoutCloseTakesAll(code: string, index: nat, end: nat)
    requires index <= end <= |code|
    requires forall k :: index <= k < end ==> code[k] != LoopEnd
    ensures Parse(code, index, end).1 == end
    decreases end - index
  {
    if index < end {
      var c := code[index];
      var i := index + 1;
      if c !in Tokens {
        ParseWithoutCloseTakesAll(code, i, end);
      } else {
        if c == LoopStart {
          ParseWithoutCloseTakesAll(code, i, end);
        }
        var j := if c == LoopStart then Parse(code, i, end).1
                 else if c == Break then i
                 else RunEnd(code, i, end, RunClass(c));
        ParseWithoutCloseTakesAll(code, j, end);
      }
    }
  }

  /** An unmatched `[` becomes one loop whose body is everything after it. */
  lemma UnmatchedOpenTakesRest(code: string, index: nat, end: nat)
    requires index < end <= |code|
    requires code[index] == LoopStart
    requires forall k :: index < k < end ==> code[k] != LoopEnd
    ensures Parse(code, index, end) == ([Instr(LoopStart, 1, Parse(code, index + 1, end).0)], end)
  {
    ParseWithoutCloseTakesAll(code, index + 1, end);
    var body := Parse(code, index + 1, end).0;
    assert Parse(code, index + 1, end) == (body, end);
    assert Parse(code, end, end) == ([], end);
    assert [Instr(LoopStart, 1, body)] + [] == [Instr(LoopStart, 1, body)];
  }

  /**
    * Once parsing has stopped at a `]` before `end`, the text after that `]` plays
    * no part: any `end'` from the stop onwards gives the same result.
    */
  lemma {:induction false} ParseIgnoresTextAfterStop(code: string, index: nat, end: nat, end': nat)
    requires index <= end' <= end <= |code|
    requires Parse(code, index, end).1 <= end'
    requires Parse(code, index, end).1 < end
    ensures Parse(code, index, end') == Parse(code, index, end)
    decreases end - index
  {
    var c := code[index];
    var i := index + 1;
    if c !in Tokens {
      ParseIgnoresTextAfterStop(code, i, end, end');
    } else if c == LoopStart {
      var j := Parse(code, i, end).1;
      ParseIgnoresTextAfterStop(code, i, end, end');
      ParseIgnoresTextAfterStop(code, j, end, end');
    } else if c != LoopEnd {
      var j := if c == Break then i else RunEnd(code, i, end, RunClass(c));
      if c != Break {
        RunEndUnique(code, i, end', RunClass(c), j);
      }
      ParseIgnoresTextAfterStop(code, j, end, end');
    }
  }

  /** Parsing up to `end` reads nothing at or beyond `end`. */
  lemma {:induction false} ParseReadsOnlyUpToEnd(code: string, index: nat, end: nat, m: nat)
    requires end <= m <= |code|
    ensures Parse(code[..m], index, end) == Parse(code, index, end)
    decreases end - index
  {
    if index < end {
      var c := code[index];
      var i := index + 1;
      assert code[..m][index] == c;
      if c !in Tokens {
        ParseReadsOnlyUpToEnd(code, i, end, m);
      } else if c == LoopStart {
        ParseReadsOnlyUpToEnd(code, i, end, m);
        ParseReadsOnlyUpToEnd(code, Parse(code, i, end).1, end, m);
      } else if c != LoopEnd {
        var j := if c == Break then i else RunEnd(code, i, end, RunClass(c));
        if c != Break {
          RunEndUnique(code[..m], i, end, RunClass(c), j);
        }
        assert code[..m][i..j] == code[i..j];
        ParseReadsOnlyUpToEnd(code, j, end, m);
      }
    }
  }

  /**
    * A `]` at the top level ends the program: the parse stops just after it and the
    * program is the one the text up to that `]` gives.
    */
  lemma TopLevelCloseDropsRest(code: string)
    ensures var k := Parse(code, 0, |code|).1;
            k < |code| ==> 0 < k && code[k - 1] == LoopEnd && ParseString(code) == ParseString(code[..k])
  {
    var k := Parse(code, 0, |code|).1;
    if k < |code| {
      ParseStopsAfterClose(code, 0, |code|);
      ParseIgnoresTextAfterStop(code, 0, |code|, k);
      ParseReadsOnlyUpToEnd(code, 0, k, k);
    }
  }

  /** A character outside the nine tokens emits nothing and ends the run before it. */
  lemma CommentSplitsRun()
    ensures ParseString("+a+") == [Instr(Plus, 1, []), Instr(Plus, 1, [])]
  {
    var code := "+a+";
    assert RunEnd(code, 1, 3, RunClass(Plus)) == 1;
    assert RunEnd(code, 3, 3, RunClass(Plus)) == 3;
    assert code[1..1] == [] && code[3..3] == [];
  }

  /** A run whose symbols cancel out is still one instruction, with difference 0. */
  lemma CancellingRunKeepsZero()
    ensures ParseString("><") == [Instr(Next, 0, [])]
  {
    var code := "><";
    assert RunEnd(code, 2, 2, RunClass(Next)) == 2;
    assert RunEnd(code, 1, 2, RunClass(Next)) == 2;
    ParseAtRun(code, 0, 2, 2);
    assert code[1..2] == [Previous];
    assert multiset(code[1..2])[Next] == 0 && multiset(code[1..2])[Previous] == 1;
  }

  /** A signed run takes the tag of its first symbol, so `-++` is a `-` with difference -1. */
  lemma RunTakesFirstSymbolsTag()
    ensures ParseString("-++") == [Instr(Minus, -1, [])]
  {
    var code := "-++";
    assert RunEnd(code, 3, 3, RunClass(Minus)) == 3;
    assert RunEnd(code, 1, 3, RunClass(Minus)) == 3;
    ParseAtRun(code, 0, 3, 3);
    assert code[1..3] == [Plus, Plus];
    assert multiset(code[1..3])[Minus] == 0 && multiset(code[1..3])[Plus] == 2;
  }

  /** Output and input runs do not mix: `..,` is an output of 2 followed by an input of 1. */
  lemma OutputAndInputRunsStaySeparate()
    ensures ParseString("..,") == [Instr(OutputToken, 2, []), Instr(InputToken, 1, [])]
  {
    var code := "..,";
    assert RunEnd(code, 2, 3, RunClass(OutputToken)) == 2;
    assert RunEnd(code, 1, 3, RunClass(OutputToken)) == 2;
    ParseAtRun(code, 0, 3, 2);
    assert RunEnd(code, 3, 3, RunClass(InputToken)) == 3;
    ParseAtRun(code, 2, 3, 3);
    assert code[1..2] == [OutputToken] && code[3..3] == [];
  }

  /** Loops nest: `[[+]]` is a loop whose body is a loop whose body is `+`. */
  lemma LoopsNest()
    ensures ParseString("[[+]]") == [Instr(LoopStart, 1, [Instr(LoopStart, 1, [Instr(Plus, 1, [])])])]
  {
    var code := "[[+]]";
    assert RunEnd(code, 3, 5, RunClass(Plus)) == 3;
    ParseAtRun(code, 2, 5, 3);
    assert code[2] == Plus && code[3..3] == [];
    assert RunDifference(Plus, []) == 1;
    assert Parse(code, 3, 5) == ([], 4);
    assert [Instr(Plus, 1, [])] + [] == [Instr(Plus, 1, [])];
    assert Parse(code, 2, 5) == ([Instr(Plus, 1, [])], 4);
    ParseAtLoopStart(code, 1, 5);
    assert Parse(code, 4, 5) == ([], 5);
    assert [Instr(LoopStart, 1, [Instr(Plus, 1, [])])] + [] == [Instr(LoopStart, 1, [Instr(Plus, 1, [])])];
    assert Parse(code, 1, 5) == ([Instr(LoopStart, 1, [Instr(Plus, 1, [])])], 5);
    ParseAtLoopStart(code, 0, 5);
  }

  /** A token that the next symbol does not continue becomes an instruction of difference 1. */
  lemma ParseAtSingleSymbol(code: string, at: nat, end: nat)
    requires at < end <= |code|
    requires code[at] in Tokens && code[at] != LoopStart && code[at] != LoopEnd
    requires at + 1 == end || code[at + 1] !in RunClass(code[at])
    ensures Parse(code, at, end) == ([Instr(code[at], 1, [])] + Parse(code, at + 1, end).0, Parse(code, at + 1, end).1)
  {
    var j := if code[at] == Break then at + 1 else RunEnd(code, at + 1, end, RunClass(code[at]));
    ParseAtRun(code, at, end, j);
    assert code[at + 1..j] == [];
  }

  /** `+[-]` parses to a `+` followed by a loop whose body is a single `-`. */
  lemma ClearLoopParses()
    ensures ParseString("+[-]") == [Instr(Plus, 1, []), Instr(LoopStart, 1, [Instr(Minus, 1, [])])]
  {
    var code := "+[-]";
    var minus, loop := [Instr(Minus, 1, [])], [Instr(LoopStart, 1, [Instr(Minus, 1, [])])];
    assert code[2] == Minus && code[3] == LoopEnd;
    ParseAtSingleSymbol(code, 2, 4);
    assert Parse(code, 3, 4) == ([], 4) && minus + [] == minus;
    assert Parse(code, 2, 4) == (minus, 4);
    ParseAtLoopStart(code, 1, 4);
    assert Parse(code, 4, 4) == ([], 4) && loop + [] == loop;
    assert Parse(code, 1, 4) == (loop, 4);
    assert code[0] == Plus && code[1] == LoopStart;
    ParseAtSingleSymbol(code, 0, 4);
  }
}
