/**
  * The parser: one left-to-right pass over the source that folds runs of symbols
  * into single instructions and recurses on `[`. There is no bracket error: an
  * unmatched `[` takes the rest of the input as its body, and a `]` ends the
  * current level, which at the top level drops the remaining text.
  */
module Parser {
  import opened Instructions

  /** The symbols a run starting with `c` may continue with. */
  function RunClass(c: char): (cls: set<char>)
    ensures c in cls
  {
    if c == Plus || c == Minus then {Plus, Minus}
    else if c == Next || c == Previous then {Next, Previous}
    else {c}
  }

  predicate IsSigned(c: char)
  {
    c == Plus || c == Minus || c == Next || c == Previous
  }

  /** The symbol that cancels `c` inside a signed run. */
  function Opposite(c: char): char
  {
    if c == Plus then Minus
    else if c == Minus then Plus
    else if c == Next then Previous
    else if c == Previous then Next
    else c
  }

  /**
    * The end of the maximal run of `cls` symbols that starts at `i`, not looking
    * at or beyond `end`.
    */
  function RunEnd(code: string, i: nat, end: nat, cls: set<char>): (j: nat)
    requires i <= end <= |code|
    ensures i <= j <= end
    ensures forall k :: i <= k < j ==> code[k] in cls
    ensures j == end || code[j] !in cls
    decreases end - i
  {
    if i < end && code[i] in cls then RunEnd(code, i + 1, end, cls) else i
  }

  /**
    * The difference of an instruction that starts with `c` and whose run continues
    * with `rest`: a signed run counts one for `c`, plus one for each later copy of
    * `c` and minus one for each later opposite symbol; an output or input run
    * counts its symbols.
    */
  function RunDifference(c: char, rest: seq<char>): int
  {
    if IsSigned(c) then 1 + multiset(rest)[c] - multiset(rest)[Opposite(c)]
    else 1 + |rest|
  }

  /**
    * What parsing `code` from `index` (looking no further than `end`) returns:
    * the instructions and the index just past what was consumed.
    */
  function Parse(code: string, index: nat, end: nat): (r: (seq<Instr>, nat))
    requires end <= |code|
    ensures index <= end ==> index <= r.1 <= end
    ensures index < end ==> index < r.1
    ensures index >= end ==> r == ([], index)
    decreases end - index
  {
    if index >= end then ([], index)
    else
      var c := code[index];
      var i := index + 1;
      if c !in Tokens then Parse(code, i, end)
      else if c == LoopEnd then ([], i)
      else if c == LoopStart then
        var (body, j) := Parse(code, i, end);
        var (rest, k) := Parse(code, j, end);
        ([Instr(LoopStart, 1, body)] + rest, k)
      else
        var j := if c == Break then i else RunEnd(code, i, end, RunClass(c));
        var (rest, k) := Parse(code, j, end);
        ([Instr(c, RunDifference(c, code[i..j]), [])] + rest, k)
  }

  /**
    * Every instruction the parser emits is well formed: a known token other than `]`,
    * loops tagged with difference 1, output and input runs counting at least one symbol.
    */
  lemma {:induction false} ParseWellFormed(code: string, index: nat, end: nat)
    requires end <= |code|
    ensures AllWellFormed(Parse(code, index, end).0)
    decreases end - index
  {
    if index < end {
      var c := code[index];
      if c !in Tokens {
        ParseWellFormed(code, index + 1, end);
      } else if c == LoopStart {
        var (body, j) := Parse(code, index + 1, end);
        ParseWellFormed(code, index + 1, end);
        ParseWellFormed(code, j, end);
      } else if c != LoopEnd {
        var j := if c == Break then index + 1 else RunEnd(code, index + 1, end, RunClass(c));
        ParseWellFormed(code, j, end);
      }
    }
  }

  /** The program a whole source string parses to. */
  function ParseString(code: string): seq<Instr>
  {
    Parse(code, 0, |code|).0
  }

  /** Every program `ParseString` returns is well formed. */
  lemma ParseStringWellFormed(code: string)
    ensures AllWellFormed(ParseString(code))
  {
    ParseWellFormed(code, 0, |code|);
  }

  /** Parse at a `[`: the loop's body is parsed first, then the rest from where it ended. */
  lemma ParseAtLoopStart(code: string, at: nat, end: nat)
    requires at < end <= |code| && code[at] == LoopStart
    ensures var (body, j) := Parse(code, at + 1, end);
      Parse(code, at, end) == ([Instr(LoopStart, 1, body)] + Parse(code, j, end).0, Parse(code, j, end).1)
  {
  }

  /** Parse at a token that starts a run: one instruction, then the rest after the run. */
  lemma ParseAtRun(code: string, at: nat, end: nat, j: nat)
    requires at < end <= |code|
    requires code[at] in Tokens && code[at] != LoopStart && code[at] != LoopEnd
    requires j == if code[at] == Break then at + 1 else RunEnd(code, at + 1, end, RunClass(code[at]))
    ensures at < j <= end
    ensures Parse(code, at, end) == ([Instr(code[at], RunDifference(code[at], code[at + 1..j]), [])] + Parse(code, j, end).0, Parse(code, j, end).1)
  {
  }

  /**
    * Folds the run that continues the symbol `c` from `index`, as the inner loops of
    * `parse_brainfuck` do: the difference starts at 1 and each further symbol of the run
    * adds one (or, in a signed run, subtracts one when it is the opposite symbol).
    */
  method FoldRun(code: string, c: char, index: nat, end: nat) returns (diff: int, next: nat)
    requires c in Tokens && c != LoopStart && c != LoopEnd && c != Break
    requires index <= end <= |code|
    ensures next == RunEnd(code, index, end, RunClass(c))
    ensures diff == RunDifference(c, code[index..next])
  {
    diff, next := 1, index;
    while next < end && code[next] in RunClass(c)
      invariant index <= next <= end
      invariant RunEnd(code, next, end, RunClass(c)) == RunEnd(code, index, end, RunClass(c))
      invariant diff == RunDifference(c, code[index..next])
      decreases end - next
    {
      assert code[index..next + 1] == code[index..next] + [code[next]];
      diff := if IsSigned(c) && code[next] != c then diff - 1 else diff + 1;
      next := next + 1;
    }
  }

  /**
    * One pass of the parser's loop body at `at`: a non-token is skipped, `[` parses its
    * body recursively, `]` closes the current level, and any other token becomes one
    * instruction, folding the run that follows it.
    */
  method ParseSymbol(code: string, at: nat, end: nat) returns (piece: seq<Instr>, next: nat, closed: bool)
    requires at < end <= |code|
    ensures at < next <= end
    ensures closed <==> code[at] == LoopEnd
    ensures closed ==> Parse(code, at, end) == ([], next)
    ensures !closed ==> Parse(code, at, end) == (piece + Parse(code, next, end).0, Parse(code, next, end).1)
    decreases end - at, 0
  {
    var c := code[at];
    next, closed := at + 1, false;
    if c !in Tokens {
      piece := [];
      assert piece + Parse(code, next, end).0 == Parse(code, next, end).0;
    } else if c == LoopStart {
      ParseAtLoopStart(code, at, end);
      var body;
      body, next := ParseBrainfuck(code, next, end);
      piece := [Instr(LoopStart, 1, body)];
    } else if c == LoopEnd {
      piece, closed := [], true;
    } else if c == Break {
      ParseAtRun(code, at, end, next);
      piece := [Instr(c, 1, [])];
    } else {
      var diff;
      diff, next := FoldRun(code, c, next, end);
      ParseAtRun(code, at, end, next);
      piece := [Instr(c, diff, [])];
    }
  }

  /**
    * Parses `code` from `start` with the loop of `parse_brainfuck`: each pass handles the
    * symbol at `index`, and a `]` returns early with the index just past it.
    */
  method ParseBrainfuck(code: string, start: nat, end: nat) returns (instructions: seq<Instr>, index: nat)
    requires end <= |code|
    ensures (instructions, index) == Parse(code, start, end)
    decreases end - start, 1
  {
    instructions := [];
    index := start;
    assert instructions + Parse(code, index, end).0 == Parse(code, index, end).0;
    while index < end
      invariant start <= index
      invariant start < end ==> index <= end
      invariant Parse(code, start, end) == (instructions + Parse(code, index, end).0, Parse(code, index, end).1)
      decreases end - index
    {
      var piece, next, closed := ParseSymbol(code, index, end);
      if closed {
        assert instructions + [] == instructions;
        return instructions, next;
      }
      assert instructions + (piece + Parse(code, next, end).0) == (instructions + piece) + Parse(code, next, end).0;
      instructions, index := instructions + piece, next;
    }
    assert instructions + [] == instructions;
  }
}
