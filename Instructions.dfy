/** The instruction tree that the parser builds and the executor walks. */
module Instructions {

  const Plus: char := '+'
  const Minus: char := '-'
  const Next: char := '>'
  const Previous: char := '<'
  const OutputToken: char := '.'
  const InputToken: char := ','
  const LoopStart: char := '['
  const LoopEnd: char := ']'
  const Break: char := '#'

  /** The nine symbols the parser recognises; every other character is a comment. */
  const Tokens: set<char> := {Plus, Minus, Next, Previous, OutputToken, InputToken, LoopStart, LoopEnd, Break}

  /**
    * One instruction: the symbol that starts it, the difference folded from its run
    * and, for a loop, the instructions of its body (the empty sequence otherwise).
    */
  datatype Instr = Instr(token: char, difference: int, loop: seq<Instr>)

  /** Number of instruction nodes in a tree, used as a termination measure. */
  function Size(x: Instr): nat
    decreases x, 1
  {
    1 + SeqSize(x.loop)
  }

  function SeqSize(xs: seq<Instr>): nat
    decreases xs, 0
  {
    if xs == [] then 0 else Size(xs[0]) + SeqSize(xs[1..])
  }

  lemma {:induction false} SizeOfElement(xs: seq<Instr>, k: nat)
    requires k < |xs|
    ensures Size(xs[k]) <= SeqSize(xs)
    decreases k
  {
    if k > 0 {
      SizeOfElement(xs[1..], k - 1);
      assert xs[1..][k - 1] == xs[k];
    }
  }

  /**
    * The shape of every instruction the parser emits: a recognised token other than `]`;
    * a loop has difference 1 and well-formed children; nothing else has children;
    * an output or input run counts at least one symbol; a break has difference 1.
    * Additive and move runs may carry any difference, zero and negative included.
    */
  predicate WellFormed(x: Instr)
    decreases x
  {
    && x.token in Tokens
    && x.token != LoopEnd
    && (x.token == LoopStart ==> x.difference == 1 && forall k :: 0 <= k < |x.loop| ==> WellFormed(x.loop[k]))
    && (x.token != LoopStart ==> x.loop == [])
    && (x.token == OutputToken || x.token == InputToken ==> x.difference >= 1)
    && (x.token == Break ==> x.difference == 1)
  }

  predicate AllWellFormed(xs: seq<Instr>)
  {
    forall k :: 0 <= k < |xs| ==> WellFormed(xs[k])
  }
}
