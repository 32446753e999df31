/**
  * The meaning of executing instructions, as functions of an execution state.
  * A loop may run forever, so execution carries fuel: every loop iteration uses one
  * unit, and running out is the outcome OutOfFuel rather than a runtime error.
  */
module Execution {
  import opened Instructions

  datatype Option<T> = None | Some(value: T)

  /**
    * The failures execution can raise. The first two are the interpreter's own
    * runtime errors; IndexError is the host list's error when a cell is read or
    * written at a pointer that a move has taken off the tape.
    */
  datatype RuntimeError =
    | TapeOverrun(attempted: int, size: int)
    | TapeUnderrun
    | IndexError(index: int)

  datatype Status = Completed | Failed(error: RuntimeError) | OutOfFuel

  /**
    * The execution context as a value: the tape, the pointer, the stop flag, what the
    * input handler has still to deliver (None is the empty string that stands for end
    * of input, also delivered once the sequence is used up) and what the output
    * handler has received so far.
    */
  datatype State = State(tape: seq<int>, pointer: int, shouldStop: bool, input: seq<Option<char>>, output: seq<int>)

  /** How an execution ended, with the state at that moment (a failure keeps earlier changes). */
  datatype Outcome = Outcome(status: Status, state: State)

  /** A fresh context: `size` zero cells, the pointer on cell 0, nothing output yet. */
  function InitialState(size: nat, input: seq<Option<char>>): State
  {
    State(seq(size, _ => 0), 0, false, input, [])
  }

  function Done(st: State): Outcome
  {
    Outcome(Completed, st)
  }

  /**
    * The element a host list of length `length` holds at `index`: a negative index
    * counts from the end, and anything outside [-length, length) is an IndexError.
    */
  function Slot(index: int, length: nat): (r: Option<nat>)
    ensures r.Some? <==> -(length as int) <= index < length
    ensures r.Some? ==> r.value < length
    ensures r.Some? && 0 <= index ==> r.value == index
    ensures r.Some? && index < 0 ==> r.value == index + length
  {
    if 0 <= index < length then Some(index)
    else if -(length as int) <= index < 0 then Some(index + length)
    else None
  }

  /** The cell value an input stores: the character's code, or 0 for end of input. */
  function Code(ch: Option<char>): int
  {
    match ch
    case None => 0
    case Some(c) => c as int
  }

  /** What the input handler returns on its (k+1)-th call. */
  function Nth(input: seq<Option<char>>, k: nat): Option<char>
  {
    if k < |input| then input[k] else None
  }

  /** What remains to be delivered after `n` calls of the input handler. */
  function Drop(input: seq<Option<char>>, n: nat): seq<Option<char>>
  {
    if n < |input| then input[n..] else []
  }

  function Repeat(v: int, n: nat): (r: seq<int>)
    ensures |r| == n && forall k :: 0 <= k < n ==> r[k] == v
  {
    seq(n, _ => v)
  }

  /** `+` and `-`: the current cell becomes (cell + delta) mod 256. */
  function AddStep(st: State, delta: int): Outcome
  {
    match Slot(st.pointer, |st.tape|)
    case None => Outcome(Failed(IndexError(st.pointer)), st)
    case Some(s) => Done(st.(tape := st.tape[s := (st.tape[s] + delta) % 256]))
  }

  /** `>`: only the upper bound is checked. */
  function MoveRightStep(st: State, d: int): Outcome
  {
    var n := st.pointer + d;
    if n >= |st.tape| then Outcome(Failed(TapeOverrun(n, |st.tape|)), st)
    else Done(st.(pointer := n))
  }

  /** `<`: only the lower bound is checked. */
  function MoveLeftStep(st: State, d: int): Outcome
  {
    var n := st.pointer - d;
    if n < 0 then Outcome(Failed(TapeUnderrun), st)
    else Done(st.(pointer := n))
  }

  /** `.`: the output handler receives the current cell `d` times (no times when d <= 0). */
  function OutputStep(st: State, d: int): Outcome
  {
    if d <= 0 then Done(st)
    else match Slot(st.pointer, |st.tape|)
      case None => Outcome(Failed(IndexError(st.pointer)), st)
      case Some(s) => Done(st.(output := st.output + Repeat(st.tape[s], d)))
  }

  /**
    * `,`: the input handler is called `d` times and each answer is stored in the
    * current cell, so the cell ends with the last one. Off the tape, the first
    * answer is consumed and then storing it fails.
    */
  function InputStep(st: State, d: int): Outcome
  {
    if d <= 0 then Done(st)
    else match Slot(st.pointer, |st.tape|)
      case None => Outcome(Failed(IndexError(st.pointer)), st.(input := Drop(st.input, 1)))
      case Some(s) => Done(st.(tape := st.tape[s := Code(Nth(st.input, d - 1))], input := Drop(st.input, d)))
  }

  /** One instruction; `#` and unknown tokens change nothing. */
  function Step(x: Instr, st: State, fuel: nat): Outcome
    decreases fuel, Size(x), 1
  {
    if x.token == Plus then AddStep(st, x.difference)
    else if x.token == Minus then AddStep(st, -x.difference)
    else if x.token == Next then MoveRightStep(st, x.difference)
    else if x.token == Previous then MoveLeftStep(st, x.difference)
    else if x.token == OutputToken then OutputStep(st, x.difference)
    else if x.token == InputToken then InputStep(st, x.difference)
    else if x.token == LoopStart then LoopStep(x.loop, st, fuel)
    else Done(st)
  }

  /** `[`: run `body` while the current cell is not zero, each pass using one unit of fuel. */
  function LoopStep(body: seq<Instr>, st: State, fuel: nat): Outcome
    decreases fuel, SeqSize(body), 0
  {
    match Slot(st.pointer, |st.tape|)
    case None => Outcome(Failed(IndexError(st.pointer)), st)
    case Some(s) =>
      if st.tape[s] == 0 then Done(st)
      else if fuel == 0 then Outcome(OutOfFuel, st)
      else
        var o := Run(body, st, fuel - 1);
        if o.status != Completed then o else LoopStep(body, o.state, fuel - 1)
  }

  /** A sequence of instructions, checking the stop flag before each one. */
  function Run(xs: seq<Instr>, st: State, fuel: nat): Outcome
    decreases fuel, SeqSize(xs), 2
  {
    if xs == [] || st.shouldStop then Done(st)
    else
      var o := Step(xs[0], st, fuel);
      if o.status != Completed then o else Run(xs[1..], o.state, fuel)
  }

  /**
    * The tape window the `#` dump shows: from ten cells left of the pointer (not below
    * 0) for at most 21 cells (not past the tape's end).
    */
  function DebugWindow(pointer: int, size: nat): (w: (int, int))
    ensures 0 <= w.0 && w.1 <= size
    ensures w.1 - w.0 <= 21
    ensures 0 <= pointer < size ==> w.0 <= pointer < w.1
    ensures 10 <= pointer && pointer + 11 <= size ==> w == (pointer - 10, pointer + 11)
  {
    var low := if pointer - 10 > 0 then pointer - 10 else 0;
    var high := if size < low + 21 then size else low + 21;
    (low, high)
  }
}
