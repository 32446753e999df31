/**
  * The mutable execution context and the executor that walks an instruction tree
  * against it, updating the tape and the pointer in place. Each method is proved to
  * leave the context in the state the Execution functions describe.
  */
module Context {
  import opened Instructions
  import opened Execution

  class ExecutionContext {
    const tape: array<int>
    var tapeIndex: int
    const tapeSize: nat
    var shouldStop: bool
    /** What the input handler will deliver, in order. */
    var input: seq<Option<char>>
    /** Every value handed to the output handler, in order. */
    var output: seq<int>

    ghost predicate Valid()
    {
      tape.Length == tapeSize
    }

    /** The context as a value. */
    ghost function Abs(): State
      reads this, tape
    {
      State(tape[..], tapeIndex, shouldStop, input, output)
    }

    /** A zeroed tape of `tapeSize` cells, the pointer on cell 0, no stop request. */
    constructor (tapeSize: nat, input: seq<Option<char>>)
      ensures Valid() && fresh(tape)
      ensures Abs() == InitialState(tapeSize, input)
    {
      this.tape := new int[tapeSize](_ => 0);
      this.tapeIndex := 0;
      this.tapeSize := tapeSize;
      this.shouldStop := false;
      this.input := input;
      this.output := [];
    }

    /** The input handler: the next answer, or None once the input is used up. */
    method ReadInput() returns (ch: Option<char>)
      modifies this`input
      ensures ch == Nth(old(input), 0) && input == Drop(old(input), 1)
    {
      if input == [] {
        ch := None;
      } else {
        ch := input[0];
        input := input[1..];
      }
    }

    method Add(delta: int) returns (status: Status)
      requires Valid()
      modifies tape
      ensures Outcome(status, Abs()) == AddStep(old(Abs()), delta)
    {
      var slot := Slot(tapeIndex, tapeSize);
      if slot.None? {
        return Failed(IndexError(tapeIndex));
      }
      tape[slot.value] := (tape[slot.value] + delta) % 256;
      status := Completed;
    }

    method MoveRight(d: int) returns (status: Status)
      requires Valid()
      modifies this`tapeIndex
      ensures Outcome(status, Abs()) == MoveRightStep(old(Abs()), d)
    {
      var newIndex := tapeIndex + d;
      if newIndex >= tapeSize {
        return Failed(TapeOverrun(newIndex, tapeSize));
      }
      tapeIndex := newIndex;
      status := Completed;
    }

    method MoveLeft(d: int) returns (status: Status)
      requires Valid()
      modifies this`tapeIndex
      ensures Outcome(status, Abs()) == MoveLeftStep(old(Abs()), d)
    {
      var newIndex := tapeIndex - d;
      if newIndex < 0 {
        return Failed(TapeUnderrun);
      }
      tapeIndex := newIndex;
      status := Completed;
    }

    /** Calls the output handler `d` times, reading the current cell each time. */
    method Output(d: int) returns (status: Status)
      requires Valid()
      modifies this`output
      ensures Outcome(status, Abs()) == OutputStep(old(Abs()), d)
    {
      var i := 0;
      while i < d
        invariant 0 <= i && (i == 0 || i <= d)
        invariant i > 0 ==> Slot(tapeIndex, tapeSize).Some?
        invariant i > 0 ==> output == old(output) + Repeat(tape[Slot(tapeIndex, tapeSize).value], i)
        invariant i == 0 ==> output == old(output)
      {
        var slot := Slot(tapeIndex, tapeSize);
        if slot.None? {
          assert tape[..] == old(tape[..]);
          return Failed(IndexError(tapeIndex));
        }
        output := output + [tape[slot.value]];
        i := i + 1;
      }
      assert tape[..] == old(tape[..]);
      status := Completed;
    }

    /** Calls the input handler `d` times, storing each answer in the current cell. */
    method Input(d: int) returns (status: Status)
      requires Valid()
      modifies this`input, tape
      ensures Outcome(status, Abs()) == InputStep(old(Abs()), d)
    {
      var i := 0;
      while i < d
        invariant 0 <= i && (i == 0 || i <= d)
        invariant input == Drop(old(input), i)
        invariant i > 0 ==> Slot(tapeIndex, tapeSize).Some?
        invariant i > 0 ==> tape[..] == old(tape[..])[Slot(tapeIndex, tapeSize).value := Code(Nth(old(input), i - 1))]
        invariant i == 0 ==> tape[..] == old(tape[..])
      {
        var ch := ReadInput();
        var slot := Slot(tapeIndex, tapeSize);
        if slot.None? {
          return Failed(IndexError(tapeIndex));
        }
        tape[slot.value] := Code(ch);
        i := i + 1;
      }
      status := Completed;
    }

    /** Runs `body` while the current cell is not zero. */
    method RunLoop(body: seq<Instr>, fuel: nat) returns (status: Status)
      requires Valid()
      modifies this, tape
      ensures Outcome(status, Abs()) == LoopStep(body, old(Abs()), fuel)
      decreases fuel, SeqSize(body), 0
    {
      var n: nat := fuel;
      while true
        invariant n <= fuel
        invariant LoopStep(body, Abs(), n) == LoopStep(body, old(Abs()), fuel)
        decreases n
      {
        var slot := Slot(tapeIndex, tapeSize);
        if slot.None? {
          return Failed(IndexError(tapeIndex));
        }
        if tape[slot.value] == 0 {
          return Completed;
        }
        if n == 0 {
          return OutOfFuel;
        }
        n := n - 1;
        status := Execute(body, n);
        if status != Completed {
          return;
        }
      }
    }

    /** Executes one instruction; `#` and unknown tokens leave the context as it is. */
    method ExecuteInstruction(x: Instr, fuel: nat) returns (status: Status)
      requires Valid()
      modifies this, tape
      ensures Outcome(status, Abs()) == Step(x, old(Abs()), fuel)
      decreases fuel, Size(x), 1
    {
      var token, diff := x.token, x.difference;
      if token == Plus {
        status := Add(diff);
      } else if token == Minus {
        status := Add(-diff);
      } else if token == Next {
        status := MoveRight(diff);
      } else if token == Previous {
        status := MoveLeft(diff);
      } else if token == OutputToken {
        status := Output(diff);
      } else if token == InputToken {
        status := Input(diff);
      } else if token == LoopStart {
        status := RunLoop(x.loop, fuel);
      } else {
        status := Completed;
      }
    }

    /** Executes `xs` in order, stopping early when the stop flag is set. */
    method Execute(xs: seq<Instr>, fuel: nat) returns (status: Status)
      requires Valid()
      modifies this, tape
      ensures Outcome(status, Abs()) == Run(xs, old(Abs()), fuel)
      decreases fuel, SeqSize(xs), 2
    {
      var i := 0;
      while i < |xs|
        invariant i <= |xs|
        invariant Run(xs[i..], Abs(), fuel) == Run(xs, old(Abs()), fuel)
      {
        if shouldStop {
          break;
        }
        SizeOfElement(xs, i);
        assert xs[i..][1..] == xs[i + 1..];
        status := ExecuteInstruction(xs[i], fuel);
        if status != Completed {
          return;
        }
        i := i + 1;
      }
      status := Completed;
    }
  }
}
