/** What executing an instruction tree promises about the tape, the pointer and the handlers. */
module ExecutionProperties {
  import opened Instructions
  import opened Parser
  import opened Execution
  import opened ParserProperties

  /** The current cell exists and holds `v`. */
  predicate CurrentCellIs(st: State, v: int)
  {
    match Slot(st.pointer, |st.tape|)
    case None => false
    case Some(s) => st.tape[s] == v
  }

  /**
    * `+` and `-` set the current cell to (cell +/- difference) mod 256, a value in
    * [0, 255], and change nothing else; off the tape they raise IndexError and change
    * nothing.
    */
  lemma AddChangesOnlyCurrentCell(x: Instr, st: State, fuel: nat)
    requires x.token == Plus || x.token == Minus
    ensures var o := Step(x, st, fuel);
            match Slot(st.pointer, |st.tape|)
            case None => o == Outcome(Failed(IndexError(st.pointer)), st)
            case Some(s) =>
              && o.status == Completed
              && o.state == st.(tape := o.state.tape)
              && |o.state.tape| == |st.tape|
              && 0 <= o.state.tape[s] < 256
              && o.state.tape[s] == (st.tape[s] + (if x.token == Plus then x.difference else -x.difference)) % 256
              && forall k :: 0 <= k < |st.tape| && k != s ==> o.state.tape[k] == st.tape[k]
  {
  }

  /**
    * `>` raises TapeOverrun exactly when the new index reaches the tape size, and
    * then leaves the state as it was; otherwise it moves the pointer by the
    * difference. The lower bound is not checked.
    */
  lemma MoveRightChecksUpperBoundOnly(x: Instr, st: State, fuel: nat)
    requires x.token == Next
    ensures var o := Step(x, st, fuel);
            && (o.status.Failed? <==> st.pointer + x.difference >= |st.tape|)
            && (o.status.Failed? ==> o == Outcome(Failed(TapeOverrun(st.pointer + x.difference, |st.tape|)), st))
            && (!o.status.Failed? ==> o == Done(st.(pointer := st.pointer + x.difference)))
  {
  }

  /**
    * `<` raises TapeUnderrun exactly when the new index is negative, and then leaves
    * the state as it was; otherwise it moves the pointer back by the difference.
    * The upper bound is not checked.
    */
  lemma MoveLeftChecksLowerBoundOnly(x: Instr, st: State, fuel: nat)
    requires x.token == Previous
    ensures var o := Step(x, st, fuel);
            && (o.status.Failed? <==> st.pointer - x.difference < 0)
            && (o.status.Failed? ==> o == Outcome(Failed(TapeUnderrun), st))
            && (!o.status.Failed? ==> o == Done(st.(pointer := st.pointer - x.difference)))
  {
  }

  /**
    * `.` hands the current cell to the output handler exactly `difference` times
    * (never, when the difference is not positive) and changes nothing else.
    */
  lemma OutputCallsHandlerDifferenceTimes(x: Instr, st: State, fuel: nat)
    requires x.token == OutputToken
    requires Slot(st.pointer, |st.tape|).Some? || x.difference <= 0
    ensures var o := Step(x, st, fuel);
            && o.status == Completed
            && o.state == st.(output := o.state.output)
            && |o.state.output| == |st.output| + (if x.difference > 0 then x.difference else 0)
            && o.state.output[..|st.output|] == st.output
            && forall k :: |st.output| <= k < |o.state.output| ==> CurrentCellIs(st, o.state.output[k])
  {
  }

  /** Off the tape, `.` with a positive difference fails with IndexError before any handler call. */
  lemma OutputOffTapeFails(x: Instr, st: State, fuel: nat)
    requires x.token == OutputToken && x.difference > 0
    requires Slot(st.pointer, |st.tape|).None?
    ensures Step(x, st, fuel) == Outcome(Failed(IndexError(st.pointer)), st)
  {
  }

  /**
    * `,` calls the input handler exactly `difference` times; the current cell ends
    * with the code of the last answer (0 for end of input, and no reduction modulo
    * 256), and nothing else changes.
    */
  lemma InputCallsHandlerDifferenceTimes(x: Instr, st: State, fuel: nat)
    requires x.token == InputToken && x.difference > 0
    requires Slot(st.pointer, |st.tape|).Some?
    ensures var o := Step(x, st, fuel);
            && o.status == Completed
            && o.state == st.(tape := o.state.tape, input := Drop(st.input, x.difference))
            && CurrentCellIs(o.state, Code(Nth(st.input, x.difference - 1)))
            && |o.state.tape| == |st.tape|
            && forall k :: 0 <= k < |st.tape| && k != Slot(st.pointer, |st.tape|).value ==> o.state.tape[k] == st.tape[k]
  {
  }

  /**
    * Off the tape, `,` still calls the input handler once before storing the answer
    * fails with IndexError; the rest of the state is unchanged.
    */
  lemma InputOffTapeConsumesOne(x: Instr, st: State, fuel: nat)
    requires x.token == InputToken && x.difference > 0
    requires Slot(st.pointer, |st.tape|).None?
    ensures Step(x, st, fuel) == Outcome(Failed(IndexError(st.pointer)), st.(input := Drop(st.input, 1)))
  {
  }

  /** `#` only prints a window of the tape: the state does not change. */
  lemma BreakChangesNothing(x: Instr, st: State, fuel: nat)
    requires x.token == Break
    ensures Step(x, st, fuel) == Done(st)
  {
  }

  /** A loop instruction finishes normally only when the current cell is 0. */
  lemma {:induction false} LoopExitsOnZeroCell(x: Instr, st: State, fuel: nat)
    requires x.token == LoopStart
    ensures Step(x, st, fuel).status == Completed ==> CurrentCellIs(Step(x, st, fuel).state, 0)
    decreases fuel
  {
    assert Step(x, st, fuel) == LoopStep(x.loop, st, fuel);
    match Slot(st.pointer, |st.tape|)
    case None =>
    case Some(s) =>
      if st.tape[s] != 0 && fuel > 0 {
        var o := Run(x.loop, st, fuel - 1);
        if o.status == Completed {
          LoopExitsOnZeroCell(x, o.state, fuel - 1);
        }
      }
  }

  /** With the stop flag set, nothing runs and the state is returned as it was. */
  lemma StopFlagRunsNothing(xs: seq<Instr>, st: State, fuel: nat)
    requires st.shouldStop
    ensures Run(xs, st, fuel) == Done(st)
  {
  }

  /**
    * Running `a` then `b` is running `a + b`: a failure (or running out of fuel) in
    * `a` ends everything with the state at that point, and `b` never starts.
    */
  lemma {:induction false} RunConcat(a: seq<Instr>, b: seq<Instr>, st: State, fuel: nat)
    ensures Run(a + b, st, fuel)
         == (var o := Run(a, st, fuel); if o.status == Completed then Run(b, o.state, fuel) else o)
    decreases |a|
  {
    if a == [] {
      assert a + b == b;
    } else if !st.shouldStop {
      assert (a + b)[0] == a[0];
      assert (a + b)[1..] == a[1..] + b;
      var o := Step(a[0], st, fuel);
      if o.status == Completed {
        RunConcat(a[1..], b, o.state, fuel);
      }
    }
  }

  /** No `>` or `<` in the tree carries a negative difference. */
  predicate NoNegativeMoves(x: Instr)
    decreases x
  {
    && (x.token == Next || x.token == Previous ==> x.difference >= 0)
    && forall k :: 0 <= k < |x.loop| ==> NoNegativeMoves(x.loop[k])
  }

  predicate AllNoNegativeMoves(xs: seq<Instr>)
  {
    forall k :: 0 <= k < |xs| ==> NoNegativeMoves(xs[k])
  }

  predicate OnTape(st: State)
  {
    0 <= st.pointer < |st.tape|
  }

  /** The outcome keeps the tape length, keeps the pointer on the tape and is no IndexError. */
  predicate StaysOnTape(st: State, o: Outcome)
  {
    && |o.state.tape| == |st.tape|
    && OnTape(o.state)
    && !(o.status.Failed? && o.status.error.IndexError?)
  }

  /**
    * The pointer stays in [0, tape size) and no cell access fails, provided no
    * move difference is negative (the one-sided checks do not ensure this for a
    * negative difference).
    */
  lemma {:induction false} RunStaysOnTape(xs: seq<Instr>, st: State, fuel: nat)
    requires AllNoNegativeMoves(xs) && OnTape(st)
    ensures StaysOnTape(st, Run(xs, st, fuel))
    decreases fuel, SeqSize(xs), 2
  {
    if xs != [] && !st.shouldStop {
      StepStaysOnTape(xs[0], st, fuel);
      var o := Step(xs[0], st, fuel);
      if o.status == Completed {
        assert AllNoNegativeMoves(xs[1..]) by {
          forall k | 0 <= k < |xs| - 1 ensures NoNegativeMoves(xs[1..][k]) {
            assert xs[1..][k] == xs[k + 1];
          }
        }
        RunStaysOnTape(xs[1..], o.state, fuel);
      }
    }
  }

  lemma {:induction false} StepStaysOnTape(x: Instr, st: State, fuel: nat)
    requires NoNegativeMoves(x) && OnTape(st)
    ensures StaysOnTape(st, Step(x, st, fuel))
    decreases fuel, Size(x), 1
  {
    if x.token == LoopStart {
      LoopStaysOnTape(x.loop, st, fuel);
    }
  }

  lemma {:induction false} LoopStaysOnTape(body: seq<Instr>, st: State, fuel: nat)
    requires AllNoNegativeMoves(body) && OnTape(st)
    ensures StaysOnTape(st, LoopStep(body, st, fuel))
    decreases fuel, SeqSize(body), 0
  {
    if st.tape[st.pointer] != 0 && fuel > 0 {
      RunStaysOnTape(body, st, fuel - 1);
      var o := Run(body, st, fuel - 1);
      if o.status == Completed {
        LoopStaysOnTape(body, o.state, fuel - 1);
      }
    }
  }

  /** Every cell holds a byte. */
  predicate ByteCells(st: State)
  {
    forall k :: 0 <= k < |st.tape| ==> 0 <= st.tape[k] < 256
  }

  /** Every answer the input handler will give has a code below 256. */
  predicate ByteInput(input: seq<Option<char>>)
  {
    forall k :: 0 <= k < |input| ==> Code(input[k]) < 256
  }

  predicate KeepsBytes(o: Outcome)
  {
    ByteCells(o.state) && ByteInput(o.state.input)
  }

  /**
    * Cells stay in [0, 255] as long as every input character has a code below 256:
    * `+` and `-` reduce modulo 256, but `,` stores the code unreduced.
    */
  lemma {:induction false} RunKeepsBytes(xs: seq<Instr>, st: State, fuel: nat)
    requires ByteCells(st) && ByteInput(st.input)
    ensures KeepsBytes(Run(xs, st, fuel))
    decreases fuel, SeqSize(xs), 2
  {
    if xs != [] && !st.shouldStop {
      StepKeepsBytes(xs[0], st, fuel);
      var o := Step(xs[0], st, fuel);
      if o.status == Completed {
        RunKeepsBytes(xs[1..], o.state, fuel);
      }
    }
  }

  lemma {:induction false} StepKeepsBytes(x: Instr, st: State, fuel: nat)
    requires ByteCells(st) && ByteInput(st.input)
    ensures KeepsBytes(Step(x, st, fuel))
    decreases fuel, Size(x), 1
  {
    if x.token == LoopStart {
      LoopKeepsBytes(x.loop, st, fuel);
    } else if x.token == InputToken {
      InputKeepsBytes(st, x.difference);
    }
  }

  lemma InputKeepsBytes(st: State, d: int)
    requires ByteCells(st) && ByteInput(st.input)
    ensures KeepsBytes(InputStep(st, d))
  {
    if d > 0 {
      assert Code(Nth(st.input, d - 1)) < 256;
      forall n: nat | n <= 1 || n == d ensures ByteInput(Drop(st.input, n)) {
        if n < |st.input| {
          assert forall k :: 0 <= k < |st.input| - n ==> st.input[n..][k] == st.input[n + k];
        }
      }
    }
  }

  lemma {:induction false} LoopKeepsBytes(body: seq<Instr>, st: State, fuel: nat)
    requires ByteCells(st) && ByteInput(st.input)
    ensures KeepsBytes(LoopStep(body, st, fuel))
    decreases fuel, SeqSize(body), 0
  {
    if Slot(st.pointer, |st.tape|).Some? && fuel > 0 {
      RunKeepsBytes(body, st, fuel - 1);
      var o := Run(body, st, fuel - 1);
      if o.status == Completed {
        LoopKeepsBytes(body, o.state, fuel - 1);
      }
    }
  }

  /**
    * Fuel only bounds loop iterations: once a run finishes with some fuel (normally
    * or with a runtime error), any larger amount of fuel gives the same outcome.
    */
  lemma {:induction false} RunMoreFuel(xs: seq<Instr>, st: State, f: nat, g: nat)
    requires f <= g && Run(xs, st, f).status != OutOfFuel
    ensures Run(xs, st, g) == Run(xs, st, f)
    decreases f, SeqSize(xs), 2
  {
    if xs != [] && !st.shouldStop {
      StepMoreFuel(xs[0], st, f, g);
      var o := Step(xs[0], st, f);
      if o.status == Completed {
        RunMoreFuel(xs[1..], o.state, f, g);
      }
    }
  }

  lemma {:induction false} StepMoreFuel(x: Instr, st: State, f: nat, g: nat)
    requires f <= g && Step(x, st, f).status != OutOfFuel
    ensures Step(x, st, g) == Step(x, st, f)
    decreases f, Size(x), 1
  {
    if x.token == LoopStart {
      LoopMoreFuel(x.loop, st, f, g);
    }
  }

  lemma {:induction false} LoopMoreFuel(body: seq<Instr>, st: State, f: nat, g: nat)
    requires f <= g && LoopStep(body, st, f).status != OutOfFuel
    ensures LoopStep(body, st, g) == LoopStep(body, st, f)
    decreases f, SeqSize(body), 0
  {
    match Slot(st.pointer, |st.tape|)
    case None =>
    case Some(s) =>
      if st.tape[s] != 0 {
        RunMoreFuel(body, st, f - 1, g - 1);
        var o := Run(body, st, f - 1);
        if o.status == Completed {
          LoopMoreFuel(body, o.state, f - 1, g - 1);
        }
      }
  }

  /** Cell arithmetic wraps: 255 + 1 is 0 and 0 - 1 is 255. */
  lemma CellsWrapAround(fuel: nat)
    ensures Step(Instr(Plus, 1, []), State([255], 0, false, [], []), fuel) == Done(State([0], 0, false, [], []))
    ensures Step(Instr(Minus, 1, []), State([0], 0, false, [], []), fuel) == Done(State([255], 0, false, [], []))
  {
  }

  /** Moving right from the last cell overruns; moving left from cell 0 underruns. */
  lemma MovesOffTheEndsFail(size: nat, fuel: nat)
    requires size > 0
    ensures Step(Instr(Next, 1, []), InitialState(size, []).(pointer := size - 1), fuel)
         == Outcome(Failed(TapeOverrun(size, size)), InitialState(size, []).(pointer := size - 1))
    ensures Step(Instr(Previous, 1, []), InitialState(size, []), fuel)
         == Outcome(Failed(TapeUnderrun), InitialState(size, []))
  {
  }

  /** `><<+` folds its moves into one `>` with difference -1, followed by a `+`. */
  lemma NegativeMoveParses()
    ensures ParseString("><<+") == [Instr(Next, -1, []), Instr(Plus, 1, [])]
  {
    var code := "><<+";
    assert RunEnd(code, 1, 4, RunClass(Next)) == 3;
    ParseAtRun(code, 0, 4, 3);
    assert code[1..3] == [Previous, Previous];
    assert multiset(code[1..3])[Next] == 0 && multiset(code[1..3])[Previous] == 2;
    assert RunEnd(code, 4, 4, RunClass(Plus)) == 4;
    ParseAtSingleSymbol(code, 3, 4);
    assert Parse(code, 4, 4) == ([], 4);
    assert [Instr(Plus, 1, [])] + [] == [Instr(Plus, 1, [])];
  }

  /**
    * The `>` of -1 that `><<+` folds to passes the upper-bound check and takes the
    * pointer to -1; the following `+` then lands on the last cell.
    */
  lemma NegativeMoveLeavesTape()
    ensures Run(ParseString("><<+"), InitialState(3, []), 0) == Done(State([0, 0, 1], -1, false, [], []))
  {
    NegativeMoveParses();
    var xs := [Instr(Next, -1, []), Instr(Plus, 1, [])];
    var st := InitialState(3, []);
    assert st.tape == [0, 0, 0];
    var st1 := st.(pointer := -1);
    assert Step(xs[0], st, 0) == Done(st1);
    assert Step(xs[1], st1, 0) == Done(st1.(tape := [0, 0, 1]));
    assert xs[1..][1..] == [];
    assert Run(xs[1..], st1, 0) == Done(st1.(tape := [0, 0, 1]));
  }

  /**
    * A runtime error aborts the run but keeps what came before it: after `+`, a `>`
    * by 2 on two cells overruns, the cell keeps its 1 and the last `+` never runs.
    */
  lemma ErrorKeepsEarlierChanges(fuel: nat)
    ensures Run([Instr(Plus, 1, []), Instr(Next, 2, []), Instr(Plus, 1, [])], InitialState(2, []), fuel)
         == Outcome(Failed(TapeOverrun(2, 2)), State([1, 0], 0, false, [], []))
  {
    var xs := [Instr(Plus, 1, []), Instr(Next, 2, []), Instr(Plus, 1, [])];
    var st := InitialState(2, []);
    assert st.tape == [0, 0];
    var st1 := st.(tape := [1, 0]);
    assert Step(xs[0], st, fuel) == Done(st1);
    assert Step(xs[1], st1, fuel) == Outcome(Failed(TapeOverrun(2, 2)), st1);
  }

  /** Input stores the character code as it is: a character with code 256 stores 256. */
  lemma InputIsNotMasked(fuel: nat)
    ensures Step(Instr(InputToken, 1, []), State([0], 0, false, [Some(256 as char)], []), fuel)
         == Done(State([256], 0, false, [], []))
  {
  }

  /** The body of the loop `[>+<-]`: move right, add one, move back, subtract one. */
  function MoveBody(): seq<Instr>
  {
    [Instr(Next, 1, []), Instr(Plus, 1, []), Instr(Previous, 1, []), Instr(Minus, 1, [])]
  }

  /** One pass of `[>+<-]` over the cells [1, 0] leaves [0, 1] with the pointer back on cell 0. */
  lemma MoveBodyMovesOne(st: State)
    requires st.tape == [1, 0] && st.pointer == 0 && !st.shouldStop
    ensures Run(MoveBody(), st, 0) == Done(st.(tape := [0, 1]))
  {
    var body := MoveBody();
    var st1 := st.(pointer := 1);
    var st2 := st1.(tape := [1, 1]);
    var st3 := st2.(pointer := 0);
    assert Step(body[0], st, 0) == Done(st1);
    assert Step(body[1], st1, 0) == Done(st2);
    assert Step(body[2], st2, 0) == Done(st3);
    assert Step(body[3], st3, 0) == Done(st.(tape := [0, 1]));
    assert body[1..][1..][1..][1..] == [];
  }

  /**
    * The tree of `+[>+<-]` (a `+`, then a loop over `>`, `+`, `<`, `-`) moves the 1
    * from cell 0 to cell 1 and stops, the loop having emptied cell 0.
    */
  lemma MoveLoopTerminates()
    ensures Run([Instr(Plus, 1, []), Instr(LoopStart, 1, MoveBody())], InitialState(2, []), 1)
         == Done(State([0, 1], 0, false, [], []))
  {
    var xs := [Instr(Plus, 1, []), Instr(LoopStart, 1, MoveBody())];
    var st0 := InitialState(2, []);
    assert st0.tape == [0, 0];
    var st1 := st0.(tape := [1, 0]);
    assert Step(xs[0], st0, 1) == Done(st1);
    MoveBodyMovesOne(st1);
    assert LoopStep(MoveBody(), st1, 1) == Done(st1.(tape := [0, 1]));
    assert Step(xs[1], st1, 1) == Done(st1.(tape := [0, 1]));
    assert xs[1..][1..] == [];
    assert Run(xs[1..], st1, 1) == Done(st1.(tape := [0, 1]));
  }

  /** `+[-]` sets cell 0 to 1 and then clears it, in one loop pass. */
  lemma ClearLoopClears()
    ensures Run(ParseString("+[-]"), InitialState(1, []), 1) == Done(State([0], 0, false, [], []))
  {
    ClearLoopParses();
    var xs := [Instr(Plus, 1, []), Instr(LoopStart, 1, [Instr(Minus, 1, [])])];
    var st0 := InitialState(1, []);
    assert st0.tape == [0];
    var st1 := st0.(tape := [1]);
    assert Step(xs[0], st0, 1) == Done(st1);
    assert Run([Instr(Minus, 1, [])], st1, 0) == Done(st0);
    assert LoopStep([Instr(Minus, 1, [])], st1, 1) == Done(st0);
    assert xs[1..][1..] == [];
  }
}
