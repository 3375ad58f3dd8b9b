/**
 The Padlock parser: a single pass over the input driving a three-state
 machine (waiting for an instruction, inside a name, after the program),
 which grows the AST at the cursor path. `Step` and `Run` are the
 specification, `Parse` the imperative parser proved against it.
 */
module Parser {
  import opened Instructions
  import opened Ast
  import opened Cursor

  /** The two switches of `parse`: names may hold any non-whitespace
      character, and the letter symbols replace the glyphs. */
  datatype Config = Config(utf8Names: bool, asciiSymbols: bool)

  /** Idle waits for an instruction, Raw collects a name, Blank follows the
      end of the program. */
  datatype State = Idle | Raw | Blank

  datatype ParseError =
    | InvalidSymbol(position: nat)
    | InvalidArgumentCount
    | UnexpectedEOF(inName: bool)

  datatype Result<T> = Success(value: T) | Failure(error: ParseError)

  /** Everything the parsing loop updates: the state, the AST built so far,
      the cursor path, the last instruction read, how many of its names are
      complete, and the characters of the name being collected. */
  datatype Machine = Machine(
    state: State,
    ast: seq<Item>,
    stackPtr: seq<int>,
    instruction: Instruction,
    nameCount: nat,
    nameStack: seq<char>)

  const Init: Machine := Machine(Idle, [], [], Nil, 0, [])

  /** A character other than the delimiter is kept inside a name if it is a
      symbol, or, with `utf8Names`, any non-whitespace character. */
  predicate Joins(cfg: Config, c: char)
    ensures Joins(cfg, c) ==> !IsSpace(c)
    ensures cfg.utf8Names ==> (Joins(cfg, c) <==> !IsSpace(c))
  {
    (cfg.utf8Names && !IsSpace(c)) || c in Symbols(cfg.asciiSymbols)
  }

  /** One character `c` at position `i`. */
  function Step(cfg: Config, m: Machine, c: char, i: nat): (r: Result<Machine>)
    requires PathOk(m.ast, m.stackPtr)
    ensures r.Success? ==> PathOk(r.value.ast, r.value.stackPtr)
    ensures r.Failure? ==>
              (m.state == Blank && c in Symbols(cfg.asciiSymbols) && r.error == InvalidSymbol(i)) ||
              (m.state == Raw && c == Delimiter(cfg.asciiSymbols) && r.error == InvalidArgumentCount)
    ensures m.state != Raw && c !in Symbols(cfg.asciiSymbols) ==> r == Success(m)
    ensures m.state == Blank && c in Symbols(cfg.asciiSymbols) ==> r == Failure(InvalidSymbol(i))
  {
    match m.state
    case Idle =>
      (match IndexOf(Symbols(cfg.asciiSymbols), c)
       case None => Success(m)
       case Some(k) => Success(Execute(m, Table[k])))
    case Raw => Collect(cfg, m, c)
    case Blank =>
      if c in Symbols(cfg.asciiSymbols) then Failure(InvalidSymbol(i)) else Success(m)
  }

  /** An instruction read while idle: it is appended at the cursor; `nil`
      closes the branch, `split` opens its two branches and descends into the
      first, any other instruction starts collecting its names. */
  function Execute(m: Machine, ins: Instruction): (m': Machine)
    requires PathOk(m.ast, m.stackPtr)
    ensures PathOk(m'.ast, m'.stackPtr)
  {
    var ast := AppendAt(m.ast, m.stackPtr, Ins(ins));
    PathOkAppend(m.ast, m.stackPtr, Ins(ins));
    var m1 := m.(ast := ast, instruction := ins, nameCount := 0);
    if ins == Nil then Terminate(m1)
    else if ins == Split then Fork(m1)
    else m1.(state := Raw)
  }

  /** After `nil`: pop the finished second branches; with nothing left the
      program is over, otherwise the innermost open split's second branch
      becomes the target. */
  function Terminate(m: Machine): (m': Machine)
    requires PathOk(m.ast, m.stackPtr)
    ensures PathOk(m'.ast, m'.stackPtr)
  {
    if PopSeconds(m.stackPtr) == [] then
      m.(state := Blank, stackPtr := PopSeconds(m.stackPtr))
    else
      NextBranchOk(m.ast, m.stackPtr);
      m.(stackPtr := NextBranch(m.stackPtr))
  }

  /** After `split`: two empty branches follow it and the cursor descends
      into the first. */
  function Fork(m: Machine): (m': Machine)
    requires PathOk(m.ast, m.stackPtr)
    ensures PathOk(m'.ast, m'.stackPtr)
  {
    var ast1 := AppendAt(m.ast, m.stackPtr, Branch([]));
    PathOkAppend(m.ast, m.stackPtr, Branch([]));
    var ast2 := AppendAt(ast1, m.stackPtr, Branch([]));
    PathOkAppend(ast1, m.stackPtr, Branch([]));
    PathOkSnoc(ast2, m.stackPtr, -2);
    m.(ast := ast2, stackPtr := m.stackPtr + [-2])
  }

  /** A character read inside a name: the delimiter completes a name (and,
      with the last one, the instruction); other characters may join the
      name being collected. */
  function Collect(cfg: Config, m: Machine, c: char): (r: Result<Machine>)
    requires PathOk(m.ast, m.stackPtr)
    ensures r.Success? ==> PathOk(r.value.ast, r.value.stackPtr)
  {
    if c == Delimiter(cfg.asciiSymbols) then
      var n := m.nameCount + 1;
      PathOkAppend(m.ast, m.stackPtr, Name(m.nameStack));
      var m1 := m.(ast := AppendAt(m.ast, m.stackPtr, Name(m.nameStack)), nameCount := n, nameStack := []);
      if m.instruction.args > n then Success(m1)
      else if m.instruction.args == n then Success(m1.(state := Idle))
      else Failure(InvalidArgumentCount)
    else if Joins(cfg, c) then
      Success(m.(nameStack := m.nameStack + [c]))
    else
      Success(m)
  }

  /** The machine after the whole of `s`, or the first error met. */
  function Run(cfg: Config, s: seq<char>): (r: Result<Machine>)
    ensures r.Success? ==> PathOk(r.value.ast, r.value.stackPtr)
    decreases |s|
  {
    if s == [] then Success(Init)
    else
      match Run(cfg, s[..|s| - 1])
      case Failure(e) => Failure(e)
      case Success(m) => Step(cfg, m, s[|s| - 1], |s| - 1)
  }

  /** The outcome of parsing `s`: the AST if the program ended, otherwise
      the error met, or an unexpected end of input. */
  function ParseSpec(cfg: Config, s: seq<char>): (r: Result<seq<Item>>)
    ensures r.Success? <==> Run(cfg, s).Success? && Run(cfg, s).value.state == Blank
    ensures r.Success? ==> r.value == Run(cfg, s).value.ast
    ensures Run(cfg, s).Failure? ==> r == Failure(Run(cfg, s).error)
    ensures Run(cfg, s).Success? && Run(cfg, s).value.state != Blank ==>
              r == Failure(UnexpectedEOF(Run(cfg, s).value.state == Raw))
    ensures s == [] ==> r == Failure(UnexpectedEOF(false))
  {
    var run := Run(cfg, s);
    if run.Failure? then Failure(run.error)
    else if run.value.state == Blank then Success(run.value.ast)
    else Failure(UnexpectedEOF(run.value.state == Raw))
  }

  /** An error ends the run: nothing after it is looked at. */
  lemma {:induction false} FailureIsFinal(cfg: Config, s: seq<char>, k: nat)
    requires k <= |s| && Run(cfg, s[..k]).Failure?
    ensures Run(cfg, s) == Run(cfg, s[..k])
    decreases |s| - k
  {
    if k < |s| {
      assert s[..k + 1][..k] == s[..k];
      FailureIsFinal(cfg, s, k + 1);
    } else {
      assert s[..k] == s;
    }
  }

  /** What an idle machine does with symbol number k: it executes the
      instruction at position k of the table. */
  lemma IdleSymbol(cfg: Config, m: Machine, k: nat, i: nat)
    requires PathOk(m.ast, m.stackPtr) && m.state == Idle && k < |Table|
    ensures Step(cfg, m, Symbols(cfg.asciiSymbols)[k], i) == Success(Execute(m, Table[k]))
  {
    SymbolsSelect(cfg.asciiSymbols, k);
  }

  /** A delimiter read while collecting names pushes the collected name
      onto the target list, in place of nothing else, and clears the buffer;
      any other character leaves the AST alone and at most grows the buffer
      by itself. */
  lemma CollectNames(cfg: Config, m: Machine, c: char)
    requires PathOk(m.ast, m.stackPtr) && Collect(cfg, m, c).Success?
    ensures var m' := Collect(cfg, m, c).value;
            m'.stackPtr == m.stackPtr && Walkable(m'.ast, m.stackPtr) &&
            (c == Delimiter(cfg.asciiSymbols) ==>
               Reach(m'.ast, m.stackPtr) == Reach(m.ast, m.stackPtr) + [Name(m.nameStack)] &&
               m'.nameStack == [] && m'.nameCount == m.nameCount + 1) &&
            (c != Delimiter(cfg.asciiSymbols) ==>
               m'.ast == m.ast && m'.nameCount == m.nameCount &&
               m'.nameStack == (if Joins(cfg, c) then m.nameStack + [c] else m.nameStack))
  {
  }

  /** How executing an instruction moves the cursor. */
  lemma ExecuteCursor(m: Machine, ins: Instruction)
    requires PathOk(m.ast, m.stackPtr)
    ensures var m' := Execute(m, ins);
            (ins == Split ==> m'.stackPtr == m.stackPtr + [-2]) &&
            (ins == Nil && PopSeconds(m.stackPtr) == [] ==> m'.state == Blank && m'.stackPtr == []) &&
            (ins == Nil && PopSeconds(m.stackPtr) != [] ==>
               m'.state == m.state && m'.stackPtr == NextBranch(m.stackPtr)) &&
            (ins != Nil && ins != Split ==> m'.stackPtr == m.stackPtr)
  {
  }

  /** How one step moves the cursor: a `split` read while idle pushes a
      first-branch directive; a `nil` read while idle either empties the
      cursor and ends the program, when every directive was second-branch,
      or moves to the next branch; nothing else touches the cursor, in
      particular nothing read while collecting names. */
  lemma StepCursor(cfg: Config, m: Machine, c: char, i: nat)
    requires PathOk(m.ast, m.stackPtr) && Step(cfg, m, c, i).Success?
    ensures var m' := Step(cfg, m, c, i).value;
            var symbols := Symbols(cfg.asciiSymbols);
            (m.state == Idle && c == symbols[1] ==> m'.stackPtr == m.stackPtr + [-2]) &&
            (m.state == Idle && c == symbols[0] && PopSeconds(m.stackPtr) == [] ==>
               m'.state == Blank && m'.stackPtr == [] &&
               forall k :: 0 <= k < |m.stackPtr| ==> m.stackPtr[k] == -1) &&
            (m.state == Idle && c == symbols[0] && PopSeconds(m.stackPtr) != [] ==>
               m'.state == Idle && m'.stackPtr == NextBranch(m.stackPtr)) &&
            (!(m.state == Idle && (c == symbols[0] || c == symbols[1])) ==> m'.stackPtr == m.stackPtr)
  {
    var symbols := Symbols(cfg.asciiSymbols);
    if m.state == Idle {
      match IndexOf(symbols, c) {
        case None =>
        case Some(k) =>
          assert Step(cfg, m, c, i).value == Execute(m, Table[k]);
          assert k >= 2 ==> Table[k] != Nil && Table[k] != Split;
          SymbolsSelect(cfg.asciiSymbols, 0);
          SymbolsSelect(cfg.asciiSymbols, 1);
          ExecuteCursor(m, Table[k]);
      }
    } else if m.state == Raw {
      CollectNames(cfg, m, c);
    }
  }

  /** `Fork` appends the two branches to the target and descends into the
      first, which is empty. */
  lemma ForkAppends(m: Machine)
    requires PathOk(m.ast, m.stackPtr)
    ensures var f := Fork(m);
            Walkable(f.ast, m.stackPtr) &&
            Reach(f.ast, m.stackPtr) == Reach(m.ast, m.stackPtr) + [Branch([]), Branch([])] &&
            f.stackPtr == m.stackPtr + [-2] && Walkable(f.ast, f.stackPtr) && Reach(f.ast, f.stackPtr) == []
  {
    var sp := m.stackPtr;
    var ast2 := Fork(m).ast;
    assert Reach(ast2, sp) == Reach(m.ast, sp) + [Branch([]), Branch([])];
    ReachSnoc(ast2, sp, -2);
  }

  /** A `split` (read while idle, see `IdleSymbol`) appends, in order,
      itself and two empty branches to the target list, and makes the first
      of them the target. */
  lemma SplitAppends(m: Machine)
    requires PathOk(m.ast, m.stackPtr)
    ensures var r := Execute(m, Split);
            Walkable(r.ast, m.stackPtr) &&
            Reach(r.ast, m.stackPtr) == Reach(m.ast, m.stackPtr) + [Ins(Split), Branch([]), Branch([])] &&
            r.stackPtr == m.stackPtr + [-2] && Walkable(r.ast, r.stackPtr) && Reach(r.ast, r.stackPtr) == []
  {
    var sp := m.stackPtr;
    var m1 := m.(ast := AppendAt(m.ast, sp, Ins(Split)), instruction := Split, nameCount := 0);
    PathOkAppend(m.ast, sp, Ins(Split));
    assert Execute(m, Split) == Fork(m1);
    ForkAppends(m1);
  }

  /** The names of an instruction: the parser starts collecting them only
      for an instruction that takes some, and is idle again exactly when the
      last one is complete; the count never passes the arity. */
  lemma StepNames(cfg: Config, m: Machine, c: char, i: nat)
    requires PathOk(m.ast, m.stackPtr) && Step(cfg, m, c, i).Success?
    requires m.instruction in Table && m.nameCount <= m.instruction.args
    requires m.state == Raw ==> m.nameCount < m.instruction.args
    ensures var m' := Step(cfg, m, c, i).value;
            m'.instruction in Table && m'.nameCount <= m'.instruction.args &&
            (m'.state == Raw ==> m'.nameCount < m'.instruction.args) &&
            (m.state != Raw && m'.state == Raw ==> m'.instruction.args >= 1 && m'.nameCount == 0) &&
            (m.state == Raw && m'.state == Idle <==>
               m.state == Raw && c == Delimiter(cfg.asciiSymbols) && m.nameCount + 1 == m.instruction.args)
  {
    if m.state == Idle {
      match IndexOf(Symbols(cfg.asciiSymbols), c) {
        case None =>
        case Some(k) => TableFacts(Table[k]);
      }
    }
  }

  /** The program ends only when a `nil` read while idle leaves no split
      open: every directive of the cursor was second-branch. */
  lemma ReachingBlank(cfg: Config, m: Machine, c: char, i: nat)
    requires PathOk(m.ast, m.stackPtr) && m.state != Blank
    requires Step(cfg, m, c, i).Success? && Step(cfg, m, c, i).value.state == Blank
    ensures m.state == Idle && c == Symbols(cfg.asciiSymbols)[0]
    ensures PopSeconds(m.stackPtr) == [] && forall k :: 0 <= k < |m.stackPtr| ==> m.stackPtr[k] == -1
  {
    var k := IndexOf(Symbols(cfg.asciiSymbols), c).value;
    assert Table[k] == Nil;
  }

  /** After the program has ended nothing changes any more: with no symbol
      in the rest of the input the machine stays as it was. */
  lemma {:induction false} BlankIsFinal(cfg: Config, s: seq<char>, k: nat)
    requires k <= |s| && Run(cfg, s[..k]).Success? && Run(cfg, s[..k]).value.state == Blank
    ensures (forall j :: k <= j < |s| ==> s[j] !in Symbols(cfg.asciiSymbols)) ==>
              Run(cfg, s) == Run(cfg, s[..k])
    decreases |s| - k
  {
    if k < |s| && forall j :: k <= j < |s| ==> s[j] !in Symbols(cfg.asciiSymbols) {
      var m := Run(cfg, s[..k]).value;
      assert s[..k + 1][..k] == s[..k];
      assert Run(cfg, s[..k + 1]) == Step(cfg, m, s[k], k) == Success(m);
      BlankIsFinal(cfg, s, k + 1);
    } else if k == |s| {
      assert s[..k] == s;
    }
  }

  /** After the program has ended, the first symbol read is an error:
      `InvalidSymbol` at its position. */
  lemma {:induction false} BlankFailsAtSymbol(cfg: Config, s: seq<char>, k: nat, j: nat)
    requires k <= |s| && Run(cfg, s[..k]).Success? && Run(cfg, s[..k]).value.state == Blank
    requires k <= j < |s| && s[j] in Symbols(cfg.asciiSymbols)
    requires forall j' :: k <= j' < j ==> s[j'] !in Symbols(cfg.asciiSymbols)
    ensures Run(cfg, s) == Failure(InvalidSymbol(j))
    decreases j - k
  {
    RunOneMore(cfg, s, k);
    if k == j {
      FailureIsFinal(cfg, s, k + 1);
    } else {
      BlankFailsAtSymbol(cfg, s, k + 1, j);
    }
  }

  /** Reading `x` after `s` is one more step, unless an error came first. */
  lemma RunSnoc(cfg: Config, s: seq<char>, x: char)
    ensures Run(cfg, s).Failure? ==> Run(cfg, s + [x]) == Failure(Run(cfg, s).error)
    ensures Run(cfg, s).Success? ==> Run(cfg, s + [x]) == Step(cfg, Run(cfg, s).value, x, |s|)
  {
    assert (s + [x])[..|s|] == s;
  }

  /** One more character of the input is one more step of the machine. */
  lemma RunOneMore(cfg: Config, s: seq<char>, n: nat)
    requires n < |s| && Run(cfg, s[..n]).Success?
    ensures Run(cfg, s[..n + 1]) == Step(cfg, Run(cfg, s[..n]).value, s[n], n)
  {
    assert s[..n + 1][..n] == s[..n];
  }

  /** Position k of `s` is where the program ended: a `nil` read while idle
      with no split open, after which the machine is past the program. */
  predicate EndsAt(cfg: Config, s: seq<char>, k: nat)
  {
    k < |s| && Run(cfg, s[..k]).Success? && Run(cfg, s[..k]).value.state == Idle &&
    s[k] == Symbols(cfg.asciiSymbols)[0] && PopSeconds(Run(cfg, s[..k]).value.stackPtr) == [] &&
    Run(cfg, s[..k + 1]).Success? && Run(cfg, s[..k + 1]).value.state == Blank
  }

  /** Where the program ended in a prefix of the input it ended in the
      whole input too. */
  lemma EndsAtExtend(cfg: Config, s: seq<char>, n: nat, k: nat)
    requires n <= |s| && EndsAt(cfg, s[..n], k)
    ensures EndsAt(cfg, s, k) && Run(cfg, s[..k + 1]) == Run(cfg, s[..n][..k + 1])
  {
    assert s[..n][..k] == s[..k] && s[..n][..k + 1] == s[..k + 1];
  }

  /** A step that reaches the end of the program marks where it ended. */
  lemma EndsAtLast(cfg: Config, s: seq<char>)
    requires s != [] && Run(cfg, s[..|s| - 1]).Success? && Run(cfg, s[..|s| - 1]).value.state != Blank
    requires Run(cfg, s).Success? && Run(cfg, s).value.state == Blank
    ensures EndsAt(cfg, s, |s| - 1) && Run(cfg, s[..|s| - 1 + 1]) == Run(cfg, s)
  {
    var m := Run(cfg, s[..|s| - 1]).value;
    ReachingBlank(cfg, m, s[|s| - 1], |s| - 1);
    assert s[..|s| - 1 + 1] == s;
  }

  /** A parse succeeds only if the program ended at some position of the
      input, and the AST is then the one built up to that position. */
  lemma SuccessfulParse(cfg: Config, s: seq<char>)
    ensures ParseSpec(cfg, s).Success? ==>
              exists k :: EndsAt(cfg, s, k) && Run(cfg, s[..k + 1]).value.ast == ParseSpec(cfg, s).value
  {
    if ParseSpec(cfg, s).Success? {
      EndedSomewhere(cfg, s);
    }
  }

  /** A run that is past the program passed its end at some position, and
      has not changed since. */
  lemma {:induction false} EndedSomewhere(cfg: Config, s: seq<char>)
    requires Run(cfg, s).Success? && Run(cfg, s).value.state == Blank
    ensures exists k :: EndsAt(cfg, s, k) && Run(cfg, s[..k + 1]) == Run(cfg, s)
    decreases |s|
  {
    var p := s[..|s| - 1];
    var m := Run(cfg, p).value;
    if m.state == Blank {
      assert s[..|s|] == s;
      RunOneMore(cfg, s, |s| - 1);
      EndedSomewhere(cfg, p);
      var k: nat :| EndsAt(cfg, p, k) && Run(cfg, p[..k + 1]) == Run(cfg, p);
      EndsAtExtend(cfg, s, |s| - 1, k);
    } else {
      EndsAtLast(cfg, s);
    }
  }

  /** Conversely, once the program has ended, the parse succeeds with the
      AST built up to there, provided no symbol follows. */
  lemma ParseAfterEnd(cfg: Config, s: seq<char>, k: nat)
    requires EndsAt(cfg, s, k)
    requires forall j :: k < j < |s| ==> s[j] !in Symbols(cfg.asciiSymbols)
    ensures ParseSpec(cfg, s) == Success(Run(cfg, s[..k + 1]).value.ast)
  {
    BlankIsFinal(cfg, s, k + 1);
  }

  /** A symbol after the end of the program makes the parse fail, at the
      first such symbol. */
  lemma ParseSymbolAfterEnd(cfg: Config, s: seq<char>, k: nat, j: nat)
    requires EndsAt(cfg, s, k)
    requires k < j < |s| && s[j] in Symbols(cfg.asciiSymbols)
    requires forall j' :: k < j' < j ==> s[j'] !in Symbols(cfg.asciiSymbols)
    ensures ParseSpec(cfg, s) == Failure(InvalidSymbol(j))
  {
    BlankFailsAtSymbol(cfg, s, k + 1, j);
  }

  /** Leaves the branch a `nil` ended: pops every second-branch directive at
      the end of the cursor; if none is left the program is finished,
      otherwise the innermost first-branch directive becomes second-branch. */
  method CloseBranch(stackPtr: seq<int>) returns (sp: seq<int>, finished: bool)
    ensures finished <==> PopSeconds(stackPtr) == []
    ensures finished ==> sp == [] && forall k :: 0 <= k < |stackPtr| ==> stackPtr[k] == -1
    ensures !finished ==> sp == NextBranch(stackPtr)
  {
    sp := stackPtr;
    while |sp| > 0 && sp[|sp| - 1] == -1
      invariant PopSeconds(sp) == PopSeconds(stackPtr)
    {
      sp := sp[..|sp| - 1];
    }
    finished := |sp| == 0;
    if !finished {
      sp := sp[..|sp| - 1] + [-1];
    }
  }

  /** Reads instruction `ins` while idle: appends it at the cursor, then
      closes the branch (`nil`), opens two branches (`split`) or starts
      collecting names (any other instruction). */
  method ExecuteInstruction(ast: AST, stackPtr: seq<int>, ins: Instruction, ghost m: Machine)
    returns (state: State, sp: seq<int>)
    requires m.state == Idle && m.ast == ast.instructions && m.stackPtr == stackPtr
    requires PathOk(ast.instructions, stackPtr)
    modifies ast
    ensures Execute(m, ins) ==
            m.(state := state, ast := ast.instructions, stackPtr := sp, instruction := ins, nameCount := 0)
  {
    ast.Push(Ins(ins), stackPtr);
    PathOkAppend(m.ast, stackPtr, Ins(ins));
    ghost var m1 := m.(ast := ast.instructions, instruction := ins, nameCount := 0);
    state, sp := Idle, stackPtr;
    if ins == Nil {
      var finished;
      sp, finished := CloseBranch(sp);
      if finished {
        state := Blank;
      }
      assert m1.(state := state, stackPtr := sp) == Terminate(m1);
    } else if ins == Split {
      ast.Push(Branch([]), sp);
      ast.Push(Branch([]), sp);
      sp := sp + [-2];
      assert m1.(state := state, ast := ast.instructions, stackPtr := sp) == Fork(m1);
    } else {
      state := Raw;
    }
  }

  /** Reads character `ch` while collecting the names of `instruction`: the
      delimiter completes a name, which is appended at the cursor, and after
      the last one the parser is idle again; a delimiter beyond the arity is
      an error. Other characters may join the name being collected. */
  method CollectCharacter(cfg: Config, ast: AST, stackPtr: seq<int>, instruction: Instruction,
                          nameCount: nat, nameStack: seq<char>, ch: char, ghost m: Machine)
    returns (state: State, count: nat, buffer: seq<char>, failed: bool)
    requires m == Machine(Raw, ast.instructions, stackPtr, instruction, nameCount, nameStack)
    requires PathOk(ast.instructions, stackPtr)
    modifies ast
    ensures failed <==> Collect(cfg, m, ch).Failure?
    ensures failed ==> Collect(cfg, m, ch) == Failure(InvalidArgumentCount)
    ensures !failed ==>
              Collect(cfg, m, ch) == Success(Machine(state, ast.instructions, stackPtr, instruction, count, buffer))
  {
    state, count, buffer, failed := Raw, nameCount, nameStack, false;
    if ch == Delimiter(cfg.asciiSymbols) {
      count := count + 1;
      ghost var m1 := m.(ast := AppendAt(m.ast, stackPtr, Name(nameStack)), nameCount := count, nameStack := []);
      if instruction.args > count {
        assert Collect(cfg, m, ch) == Success(m1);
        ast.Push(Name(buffer), stackPtr);
        buffer := [];
      } else if instruction.args == count {
        assert Collect(cfg, m, ch) == Success(m1.(state := Idle));
        ast.Push(Name(buffer), stackPtr);
        buffer := [];
        state := Idle;
      } else {
        failed := true;
        assert Collect(cfg, m, ch) == Failure(InvalidArgumentCount);
      }
    } else if Joins(cfg, ch) {
      buffer := buffer + [ch];
      assert Collect(cfg, m, ch) == Success(m.(nameStack := buffer));
    } else {
      assert Collect(cfg, m, ch) == Success(m);
    }
  }

  /** Parses `stream` into an AST, or reports the first error. */
  method Parse(stream: string, utf8Names: bool, asciiSymbols: bool) returns (r: Result<AST>)
    ensures r.Success? <==> ParseSpec(Config(utf8Names, asciiSymbols), stream).Success?
    ensures r.Success? ==> r.value.instructions == ParseSpec(Config(utf8Names, asciiSymbols), stream).value
    ensures r.Failure? ==> r.error == ParseSpec(Config(utf8Names, asciiSymbols), stream).error
  {
    var cfg := Config(utf8Names, asciiSymbols);
    var symbols := Symbols(asciiSymbols);

    var state := Idle;
    var ast := new AST();
    var stackPtr: seq<int> := [];
    var instruction := Nil;
    var nameCount: nat := 0;
    var nameStack: seq<char> := [];

    for i := 0 to |stream|
      invariant Run(cfg, stream[..i]) ==
                Success(Machine(state, ast.instructions, stackPtr, instruction, nameCount, nameStack))
    {
      var ch := stream[i];
      assert stream[..i + 1][..i] == stream[..i];
      ghost var m := Machine(state, ast.instructions, stackPtr, instruction, nameCount, nameStack);
      assert Run(cfg, stream[..i + 1]) == Step(cfg, m, ch, i);
      if state == Idle {
        var index := IndexOf(symbols, ch);
        if index.Some? {
          instruction := Table[index.value];
          nameCount := 0;
          state, stackPtr := ExecuteInstruction(ast, stackPtr, instruction, m);
          assert Machine(state, ast.instructions, stackPtr, instruction, nameCount, nameStack) == Execute(m, instruction);
        }
      } else if state == Raw {
        var failed;
        state, nameCount, nameStack, failed := CollectCharacter(cfg, ast, stackPtr, instruction, nameCount, nameStack, ch, m);
        if failed {
          r := Failure(InvalidArgumentCount);
          FailureIsFinal(cfg, stream, i + 1);
          return;
        }
      } else {
        if ch in symbols {
          r := Failure(InvalidSymbol(i));
          FailureIsFinal(cfg, stream, i + 1);
          return;
        }
      }
    }
    assert stream[..|stream|] == stream;

    if state == Idle {
      return Failure(UnexpectedEOF(false));
    }
    if state == Raw {
      return Failure(UnexpectedEOF(true));
    }
    r := Success(ast);
  }
}
