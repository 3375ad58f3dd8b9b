/**
 Two ways of changing the input that do not change what `parse` makes of
 it. Spelling a program with the letter symbols instead of the glyphs
 yields the same AST, except that the characters of every name are spelled
 the other way too. A character that is not a symbol, read while waiting
 for an instruction or after the program, is ignored: the outcome is the
 same, with any later error position moved by one.
 */
module Invariance {
  import opened Instructions
  import opened Ast
  import opened Cursor
  import opened Parser

  // ---------------------------------------------------------------------
  // Symbol sets
  // ---------------------------------------------------------------------

  /** Exchanges the glyph and the letter of each instruction; every other
      character stays as it is. */
  function SwapChar(c: char): (d: char)
    ensures IndexOf(Symbols(true), d) == IndexOf(Symbols(false), c)
    ensures IndexOf(Symbols(false), d) == IndexOf(Symbols(true), c)
    ensures IsSpace(d) == IsSpace(c)
  {
    match IndexOf(Symbols(false), c)
    case Some(k) =>
      SymbolsSelect(true, k);
      SymbolSetsDisjoint(k);
      Symbols(true)[k]
    case None =>
      (match IndexOf(Symbols(true), c)
       case Some(k) =>
         SymbolsSelect(false, k);
         SymbolSetsDisjoint(k);
         Symbols(false)[k]
       case None => c)
  }

  /** No glyph is a letter symbol and no letter is a glyph. */
  lemma SymbolSetsDisjoint(k: nat)
    requires k < |Table|
    ensures Symbols(false)[k] !in Symbols(true) && Symbols(true)[k] !in Symbols(false)
  {
  }

  /** Swapping twice gives the character back. */
  lemma SwapTwice(c: char)
    ensures SwapChar(SwapChar(c)) == c
  {
    match IndexOf(Symbols(false), c) {
      case Some(k) =>
        SymbolsSelect(false, k);
      case None =>
        match IndexOf(Symbols(true), c) {
          case Some(k) =>
            SymbolsSelect(true, k);
          case None =>
        }
    }
  }

  /** The input spelled with the other symbol set. */
  function SwapAll(s: string): (t: string)
    ensures |t| == |s| && forall i :: 0 <= i < |s| ==> t[i] == SwapChar(s[i])
  {
    seq(|s|, i requires 0 <= i < |s| => SwapChar(s[i]))
  }

  /** An AST item with the characters of its names swapped, at every
      depth. */
  function RenameItem(item: Item): (r: Item)
    ensures r.Ins? == item.Ins? && r.Name? == item.Name? && r.Branch? == item.Branch?
    ensures item.Ins? ==> r == item
    decreases item, 1
  {
    match item
    case Ins(_) => item
    case Name(t) => Name(SwapAll(t))
    case Branch(children) => Branch(RenameItems(children))
  }

  function RenameItems(items: seq<Item>): (r: seq<Item>)
    ensures |r| == |items| && forall i :: 0 <= i < |items| ==> r[i] == RenameItem(items[i])
    decreases items, 0
  {
    seq(|items|, i requires 0 <= i < |items| => RenameItem(items[i]))
  }

  /** The parser state with its names swapped: the AST and the name being
      collected. */
  function RenameMachine(m: Machine): Machine
  {
    m.(ast := RenameItems(m.ast), nameStack := SwapAll(m.nameStack))
  }

  function RenameRun(r: Result<Machine>): Result<Machine>
  {
    match r
    case Success(m) => Success(RenameMachine(m))
    case Failure(e) => Failure(e)
  }

  /** The outcome of a parse with its names swapped; errors stay as they
      are. */
  function RenameNames(r: Result<seq<Item>>): Result<seq<Item>>
  {
    match r
    case Success(ast) => Success(RenameItems(ast))
    case Failure(e) => Failure(e)
  }

  /** Renaming keeps every path walkable and commutes with walking it. */
  lemma {:induction false} RenameReach(items: seq<Item>, path: seq<int>)
    requires Walkable(items, path)
    ensures Walkable(RenameItems(items), path) &&
            Reach(RenameItems(items), path) == RenameItems(Reach(items, path))
    decreases |path|
  {
    if path != [] {
      var k := Abs(|items|, path[0]);
      RenameReach(items[k].children, path[1..]);
    }
  }

  /** Renaming keeps the cursor usable. */
  lemma {:induction false} RenamePathOk(items: seq<Item>, sp: seq<int>)
    requires PathOk(items, sp)
    ensures PathOk(RenameItems(items), sp)
    decreases |sp|
  {
    if sp != [] {
      RenamePathOk(items[|items| + sp[0]].children, sp[1..]);
    }
  }

  /** Renaming commutes with `push`. */
  lemma {:induction false} RenameAppend(items: seq<Item>, path: seq<int>, v: Item)
    requires Walkable(items, path)
    ensures Walkable(RenameItems(items), path) &&
            RenameItems(AppendAt(items, path, v)) == AppendAt(RenameItems(items), path, RenameItem(v))
    decreases |path|
  {
    RenameReach(items, path);
    if path == [] {
      assert RenameItems(items + [v]) == RenameItems(items) + [RenameItem(v)];
    } else {
      var k := Abs(|items|, path[0]);
      RenameAppend(items[k].children, path[1..], v);
      assert RenameItems(AppendAt(items, path, v)) == AppendAt(RenameItems(items), path, RenameItem(v));
    }
  }

  /** An instruction read while idle does the same on the renamed state. */
  lemma RenameExecute(m: Machine, ins: Instruction)
    requires PathOk(m.ast, m.stackPtr)
    ensures PathOk(RenameMachine(m).ast, m.stackPtr) &&
            Execute(RenameMachine(m), ins) == RenameMachine(Execute(m, ins))
  {
    RenamePathOk(m.ast, m.stackPtr);
    RenameAppend(m.ast, m.stackPtr, Ins(ins));
    if ins == Split {
      var ast1 := AppendAt(m.ast, m.stackPtr, Ins(ins));
      PathOkAppend(m.ast, m.stackPtr, Ins(ins));
      RenameAppend(ast1, m.stackPtr, Branch([]));
      var ast2 := AppendAt(ast1, m.stackPtr, Branch([]));
      PathOkAppend(ast1, m.stackPtr, Branch([]));
      RenameAppend(ast2, m.stackPtr, Branch([]));
      assert RenameItem(Branch([])) == Branch([]);
    }
  }

  /** A character read inside a name does the same on the renamed state,
      and joins the name swapped. */
  lemma RenameCollect(u: bool, m: Machine, c: char)
    requires PathOk(m.ast, m.stackPtr)
    ensures PathOk(RenameMachine(m).ast, m.stackPtr) &&
            Collect(Config(u, true), RenameMachine(m), SwapChar(c)) == RenameRun(Collect(Config(u, false), m, c))
  {
    RenamePathOk(m.ast, m.stackPtr);
    assert SwapChar(c) == Delimiter(true) <==> c == Delimiter(false) by {
      SymbolsSelect(true, 3);
      SymbolsSelect(false, 3);
    }
    if c == Delimiter(false) {
      RenameDelimiter(u, m);
    } else {
      RenameJoin(u, m, c);
    }
  }

  /** The delimiter completes the renamed name, in the renamed AST. */
  lemma RenameDelimiter(u: bool, m: Machine)
    requires PathOk(m.ast, m.stackPtr)
    ensures PathOk(RenameMachine(m).ast, m.stackPtr) &&
            Collect(Config(u, true), RenameMachine(m), Delimiter(true)) ==
            RenameRun(Collect(Config(u, false), m, Delimiter(false)))
  {
    RenamePathOk(m.ast, m.stackPtr);
    var n := m.nameCount + 1;
    var m1 := m.(ast := AppendAt(m.ast, m.stackPtr, Name(m.nameStack)), nameCount := n, nameStack := []);
    var r := RenameMachine(m);
    var r1 := r.(ast := AppendAt(r.ast, m.stackPtr, Name(r.nameStack)), nameCount := n, nameStack := []);
    assert RenameMachine(m1) == r1 by {
      RenameAppend(m.ast, m.stackPtr, Name(m.nameStack));
    }
    var (cf, ct) := (Config(u, false), Config(u, true));
    if m.instruction.args > n {
      assert Collect(cf, m, Delimiter(false)) == Success(m1);
      assert Collect(ct, r, Delimiter(true)) == Success(r1);
    } else if m.instruction.args == n {
      assert RenameMachine(m1.(state := Idle)) == r1.(state := Idle);
      assert Collect(cf, m, Delimiter(false)) == Success(m1.(state := Idle));
      assert Collect(ct, r, Delimiter(true)) == Success(r1.(state := Idle));
    } else {
      assert Collect(cf, m, Delimiter(false)) == Failure(InvalidArgumentCount);
      assert Collect(ct, r, Delimiter(true)) == Failure(InvalidArgumentCount);
    }
  }

  /** A character other than the delimiter joins the renamed name exactly
      when it joins the name, swapped. */
  lemma RenameJoin(u: bool, m: Machine, c: char)
    requires PathOk(m.ast, m.stackPtr) && PathOk(RenameMachine(m).ast, m.stackPtr)
    requires c != Delimiter(false) && SwapChar(c) != Delimiter(true)
    ensures Collect(Config(u, true), RenameMachine(m), SwapChar(c)) == RenameRun(Collect(Config(u, false), m, c))
  {
    var d := SwapChar(c);
    assert Joins(Config(u, true), d) == Joins(Config(u, false), c);
    SwapAllSnoc(m.nameStack, c);
  }

  /** Swapping commutes with appending a character. */
  lemma SwapAllSnoc(s: string, c: char)
    ensures SwapAll(s + [c]) == SwapAll(s) + [SwapChar(c)]
  {
  }

  /** One step on the swapped character from the renamed state is the
      renamed step. */
  lemma RenameStep(u: bool, m: Machine, c: char, i: nat)
    requires PathOk(m.ast, m.stackPtr)
    ensures PathOk(RenameMachine(m).ast, m.stackPtr) &&
            Step(Config(u, true), RenameMachine(m), SwapChar(c), i) == RenameRun(Step(Config(u, false), m, c, i))
  {
    RenamePathOk(m.ast, m.stackPtr);
    var d := SwapChar(c);
    assert d in Symbols(true) <==> c in Symbols(false);
    match m.state {
      case Idle =>
        match IndexOf(Symbols(false), c) {
          case None =>
          case Some(k) =>
            RenameExecute(m, Table[k]);
        }
      case Raw =>
        RenameCollect(u, m, c);
      case Blank =>
    }
  }

  /** The whole run on the swapped input is the renamed run. */
  lemma {:induction false} RenameRunAll(u: bool, s: string)
    ensures Run(Config(u, true), SwapAll(s)) == RenameRun(Run(Config(u, false), s))
    decreases |s|
  {
    if s == [] {
      assert SwapAll(s) == [];
      assert RenameItems([]) == [] && SwapAll([]) == [];
    } else {
      var p := s[..|s| - 1];
      SwapAllSnoc(p, s[|s| - 1]);
      assert p + [s[|s| - 1]] == s;
      RenameRunAll(u, p);
      match Run(Config(u, false), p)
      case Failure(_) =>
      case Success(m) =>
        RenameStep(u, m, s[|s| - 1], |s| - 1);
    }
  }

  /** Choosing the letter symbols and spelling the program with them gives
      the same outcome as the glyphs: the same error, or the same AST with
      the characters of its names spelled the other way. */
  lemma SymbolSetsAgree(u: bool, s: string)
    ensures ParseSpec(Config(u, true), SwapAll(s)) == RenameNames(ParseSpec(Config(u, false), s))
  {
    RenameRunAll(u, s);
  }

  // ---------------------------------------------------------------------
  // Ignored characters
  // ---------------------------------------------------------------------

  /** An error one character later: a symbol's position moves by one. */
  function ShiftError(e: ParseError): (e': ParseError)
    ensures e'.InvalidSymbol? <==> e.InvalidSymbol?
    ensures e.InvalidSymbol? ==> e'.position == e.position + 1
    ensures !e.InvalidSymbol? ==> e' == e
  {
    if e.InvalidSymbol? then InvalidSymbol(e.position + 1) else e
  }

  function Shifted<T>(r: Result<T>): Result<T>
  {
    match r
    case Success(v) => Success(v)
    case Failure(e) => Failure(ShiftError(e))
  }

  /** The position only shows in an `InvalidSymbol` error. */
  lemma StepShift(cfg: Config, m: Machine, c: char, i: nat)
    requires PathOk(m.ast, m.stackPtr)
    ensures Step(cfg, m, c, i + 1) == Shifted(Step(cfg, m, c, i))
  {
  }

  /** After an ignored character the run goes on as without it, one
      position later. */
  lemma {:induction false} RunSkip(cfg: Config, p: string, c: char, q: string)
    requires Run(cfg, p).Success? && Run(cfg, p).value.state != Raw
    requires c !in Symbols(cfg.asciiSymbols)
    ensures Run(cfg, p + [c] + q) == Shifted(Run(cfg, p + q))
    decreases |q|
  {
    if q == [] {
      assert p + [c] + q == p + [c] && p + q == p;
      RunSnoc(cfg, p, c);
    } else {
      var q', x := q[..|q| - 1], q[|q| - 1];
      var a, b := p + [c] + q', p + q';
      SplitLast(p, c, q);
      RunSkip(cfg, p, c, q');
      ShiftedSnoc(cfg, a, b, x);
    }
  }

  /** Runs one position apart stay one position apart on the same next
      character. */
  lemma ShiftedSnoc(cfg: Config, a: string, b: string, x: char)
    requires |a| == |b| + 1 && Run(cfg, a) == Shifted(Run(cfg, b))
    ensures Run(cfg, a + [x]) == Shifted(Run(cfg, b + [x]))
  {
    RunSnoc(cfg, a, x);
    RunSnoc(cfg, b, x);
    if Run(cfg, b).Success? {
      StepShift(cfg, Run(cfg, b).value, x, |b|);
    }
  }

  lemma SplitLast(p: string, c: char, q: string)
    requires q != []
    ensures p + [c] + q == (p + [c] + q[..|q| - 1]) + [q[|q| - 1]]
    ensures p + q == (p + q[..|q| - 1]) + [q[|q| - 1]]
  {
    assert q == q[..|q| - 1] + [q[|q| - 1]];
  }

  /** A character that is not a symbol, read while waiting for an
      instruction or after the program, changes nothing: the parse succeeds
      exactly when it does without the character, with the same AST, and
      otherwise fails the same way, an `InvalidSymbol` one position later. */
  lemma IgnoredCharacter(cfg: Config, p: string, c: char, q: string)
    requires Run(cfg, p).Success? && Run(cfg, p).value.state != Raw
    requires c !in Symbols(cfg.asciiSymbols)
    ensures ParseSpec(cfg, p + [c] + q) == Shifted(ParseSpec(cfg, p + q))
    ensures ParseSpec(cfg, p + [c] + q).Success? <==> ParseSpec(cfg, p + q).Success?
    ensures ParseSpec(cfg, p + [c] + q).Success? ==> ParseSpec(cfg, p + [c] + q).value == ParseSpec(cfg, p + q).value
  {
    RunSkip(cfg, p, c, q);
  }
}
