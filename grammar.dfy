/**
 What the parser builds, stated independently of how it builds it: a
 successful parse yields a complete program in the grammar below, and during
 the parse the AST is always a program in progress along the cursor path.
 */
module Grammar {
  import opened Instructions
  import opened Ast
  import opened Cursor
  import opened Parser

  /** A character a name may hold: never the delimiter; a symbol, or with
      `utf8Names` any non-whitespace character. */
  predicate NameChar(cfg: Config, c: char)
  {
    c != Delimiter(cfg.asciiSymbols) && Joins(cfg, c)
  }

  predicate GoodName(cfg: Config, s: seq<char>)
  {
    forall k :: 0 <= k < |s| ==> NameChar(cfg, s[k])
  }

  /** Every item is a name literal made of name characters. */
  predicate Names(cfg: Config, items: seq<Item>)
  {
    forall k :: 0 <= k < |items| ==> items[k].Name? && GoodName(cfg, items[k].text)
  }

  /** An instruction that neither ends nor forks its branch. */
  predicate Simple(ins: Instruction)
  {
    ins in Table && ins != Nil && ins != Split
  }

  /** A run of complete statements: each is a simple instruction followed by
      exactly as many names as it takes. */
  predicate Stmts(cfg: Config, items: seq<Item>)
    decreases |items|
  {
    items == [] ||
    (items[0].Ins? && Simple(items[0].ins) && |items| > items[0].ins.args &&
     Names(cfg, items[1..1 + items[0].ins.args]) && Stmts(cfg, items[1 + items[0].ins.args..]))
  }

  /** A complete branch: statements ended either by `nil`, or by `split`
      followed by its two branches, each complete in turn. */
  predicate Program(cfg: Config, items: seq<Item>)
    decreases items
  {
    var n := |items|;
    (n >= 1 && items[n - 1] == Ins(Nil) && Stmts(cfg, items[..n - 1])) ||
    (n >= 3 && items[n - 3] == Ins(Split) && items[n - 2].Branch? && items[n - 1].Branch? &&
     Stmts(cfg, items[..n - 3]) &&
     Program(cfg, items[n - 2].children) && Program(cfg, items[n - 1].children))
  }

  /** The target list while names are being collected: statements, then
      `ins` with its first `n` names, fewer than it takes. */
  predicate Pending(cfg: Config, t: seq<Item>, ins: Instruction, n: nat)
  {
    Simple(ins) && n < ins.args && |t| > n &&
    t[|t| - n - 1] == Ins(ins) && Names(cfg, t[|t| - n..]) && Stmts(cfg, t[..|t| - n - 1])
  }

  /** One list above the target: complete statements, then a split and its
      two branches. Below a first-branch directive the second branch is
      still empty; below a second-branch directive the first branch is a
      complete program. */
  predicate Level(cfg: Config, items: seq<Item>, d: int)
  {
    var n := |items|;
    IsDirective(d) && n >= 3 && items[n - 3] == Ins(Split) &&
    items[n - 2].Branch? && items[n - 1].Branch? && Stmts(cfg, items[..n - 3]) &&
    (d == -2 ==> items[n - 1].children == []) &&
    (d == -1 ==> Program(cfg, items[n - 2].children))
  }

  /** Every list above the target, along the cursor path, is a `Level` for
      its directive. Such a path is usable. */
  predicate OnPath(cfg: Config, items: seq<Item>, sp: seq<int>)
    ensures OnPath(cfg, items, sp) ==> PathOk(items, sp)
    decreases |sp|
  {
    sp == [] ||
    (Level(cfg, items, sp[0]) && OnPath(cfg, items[|items| + sp[0]].children, sp[1..]))
  }

  /** The parser's invariant: the name count never passes the arity; while
      idle the target holds complete statements and the name buffer is empty;
      while collecting names the target holds a pending instruction and the
      buffer only name characters; after the program the cursor is empty and
      the whole AST is a complete program. */
  predicate Shape(cfg: Config, m: Machine)
    ensures Shape(cfg, m) ==> PathOk(m.ast, m.stackPtr)
  {
    m.instruction in Table && m.nameCount <= m.instruction.args &&
    match m.state
    case Blank => m.stackPtr == [] && m.nameStack == [] && Program(cfg, m.ast)
    case Idle =>
      m.nameStack == [] && OnPath(cfg, m.ast, m.stackPtr) && Stmts(cfg, Reach(m.ast, m.stackPtr))
    case Raw =>
      GoodName(cfg, m.nameStack) && OnPath(cfg, m.ast, m.stackPtr) &&
      Pending(cfg, Reach(m.ast, m.stackPtr), m.instruction, m.nameCount)
  }

  /** A run of statements seen from its first statement. */
  lemma StmtsCons(cfg: Config, ins: Instruction, names: seq<Item>, rest: seq<Item>)
    requires Simple(ins) && |names| == ins.args && Names(cfg, names)
    ensures Stmts(cfg, [Ins(ins)] + names + rest) <==> Stmts(cfg, rest)
  {
    var t := [Ins(ins)] + names + rest;
    assert t[1..1 + ins.args] == names;
    assert t[1 + ins.args..] == rest;
  }

  /** Statements followed by one more complete statement are statements. */
  lemma {:induction false} StmtsSnoc(cfg: Config, s: seq<Item>, ins: Instruction, names: seq<Item>)
    requires Stmts(cfg, s) && Simple(ins) && |names| == ins.args && Names(cfg, names)
    ensures Stmts(cfg, s + [Ins(ins)] + names)
    decreases |s|
  {
    if s == [] {
      StmtsCons(cfg, ins, names, []);
      assert s + [Ins(ins)] + names == [Ins(ins)] + names + [];
    } else {
      var a := s[0].ins.args;
      var rest := s[1 + a..];
      var u := rest + [Ins(ins)] + names;
      assert Stmts(cfg, u) by {
        StmtsSnoc(cfg, rest, ins, names);
      }
      assert s + [Ins(ins)] + names == [Ins(s[0].ins)] + s[1..1 + a] + u by {
        assert s == [Ins(s[0].ins)] + s[1..1 + a] + rest;
      }
      StmtsCons(cfg, s[0].ins, s[1..1 + a], u);
    }
  }

  /** Replacing the branch a directive selects keeps the level intact. */
  lemma LevelUpdate(cfg: Config, items: seq<Item>, d: int, c: seq<Item>)
    requires Level(cfg, items, d)
    ensures Level(cfg, items[|items| + d := Branch(c)], d)
  {
    var n := |items|;
    var r := items[n + d := Branch(c)];
    assert r[..n - 3] == items[..n - 3];
    assert r[n - 3] == items[n - 3];
    if d == -2 {
      assert r[n - 1] == items[n - 1];
    } else {
      assert r[n - 2] == items[n - 2];
    }
  }

  /** Appending at the cursor keeps the lists above the target as they were. */
  lemma {:induction false} OnPathAppend(cfg: Config, items: seq<Item>, sp: seq<int>, v: Item)
    requires OnPath(cfg, items, sp)
    ensures OnPath(cfg, AppendAt(items, sp, v), sp)
    decreases |sp|
  {
    if sp != [] {
      var k := |items| + sp[0];
      var c := AppendAt(items[k].children, sp[1..], v);
      assert AppendAt(items, sp, v) == items[k := Branch(c)];
      OnPathAppend(cfg, items[k].children, sp[1..], v);
      LevelUpdate(cfg, items, sp[0], c);
    }
  }

  /** Descending one level keeps the path condition when the target itself
      meets it for that one directive. */
  lemma {:induction false} OnPathSnoc(cfg: Config, items: seq<Item>, sp: seq<int>, d: int)
    requires OnPath(cfg, items, sp) && OnPath(cfg, Reach(items, sp), [d])
    ensures OnPath(cfg, items, sp + [d])
    decreases |sp|
  {
    if sp == [] {
      assert [] + [d] == [d];
    } else {
      var k := |items| + sp[0];
      assert (sp + [d])[0] == sp[0] && (sp + [d])[1..] == sp[1..] + [d];
      OnPathSnoc(cfg, items[k].children, sp[1..], d);
    }
  }

  /** A split whose first branch is complete and whose second branch has
      just been completed closes its list into a complete program. */
  lemma CloseSecond(cfg: Config, items: seq<Item>)
    requires Level(cfg, items, -1) && Program(cfg, items[|items| - 1].children)
    ensures Program(cfg, items)
  {
  }

  /** A split whose first branch has just been completed hands the cursor
      to its still empty second branch. */
  lemma EnterSecond(cfg: Config, items: seq<Item>)
    requires Level(cfg, items, -2) && Program(cfg, items[|items| - 2].children)
    ensures OnPath(cfg, items, [-1]) && Reach(items, [-1]) == []
  {
    assert [-1][1..] == [];
  }

  /** Closing a complete branch is a post-order step: if the whole path was
      second branches the root is a complete program; otherwise the cursor
      moves to the still empty second branch of the innermost open split,
      with the path condition kept. */
  lemma {:induction false} CloseKeepsShape(cfg: Config, items: seq<Item>, sp: seq<int>)
    requires OnPath(cfg, items, sp) && Program(cfg, Reach(items, sp))
    ensures PopSeconds(sp) == [] ==> Program(cfg, items)
    ensures PopSeconds(sp) != [] ==>
              OnPath(cfg, items, NextBranch(sp)) && Reach(items, NextBranch(sp)) == []
    decreases |sp|
  {
    if sp != [] {
      var d, rest := sp[0], sp[1..];
      var child := items[|items| + d].children;
      assert sp == [d] + rest;
      assert Reach(items, sp) == Reach(child, rest);
      PopSecondsCons(d, rest);
      CloseKeepsShape(cfg, child, rest);
      if PopSeconds(rest) == [] {
        if d == -1 {
          CloseSecond(cfg, items);
        } else {
          assert NextBranch(sp) == [-1];
          EnterSecond(cfg, items);
        }
      } else {
        NextBranchCons(d, rest);
        var q := NextBranch(rest);
        assert ([d] + q)[0] == d && ([d] + q)[1..] == q;
      }
    }
  }

  /** After `nil` completes the target branch, the invariant holds again. */
  lemma TerminateKeepsShape(cfg: Config, m: Machine)
    requires m.state == Idle && m.nameStack == [] && m.instruction == Nil && m.nameCount == 0
    requires OnPath(cfg, m.ast, m.stackPtr) && Program(cfg, Reach(m.ast, m.stackPtr))
    ensures Shape(cfg, Terminate(m))
  {
    CloseKeepsShape(cfg, m.ast, m.stackPtr);
  }

  /** After `split` and its two empty branches are appended after complete
      statements, the invariant holds with the cursor in the first branch. */
  lemma ForkKeepsShape(cfg: Config, m: Machine, t: seq<Item>)
    requires m.state == Idle && m.nameStack == [] && m.instruction == Split && m.nameCount == 0
    requires OnPath(cfg, m.ast, m.stackPtr) && Reach(m.ast, m.stackPtr) == t + [Ins(Split)] && Stmts(cfg, t)
    ensures Shape(cfg, Fork(m))
  {
    var sp := m.stackPtr;
    var ast1 := AppendAt(m.ast, sp, Branch([]));
    OnPathAppend(cfg, m.ast, sp, Branch([]));
    var ast2 := AppendAt(ast1, sp, Branch([]));
    OnPathAppend(cfg, ast1, sp, Branch([]));
    var t2 := Reach(ast2, sp);
    assert t2 == t + [Ins(Split), Branch([]), Branch([])];
    assert t2[..|t2| - 3] == t;
    OnPathSnoc(cfg, ast2, sp, -2);
    ReachSnoc(ast2, sp, -2);
    assert Fork(m) == m.(ast := ast2, stackPtr := sp + [-2]);
  }

  /** Reading an instruction while idle keeps the invariant. */
  lemma ExecuteKeepsShape(cfg: Config, m: Machine, ins: Instruction)
    requires Shape(cfg, m) && m.state == Idle && ins in Table
    ensures Shape(cfg, Execute(m, ins))
  {
    var sp := m.stackPtr;
    var t := Reach(m.ast, sp);
    var ast := AppendAt(m.ast, sp, Ins(ins));
    OnPathAppend(cfg, m.ast, sp, Ins(ins));
    var m1 := m.(ast := ast, instruction := ins, nameCount := 0);
    var t1 := t + [Ins(ins)];
    assert Reach(ast, sp) == t1;
    assert t1[..|t1| - 1] == t;
    if ins == Nil {
      TerminateKeepsShape(cfg, m1);
    } else if ins == Split {
      ForkKeepsShape(cfg, m1, t);
    } else {
      TableFacts(ins);
      assert t1[|t1|..] == [];
      assert Shape(cfg, m1.(state := Raw));
    }
  }

  /** Names followed by one more good name are names. */
  lemma NamesSnoc(cfg: Config, names: seq<Item>, name: seq<char>)
    requires Names(cfg, names) && GoodName(cfg, name)
    ensures Names(cfg, names + [Name(name)])
  {
  }

  /** One more name after a pending instruction: still pending if more
      names are due, otherwise the statement is complete. */
  lemma PendingNext(cfg: Config, t: seq<Item>, ins: Instruction, n: nat, name: seq<char>)
    requires Pending(cfg, t, ins, n) && GoodName(cfg, name)
    ensures n + 1 < ins.args ==> Pending(cfg, t + [Name(name)], ins, n + 1)
    ensures n + 1 == ins.args ==> Stmts(cfg, t + [Name(name)])
  {
    var t1 := t + [Name(name)];
    var s := t[..|t| - n - 1];
    var names := t1[|t1| - (n + 1)..];
    assert t1[..|t1| - (n + 1) - 1] == s;
    assert t1[|t1| - (n + 1) - 1] == Ins(ins);
    assert names == t[|t| - n..] + [Name(name)];
    NamesSnoc(cfg, t[|t| - n..], name);
    if n + 1 == ins.args {
      assert t1 == s + [Ins(ins)] + names;
      StmtsSnoc(cfg, s, ins, names);
    }
  }

  /** A delimiter while collecting names completes one name without passing
      the arity, and keeps the invariant. */
  lemma DelimiterKeepsShape(cfg: Config, m: Machine)
    requires Shape(cfg, m) && m.state == Raw
    ensures Collect(cfg, m, Delimiter(cfg.asciiSymbols)) != Failure(InvalidArgumentCount)
    ensures Collect(cfg, m, Delimiter(cfg.asciiSymbols)).Success? ==>
              Shape(cfg, Collect(cfg, m, Delimiter(cfg.asciiSymbols)).value)
  {
    var sp := m.stackPtr;
    var t := Reach(m.ast, sp);
    var ins, n := m.instruction, m.nameCount;
    var ast := AppendAt(m.ast, sp, Name(m.nameStack));
    OnPathAppend(cfg, m.ast, sp, Name(m.nameStack));
    assert Reach(ast, sp) == t + [Name(m.nameStack)];
    PendingNext(cfg, t, ins, n, m.nameStack);
    var m1 := m.(ast := ast, nameCount := n + 1, nameStack := []);
    assert Collect(cfg, m, Delimiter(cfg.asciiSymbols)) ==
           if ins.args > n + 1 then Success(m1) else Success(m1.(state := Idle));
  }

  /** Reading a character while collecting names keeps the invariant, and a
      delimiter never finds the arity already reached. */
  lemma CollectKeepsShape(cfg: Config, m: Machine, c: char)
    requires Shape(cfg, m) && m.state == Raw
    ensures Collect(cfg, m, c) != Failure(InvalidArgumentCount)
    ensures Collect(cfg, m, c).Success? ==> Shape(cfg, Collect(cfg, m, c).value)
  {
    if c == Delimiter(cfg.asciiSymbols) {
      DelimiterKeepsShape(cfg, m);
    }
  }

  /** One step keeps the invariant and never reports a wrong argument count. */
  lemma StepKeepsShape(cfg: Config, m: Machine, c: char, i: nat)
    requires Shape(cfg, m)
    ensures Step(cfg, m, c, i) != Failure(InvalidArgumentCount)
    ensures Step(cfg, m, c, i).Success? ==> Shape(cfg, Step(cfg, m, c, i).value)
  {
    match m.state {
      case Idle =>
        match IndexOf(Symbols(cfg.asciiSymbols), c) {
          case None =>
          case Some(k) => ExecuteKeepsShape(cfg, m, Table[k]);
        }
      case Raw => CollectKeepsShape(cfg, m, c);
      case Blank =>
    }
  }

  /** Every state the parser reaches satisfies the invariant, and
      InvalidArgumentCount is never raised. */
  lemma {:induction false} RunKeepsShape(cfg: Config, s: seq<char>)
    ensures Run(cfg, s) != Failure(InvalidArgumentCount)
    ensures Run(cfg, s).Success? ==> Shape(cfg, Run(cfg, s).value)
    decreases |s|
  {
    if s != [] {
      var p := s[..|s| - 1];
      RunKeepsShape(cfg, p);
      if Run(cfg, p).Success? {
        StepKeepsShape(cfg, Run(cfg, p).value, s[|s| - 1], |s| - 1);
      }
    }
  }

  /** At every point of a run the name count is at most the arity of the
      last instruction read, and strictly below it while names are being
      collected, which happens only for an instruction that takes names. */
  lemma NameCountBound(cfg: Config, s: seq<char>)
    ensures Run(cfg, s).Success? ==>
              var m := Run(cfg, s).value;
              m.instruction in Table && m.nameCount <= m.instruction.args &&
              (m.state == Raw ==> 1 <= m.instruction.args && m.nameCount < m.instruction.args)
  {
    RunKeepsShape(cfg, s);
  }

  /** A successful parse yields a complete program: every instruction is
      followed in its own branch by exactly as many names as it takes, every
      branch ends with `nil` or with a split and its two complete branches. */
  lemma ParsedIsProgram(cfg: Config, s: seq<char>)
    ensures ParseSpec(cfg, s).Success? ==> Program(cfg, ParseSpec(cfg, s).value)
    ensures ParseSpec(cfg, s) != Failure(InvalidArgumentCount)
  {
    RunKeepsShape(cfg, s);
  }

  /** What may stand at position k of a list, judged from its neighbours: a
      simple instruction is followed by exactly as many names as it takes
      and then by another instruction; `nil` is the last item; `split` is
      followed by exactly two branches, which end the list; a name is made
      of name characters; a branch is one of the two after a split. */
  predicate Fits(cfg: Config, items: seq<Item>, k: nat)
    requires k < |items|
  {
    var n := |items|;
    match items[k]
    case Ins(ins) =>
      ins in Table &&
      (ins == Nil ==> k == n - 1) &&
      (ins == Split ==> k == n - 3 && items[k + 1].Branch? && items[k + 2].Branch?) &&
      (Simple(ins) ==>
         k + 1 + ins.args < n && Names(cfg, items[k + 1..k + 1 + ins.args]) && items[k + 1 + ins.args].Ins?)
    case Name(text) => GoodName(cfg, text)
    case Branch(_) => n >= 3 && k >= n - 2 && items[n - 3] == Ins(Split)
  }

  /** Every list, at every depth, starts with an instruction and has every
      item where it fits. */
  predicate WellFormed(cfg: Config, items: seq<Item>)
    decreases items
  {
    |items| >= 1 && items[0].Ins? &&
    (forall k :: 0 <= k < |items| ==> Fits(cfg, items, k)) &&
    (forall k :: 0 <= k < |items| && items[k].Branch? ==> WellFormed(cfg, items[k].children))
  }

  /** Statements between positions o and u, followed by an instruction:
      every position among them fits, and none holds a branch. */
  lemma {:induction false} StmtsFit(cfg: Config, items: seq<Item>, o: nat, u: nat)
    requires o <= u < |items| && items[u].Ins? && Stmts(cfg, items[o..u])
    ensures forall k {:trigger Fits(cfg, items, k)} :: o <= k < u ==> Fits(cfg, items, k)
    ensures forall k :: o <= k < u ==> !items[k].Branch?
    decreases u - o
  {
    if o < u {
      var s := items[o..u];
      var a := s[0].ins.args;
      var o' := o + 1 + a;
      assert s[0] == items[o] && |s| > a;
      assert s[1..1 + a] == items[o + 1..o'] by {
        var l, r := s[1..1 + a], items[o + 1..o'];
        forall j | 0 <= j < a ensures l[j] == r[j] {
          assert s[1 + j] == items[o + 1 + j];
        }
      }
      assert s[1 + a..] == items[o'..u];
      StmtsFit(cfg, items, o', u);
      assert items[o'].Ins? by {
        if o' < u {
          assert items[o'] == items[o'..u][0];
        }
      }
      assert Fits(cfg, items, o);
      forall k | o < k < o'
        ensures Fits(cfg, items, k) && !items[k].Branch?
      {
        assert items[k] == items[o + 1..o'][k - o - 1];
      }
    }
  }

  /** Statements ended by `nil` fit position by position. */
  lemma NilFits(cfg: Config, items: seq<Item>)
    requires |items| >= 1 && items[|items| - 1] == Ins(Nil) && Stmts(cfg, items[..|items| - 1])
    ensures items[0].Ins? && forall k :: 0 <= k < |items| ==> Fits(cfg, items, k) && !items[k].Branch?
  {
    var n := |items|;
    assert items[..n - 1] == items[0..n - 1];
    StmtsFit(cfg, items, 0, n - 1);
    assert Fits(cfg, items, n - 1);
  }

  /** Statements ended by `split` and two branches fit position by position,
      and only the last two items are branches. */
  lemma SplitFits(cfg: Config, items: seq<Item>)
    requires |items| >= 3 && items[|items| - 3] == Ins(Split) && Stmts(cfg, items[..|items| - 3])
    requires items[|items| - 2].Branch? && items[|items| - 1].Branch?
    ensures items[0].Ins? && forall k :: 0 <= k < |items| ==> Fits(cfg, items, k)
    ensures forall k :: 0 <= k < |items| - 2 ==> !items[k].Branch?
  {
    var n := |items|;
    assert items[..n - 3] == items[0..n - 3];
    StmtsFit(cfg, items, 0, n - 3);
    forall k | n - 3 <= k < n
      ensures Fits(cfg, items, k)
    {
    }
  }

  /** Statements, a split and two well-formed branches are well formed. */
  lemma SplitWellFormed(cfg: Config, items: seq<Item>)
    requires |items| >= 3 && items[|items| - 3] == Ins(Split) && Stmts(cfg, items[..|items| - 3])
    requires items[|items| - 2].Branch? && items[|items| - 1].Branch?
    requires WellFormed(cfg, items[|items| - 2].children) && WellFormed(cfg, items[|items| - 1].children)
    ensures WellFormed(cfg, items)
  {
    var n := |items|;
    SplitFits(cfg, items);
    assert forall k :: 0 <= k < n && items[k].Branch? ==> k == n - 2 || k == n - 1;
  }

  /** A complete program is well formed. */
  lemma {:induction false} ProgramWellFormed(cfg: Config, items: seq<Item>)
    requires Program(cfg, items)
    ensures WellFormed(cfg, items)
    decreases items
  {
    var n := |items|;
    if n >= 1 && items[n - 1] == Ins(Nil) && Stmts(cfg, items[..n - 1]) {
      NilFits(cfg, items);
    } else {
      ProgramWellFormed(cfg, items[n - 2].children);
      ProgramWellFormed(cfg, items[n - 1].children);
      SplitWellFormed(cfg, items);
    }
  }

  /** The AST of a successful parse is well formed at every depth. */
  lemma ParsedWellFormed(cfg: Config, s: seq<char>)
    ensures ParseSpec(cfg, s).Success? ==> WellFormed(cfg, ParseSpec(cfg, s).value)
  {
    ParsedIsProgram(cfg, s);
    if ParseSpec(cfg, s).Success? {
      ProgramWellFormed(cfg, ParseSpec(cfg, s).value);
    }
  }

  /** No name character is a line break: it is whitespace, and no symbol. */
  lemma NameCharNotNewline(cfg: Config, s: seq<char>)
    requires GoodName(cfg, s)
    ensures '\n' !in s
  {
  }

  /** In a well-formed AST no glyph and no name holds a line break. */
  lemma {:induction false} WellFormedNoLineBreaks(cfg: Config, items: seq<Item>)
    requires WellFormed(cfg, items)
    ensures NoLineBreaks(items)
    decreases items
  {
    forall k | 0 <= k < |items|
      ensures ItemNoLineBreaks(items[k])
    {
      assert Fits(cfg, items, k);
      match items[k]
      case Ins(i) =>
      case Name(s) => NameCharNotNewline(cfg, s);
      case Branch(children) => WellFormedNoLineBreaks(cfg, children);
    }
  }

  /** The text of a parsed AST puts every branch on a line of its own: it
      holds exactly one line break per nested list. */
  lemma ParsedRendering(cfg: Config, s: seq<char>)
    ensures ParseSpec(cfg, s).Success? ==>
              Newlines(Render(ParseSpec(cfg, s).value, 0)) == Branches(ParseSpec(cfg, s).value)
  {
    ParsedWellFormed(cfg, s);
    if ParseSpec(cfg, s).Success? {
      WellFormedNoLineBreaks(cfg, ParseSpec(cfg, s).value);
    }
  }
}
