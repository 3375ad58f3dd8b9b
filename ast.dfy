/**
 The Padlock AST: a root list whose elements are instructions, name literals
 and nested lists (the branches of a split). Positions are addressed as Python
 addresses list elements: a negative index -k means the k-th element from the
 end.
 */
module Ast {
  import opened Instructions

  datatype Item = Ins(ins: Instruction) | Name(text: string) | Branch(children: seq<Item>)

  /** `i` is a valid Python index into a list of length n. */
  predicate InRange(n: nat, i: int)
  {
    -(n as int) <= i < n
  }

  /** The element position Python's `x[i]` denotes in a list of length n. */
  function Abs(n: nat, i: int): (k: nat)
    requires InRange(n, i)
    ensures k < n && (i >= 0 ==> k == i) && (i < 0 ==> k == n + i)
  {
    if i < 0 then n + i else i
  }

  /** `x = x[i]` can be done for each i of `path`, starting at `items`, and
      every step lands on a nested list. */
  predicate Walkable(items: seq<Item>, path: seq<int>)
    decreases |path|
  {
    path == [] ||
    (InRange(|items|, path[0]) && items[Abs(|items|, path[0])].Branch? &&
     Walkable(items[Abs(|items|, path[0])].children, path[1..]))
  }

  /** The list reached by following `path` from `items`. */
  function Reach(items: seq<Item>, path: seq<int>): seq<Item>
    requires Walkable(items, path)
    decreases |path|
  {
    if path == [] then items
    else Reach(items[Abs(|items|, path[0])].children, path[1..])
  }

  /** `items` after appending `v` to the list reached by `path`: the lists on
      the way are rebuilt around the one that grows. */
  function AppendAt(items: seq<Item>, path: seq<int>, v: Item): (r: seq<Item>)
    requires Walkable(items, path)
    ensures |r| == if path == [] then |items| + 1 else |items|
    ensures Walkable(r, path) && Reach(r, path) == Reach(items, path) + [v]
    decreases |path|
  {
    if path == [] then items + [v]
    else
      var k := Abs(|items|, path[0]);
      items[k := Branch(AppendAt(items[k].children, path[1..], v))]
  }

  /** Following `p` and then `d` is following `p + [d]`. */
  lemma {:induction false} ReachSnoc(items: seq<Item>, p: seq<int>, d: int)
    requires Walkable(items, p)
    ensures Walkable(items, p + [d]) <==>
              InRange(|Reach(items, p)|, d) && Reach(items, p)[Abs(|Reach(items, p)|, d)].Branch?
    ensures Walkable(items, p + [d]) ==>
              Reach(items, p + [d]) == Reach(items, p)[Abs(|Reach(items, p)|, d)].children
    decreases |p|
  {
    if p == [] {
      assert [] + [d] == [d];
    } else {
      var k := Abs(|items|, p[0]);
      assert (p + [d])[0] == p[0] && (p + [d])[1..] == p[1..] + [d];
      ReachSnoc(items[k].children, p[1..], d);
    }
  }

  /** The absolute (non-negative) address `path` denotes in `items`. */
  function Address(items: seq<Item>, path: seq<int>): (a: seq<nat>)
    requires Walkable(items, path)
    ensures |a| == |path| && Walkable(items, a) && Reach(items, a) == Reach(items, path)
    decreases |path|
  {
    if path == [] then []
    else
      var k := Abs(|items|, path[0]);
      [k] + Address(items[k].children, path[1..])
  }

  /** Appending leaves every list that is neither the target nor one of its
      ancestors as it was: any absolute address that is not a prefix of the
      target's address reaches the same list before and after. */
  lemma {:induction false} AppendAtFrame(items: seq<Item>, path: seq<int>, v: Item, q: seq<nat>)
    requires Walkable(items, path) && Walkable(items, q)
    requires !(q <= Address(items, path))
    ensures Walkable(AppendAt(items, path, v), q)
    ensures Reach(AppendAt(items, path, v), q) == Reach(items, q)
    decreases |q|
  {
    var r := AppendAt(items, path, v);
    assert q != [];
    if path == [] || q[0] != Abs(|items|, path[0]) {
      assert r[q[0]] == items[q[0]];
    } else {
      var k := Abs(|items|, path[0]);
      var a := Address(items, path);
      assert a == [k] + Address(items[k].children, path[1..]);
      assert q[1..] <= a[1..] ==> q <= a;
      AppendAtFrame(items[k].children, path[1..], v, q[1..]);
    }
  }

  /** Appending does not change the length of any list on the way to the
      target, nor any element of it other than the one the path goes through. */
  lemma {:induction false} AppendAtAncestors(items: seq<Item>, path: seq<int>, v: Item, j: nat)
    requires Walkable(items, path) && j < |path|
    ensures Walkable(AppendAt(items, path, v), path[..j]) && Walkable(items, path[..j])
    ensures InRange(|Reach(items, path[..j])|, path[j])
    ensures var before := Reach(items, path[..j]);
            var after := Reach(AppendAt(items, path, v), path[..j]);
            |after| == |before| &&
            forall t :: 0 <= t < |before| && t != Abs(|before|, path[j]) ==> after[t] == before[t]
    decreases j
  {
    var k := Abs(|items|, path[0]);
    if j > 0 {
      assert path[..j][0] == path[0] && path[..j][1..] == path[1..][..j - 1];
      AppendAtAncestors(items[k].children, path[1..], v, j - 1);
    }
  }

  /** The AST object: the root list, grown in place by `Push`. */
  class AST {
    var instructions: seq<Item>

    constructor ()
      ensures instructions == []
    {
      instructions := [];
    }

    /** Walks `indices` from the root and appends `value` to the list reached;
        an empty path appends to the root. */
    method Push(value: Item, indices: seq<int>)
      requires Walkable(instructions, indices)
      modifies this
      ensures instructions == AppendAt(old(instructions), indices, value)
      ensures Walkable(instructions, indices)
      ensures Reach(instructions, indices) == old(Reach(instructions, indices)) + [value]
      ensures indices == [] ==> instructions == old(instructions) + [value]
    {
      instructions := AppendAt(instructions, indices, value);
    }

    /** The textual form of the AST: each nested list on a line of its
        own. */
    function ToString(): (s: string)
      reads this
      ensures NoLineBreaks(instructions) ==> Newlines(s) == Branches(instructions)
    {
      Render(instructions, 0)
    }
  }

  /** Two spaces per level of indentation. */
  function Indent(level: nat): (s: string)
    ensures |s| == 2 * level && forall k :: 0 <= k < |s| ==> s[k] == ' '
  {
    if level == 0 then "" else "  " + Indent(level - 1)
  }

  /** The rendering of a list at nesting depth `depth`, item by item. When
      no glyph and no name holds a line break, it has one line break per
      nested list: each branch starts a line of its own. */
  function Render(line: seq<Item>, depth: nat): (r: string)
    ensures NoLineBreaks(line) ==> Newlines(r) == Branches(line)
    decreases line, 1
  {
    if line == [] then ""
    else
      NewlinesConcat(RenderItem(line[0], depth), Render(line[1..], depth));
      RenderItem(line[0], depth) + Render(line[1..], depth)
  }

  /** One item: an instruction as its glyph and a space, a name quoted with a
      trailing space, a nested list on a new line indented one level deeper.
      Only the nested list adds line breaks of its own: one, ahead of those
      of its contents. */
  function RenderItem(item: Item, depth: nat): (r: string)
    ensures ItemNoLineBreaks(item) ==> Newlines(r) == ItemBranches(item)
    decreases item, 0
  {
    match item
    case Ins(i) =>
      assert [i.symbol, ' '][1..] == [' '] && [' '][1..] == [];
      [i.symbol, ' ']
    case Name(s) =>
      NewlinesConcat("'" + s, "' ");
      NewlinesConcat("'", s);
      NoNewlines(s);
      assert "' "[1..] == " " && " "[1..] == "";
      "'" + s + "' "
    case Branch(children) =>
      NewlinesConcat("\n" + Indent(depth + 1), Render(children, depth + 1));
      NewlinesConcat("\n", Indent(depth + 1));
      NoNewlines(Indent(depth + 1));
      "\n" + Indent(depth + 1) + Render(children, depth + 1)
  }

  /** Pushing an item onto a list appends its rendering: the text follows
      the order in which the items were pushed. */
  lemma {:induction false} RenderSnoc(line: seq<Item>, v: Item, depth: nat)
    ensures Render(line + [v], depth) == Render(line, depth) + RenderItem(v, depth)
    decreases |line|
  {
    if line == [] {
      assert [] + [v] == [v] && [v][1..] == [];
    } else {
      assert (line + [v])[0] == line[0] && (line + [v])[1..] == line[1..] + [v];
      RenderSnoc(line[1..], v, depth);
    }
  }

  /** The number of line breaks in a text. */
  function Newlines(s: string): nat
  {
    if s == [] then 0 else (if s[0] == '\n' then 1 else 0) + Newlines(s[1..])
  }

  lemma {:induction false} NewlinesConcat(a: string, b: string)
    ensures Newlines(a + b) == Newlines(a) + Newlines(b)
    decreases |a|
  {
    if a != [] {
      assert (a + b)[0] == a[0] && (a + b)[1..] == a[1..] + b;
      NewlinesConcat(a[1..], b);
    } else {
      assert a + b == b;
    }
  }

  /** The number of nested lists, at every depth. */
  function Branches(line: seq<Item>): nat
    decreases line, 1
  {
    if line == [] then 0 else ItemBranches(line[0]) + Branches(line[1..])
  }

  function ItemBranches(item: Item): nat
    decreases item, 0
  {
    match item
    case Branch(children) => 1 + Branches(children)
    case _ => 0
  }

  /** No glyph and no name, at any depth, holds a line break. */
  predicate NoLineBreaks(line: seq<Item>)
    decreases line, 1
  {
    forall k :: 0 <= k < |line| ==> ItemNoLineBreaks(line[k])
  }

  predicate ItemNoLineBreaks(item: Item)
    decreases item, 0
  {
    match item
    case Ins(i) => i.symbol != '\n'
    case Name(s) => '\n' !in s
    case Branch(children) => NoLineBreaks(children)
  }

  lemma {:induction false} NoNewlines(s: string)
    ensures '\n' !in s ==> Newlines(s) == 0
    decreases |s|
  {
    if s != [] {
      assert s[0] in s;
      assert forall c :: c in s[1..] ==> c in s;
      NoNewlines(s[1..]);
    }
  }
}
