/**
 The cursor path (`stack_ptr`): one directive per level of descent from the
 root to the list that receives new elements. A directive is -2 (the first
 branch of the split at the end of the list) or -1 (its second branch).
 */
module Cursor {
  import opened Ast

  /** -2 selects the first branch of a split, -1 the second. */
  predicate IsDirective(d: int)
  {
    d == -2 || d == -1
  }

  /** `items` ends with two nested lists: the branches of a split. */
  predicate ForkEnd(items: seq<Item>)
  {
    |items| >= 2 && items[|items| - 2].Branch? && items[|items| - 1].Branch?
  }

  /** The cursor path is usable on `items`: every entry is a directive and
      at every level the list it indexes ends with two branches. Such a path
      can be walked. */
  predicate PathOk(items: seq<Item>, sp: seq<int>)
    ensures PathOk(items, sp) ==> Walkable(items, sp)
    ensures PathOk(items, sp) ==> forall k :: 0 <= k < |sp| ==> IsDirective(sp[k])
    decreases |sp|
  {
    sp == [] ||
    (IsDirective(sp[0]) && ForkEnd(items) &&
     PathOk(items[|items| + sp[0]].children, sp[1..]))
  }

  /** Extending a usable path by one directive keeps it usable exactly when
      the list it reaches ends with two branches. */
  lemma {:induction false} PathOkSnoc(items: seq<Item>, p: seq<int>, d: int)
    requires PathOk(items, p)
    ensures PathOk(items, p + [d]) <==> IsDirective(d) && ForkEnd(Reach(items, p))
    decreases |p|
  {
    if p == [] {
      assert [] + [d] == [d];
    } else {
      assert (p + [d])[0] == p[0] && (p + [d])[1..] == p[1..] + [d];
      PathOkSnoc(items[|items| + p[0]].children, p[1..], d);
    }
  }

  /** Every prefix of a usable path is usable. */
  lemma {:induction false} PathOkPrefix(items: seq<Item>, sp: seq<int>, q: seq<int>)
    requires PathOk(items, sp) && q <= sp
    ensures PathOk(items, q)
    decreases |q|
  {
    if q != [] {
      assert q[1..] <= sp[1..];
      PathOkPrefix(items[|items| + sp[0]].children, sp[1..], q[1..]);
    }
  }

  /** Appending at the cursor keeps the cursor usable: the lists above the
      target keep their length and their two trailing branches. */
  lemma {:induction false} PathOkAppend(items: seq<Item>, sp: seq<int>, v: Item)
    requires PathOk(items, sp)
    ensures PathOk(AppendAt(items, sp, v), sp)
    decreases |sp|
  {
    if sp != [] {
      var k := |items| + sp[0];
      PathOkAppend(items[k].children, sp[1..], v);
    }
  }

  /** The cursor after popping every trailing second-branch directive: a
      prefix of the path, everything removed was -1, and what remains (if
      anything) ends with a first-branch directive of a usable path. */
  function PopSeconds(sp: seq<int>): (p: seq<int>)
    ensures p <= sp
    ensures forall k :: |p| <= k < |sp| ==> sp[k] == -1
    ensures p == [] || p[|p| - 1] != -1
  {
    if sp != [] && sp[|sp| - 1] == -1 then PopSeconds(sp[..|sp| - 1]) else sp
  }

  /** The cursor after finishing a branch when some split is still open: the
      innermost open split's first-branch directive becomes second-branch. */
  function NextBranch(sp: seq<int>): (n: seq<int>)
    requires PopSeconds(sp) != []
    ensures 1 <= |n| <= |sp| && n[..|n| - 1] == sp[..|n| - 1]
    ensures sp[|n| - 1] != -1 && n[|n| - 1] == -1
    ensures forall k :: |n| <= k < |sp| ==> sp[k] == -1
  {
    var p := PopSeconds(sp);
    p[..|p| - 1] + [-1]
  }

  /** Finishing a branch keeps a usable cursor usable. */
  lemma NextBranchOk(items: seq<Item>, sp: seq<int>)
    requires PathOk(items, sp) && PopSeconds(sp) != []
    ensures PathOk(items, NextBranch(sp))
  {
    var p := PopSeconds(sp);
    var q := p[..|p| - 1];
    PathOkPrefix(items, sp, p);
    assert p == q + [p[|p| - 1]];
    PathOkPrefix(items, p, q);
    PathOkSnoc(items, q, p[|p| - 1]);
    PathOkSnoc(items, q, -1);
  }

  /** Popping looked at from the root: the first directive stays unless
      everything after it is popped too. */
  lemma {:induction false} PopSecondsCons(d: int, rest: seq<int>)
    ensures PopSeconds([d] + rest) ==
              if PopSeconds(rest) != [] then [d] + PopSeconds(rest)
              else if d == -1 then [] else [d]
    decreases |rest|
  {
    var sp := [d] + rest;
    if rest != [] {
      assert sp[..|sp| - 1] == [d] + rest[..|rest| - 1];
      if rest[|rest| - 1] == -1 {
        PopSecondsCons(d, rest[..|rest| - 1]);
      }
    } else {
      assert [d][..0] == [];
    }
  }

  /** Seen from the root, finishing a branch below the first directive
      leaves that directive in place. */
  lemma NextBranchCons(d: int, rest: seq<int>)
    requires PopSeconds(rest) != []
    ensures PopSeconds([d] + rest) != [] && NextBranch([d] + rest) == [d] + NextBranch(rest)
  {
    PopSecondsCons(d, rest);
    var p := PopSeconds(rest);
    assert ([d] + p)[..|p|] == [d] + p[..|p| - 1];
  }

  /** On a path of directives, finishing a branch turns the last
      first-branch directive into a second-branch one and drops everything
      after it, all of which were second-branch directives. */
  lemma NextBranchFlips(sp: seq<int>)
    requires forall k :: 0 <= k < |sp| ==> IsDirective(sp[k])
    requires PopSeconds(sp) != []
    ensures var j := |PopSeconds(sp)| - 1;
            sp[j] == -2 && (forall k :: j < k < |sp| ==> sp[k] == -1) &&
            NextBranch(sp) == sp[..j] + [-1]
  {
    var p := PopSeconds(sp);
    assert p[|p| - 1] == sp[|p| - 1];
    assert p[..|p| - 1] == sp[..|p| - 1];
  }
}
