/** Where compiled code disagrees with itself: a case that is assigned to and can fail arrives
    at its target with one place on the stack, its branches with two. */
module StackClashes {
  import opened Wrappers
  import opened Syntax
  import opened Reference
  import opened Direct
  import opened StackMachine
  import opened Compiler
  import opened Unfolding
  import opened StackDepths
  import Labels
  import Continuations

  /** At `code[m]` control jumps to a label that has been jumped to from another depth. */
  ghost predicate ClashAt(t: Depths, code: Prg, m: nat)
    requires m < |code|
  {
    && DRun(t, code[..m]).Some?
    && var u := DRun(t, code[..m]).value;
       !u.barrier && code[m].JMP? && code[m].l in u.jumped && u.jumped[code[m].l] != u.depth
  }

  ghost predicate Clash(t: Depths, code: Prg) {
    exists m :: 0 <= m < |code| && ClashAt(t, code, m)
  }

  lemma ClashFirst(t: Depths, a: Prg, b: Prg)
    requires Clash(t, a)
    ensures Clash(t, a + b)
  {
    hide DRun;
    var m :| 0 <= m < |a| && ClashAt(t, a, m);
    assert (a + b)[..m] == a[..m] && (a + b)[m] == a[m];
    assert ClashAt(t, a + b, m);
  }

  lemma ClashLater(t: Depths, a: Prg, t1: Depths, b: Prg)
    requires DRun(t, a) == Some(t1) && Clash(t1, b)
    ensures Clash(t, a + b)
  {
    hide DRun;
    var m :| 0 <= m < |b| && ClashAt(t1, b, m);
    DRunConcat(t, a, b[..m]);
    assert (a + b)[..|a| + m] == a + b[..m] && (a + b)[|a| + m] == b[m];
    assert ClashAt(t, a + b, |a| + m);
  }

  /** Code that runs, then code that clashes, then anything. */
  lemma ClashInside(t: Depths, a: Prg, t1: Depths, b: Prg, c: Prg)
    requires DRun(t, a) == Some(t1) && Clash(t1, b)
    ensures Clash(t, a + b + c)
  {
    hide DRun, Clash;
    ClashLater(t, a, t1, b);
    ClashFirst(t, a + b, c);
  }

  // Parts

  /** Operands of which one clashes. */
  lemma {:induction false} ListClashes(st: Names, li: nat, l: nat, n: nat, es: seq<Expr>, ks: seq<nat>, t: Depths)
    requires |ks| == |es| && forall i :: 0 <= i < |es| ==> Leaves(es[i], ks[i])
    requires exists i :: 0 <= i < |es| && !Firm(es[i], ks[i])
    requires Ready(t, l, t.depth + Sum(ks), n, CompileList(st, li, l, n, es).next)
    ensures Clash(t, CompileList(st, li, l, n, es).insns)
    decreases SizeList(es), 4
  {
    hide DRun, DStep, Compile, Leaves, Firm, Size, Ready, Leads, Clash;
    if |es| == 1 {
      assert es == [es[0]] && ks[1..] == [] && Sum(ks) == ks[0];
      CodeClashes(st, li, l, n, es[0], ks[0], t);
    } else {
      var c1 := Compile(st, li, n, n + 1, es[0]);
      var c2 := CompileList(st, li, l, c1.next, es[1..]);
      Ranged(st, li, n, n + 1, es[0]);
      ListRanged(st, li, l, c1.next, es[1..]);
      var d := t.depth + Sum(ks);
      JoinReady(t, l, d, n, c1.next, c2.next, t.depth + ks[0]);
      if Firm(es[0], ks[0]) {
        var t1 := CodeLeads(st, li, n, n + 1, es[0], ks[0], t);
        var t2 := Landed(t, c1.insns, c1.flag, n, t.depth + ks[0], n + 1, c1.next, t1);
        RestReady(t, t2, l, d, n, c1.next, c2.next);
        RestInfirm(es, ks);
        ListClashes(st, li, l, c1.next, es[1..], ks[1..], t2);
        ClashLater(t, c1.insns + Landing(c1.flag, n), t2, c2.insns);
      } else {
        CodeClashes(st, li, n, n + 1, es[0], ks[0], t);
        ClashFirst(t, c1.insns, Landing(c1.flag, n) + c2.insns);
        assert c1.insns + (Landing(c1.flag, n) + c2.insns) == c1.insns + Landing(c1.flag, n) + c2.insns;
      }
    }
  }

  lemma RestInfirm(es: seq<Expr>, ks: seq<nat>)
    requires |ks| == |es| > 0 && Firm(es[0], ks[0]) && exists i :: 0 <= i < |es| && !Firm(es[i], ks[i])
    ensures exists i :: 0 <= i < |es[1..]| && !Firm(es[1..][i], ks[1..][i])
  {
    hide Firm;
    var i :| 0 <= i < |es| && !Firm(es[i], ks[i]);
    assert !Firm(es[1..][i - 1], ks[1..][i - 1]);
  }

  lemma {:induction false} OperandsClash(st: Names, li: nat, l: nat, n: nat, es: seq<Expr>, ks: seq<nat>, i: Insn,
      d: nat, t: Depths)
    requires |ks| == |es| && (forall j :: 0 <= j < |es| ==> Leaves(es[j], ks[j])) &&
      exists j :: 0 <= j < |es| && !Firm(es[j], ks[j])
    requires Ready(t, l, d, n, CompileOperands(st, li, n, es, i).next)
    ensures Clash(t, CompileOperands(st, li, n, es, i).insns)
    decreases SizeList(es), 5
  {
    hide DRun, DStep, CompileList, Leaves, Firm, Ready, Clash;
    var c := CompileList(st, li, n, n + 1, es);
    ListRanged(st, li, n, n + 1, es);
    JoinReady(t, l, d, n, c.next, c.next, t.depth + Sum(ks));
    ListClashes(st, li, n, n + 1, es, ks, t);
    ClashFirst(t, c.insns, Landing(c.flag, n) + [i]);
    assert c.insns + (Landing(c.flag, n) + [i]) == c.insns + Landing(c.flag, n) + [i];
  }

  // Conditionals

  lemma {:induction false} IfClashes(st: Names, li: nat, l: nat, n: nat, x: Expr, y: Expr, z: Expr, k: nat, t: Depths)
    requires Leaves(x, 1) && Leaves(y, k) && Leaves(z, k) && !(Firm(x, 1) && Firm(y, k) && Firm(z, k))
    requires Ready(t, l, t.depth + k, n, Compile(st, li, l, n, If(x, y, z)).next)
    ensures Clash(t, Compile(st, li, l, n, If(x, y, z)).insns)
    decreases Size(If(x, y, z)), 1
  {
    hide Compile, Leads, Ready, Leaves, Firm, Size, Clash, DRun, Landing, Parting;
    var c, c1, c2 := IfCode(st, li, l, n, x, y, z);
    Ranged(st, li, n, n + 2, x);
    Ranged(st, li, l, c.next, y);
    Ranged(st, li, l, c1.next, z);
    var d := t.depth;
    SubReady(t, l, d + k, n, n, c2.next, n + 2, c.next, d + 1);
    InsideNot(t, l, d + k, n, c2.next, n + 1);
    if !Firm(x, 1) {
      CodeClashes(st, li, n, n + 2, x, 1, t);
      IfRest(t, c, c1, c2, n, l);
    } else {
      IfBranchClashes(st, li, l, n, x, y, z, k, t, c, c1, c2);
    }
  }

  lemma IfRest(t: Depths, c: Code, c1: Code, c2: Code, n: nat, l: nat)
    requires Clash(t, c.insns)
    ensures Clash(t, IfInsns(c, c1, c2, n, l))
  {
    hide Clash, Landing, Parting;
    var rest := Landing(c.flag, n) + [CJMP(false, n + 1)] + c1.insns + Parting(c1.flag, l) + [LABEL(n + 1)] + c2.insns
      + Parting(c2.flag, l);
    ClashFirst(t, c.insns, rest);
    assert c.insns + rest == IfInsns(c, c1, c2, n, l);
  }

  lemma {:induction false} IfBranchClashes(st: Names, li: nat, l: nat, n: nat, x: Expr, y: Expr, z: Expr, k: nat,
      t: Depths, c: Code, c1: Code, c2: Code)
    requires Yields(x, 1) && Leaves(y, k) && Leaves(z, k) && !(Firm(y, k) && Firm(z, k)) &&
      Ready(t, l, t.depth + k, n, c2.next)
    requires c == Compile(st, li, n, n + 2, x) && c1 == Compile(st, li, l, c.next, y) &&
      c2 == Compile(st, li, l, c1.next, z)
    ensures Clash(t, IfInsns(c, c1, c2, n, l))
    decreases Size(x) + Size(y) + Size(z), 4
  {
    hide DRun, Compile, Leads, Ready, Leaves, Firm, Size, Landing, Parting, Kept, Clash;
    Ranged(st, li, n, n + 2, x);
    Ranged(st, li, l, c.next, y);
    Ranged(st, li, l, c1.next, z);
    var d := t.depth;
    SubReady(t, l, d + k, n, n, c2.next, n + 2, c.next, d + 1);
    var t1 := CodeLeads(st, li, n, n + 2, x, 1, t);
    var s3, t3 := IfCondition(t, c, t1, l, d + k, n, c2.next);
    InsideNot(t, l, d + k, n, c2.next, n + 1);
    SubReadySame(t3, l, d + k, c.next, c1.next, c2.next);
    if !Firm(y, k) {
      CodeClashes(st, li, l, c.next, y, k, t3);
      var rest := Parting(c1.flag, l) + [LABEL(n + 1)] + c2.insns + Parting(c2.flag, l);
      ClashInside(t, s3, t3, c1.insns, rest);
      assert s3 + c1.insns + rest == IfInsns(c, c1, c2, n, l);
    } else {
      var t4 := CodeLeads(st, li, l, c.next, y, k, t3);
      var s6, t6 := IfThen(t, s3, t3, c1, t4, l, d + k, n, c.next, c2.next, d);
      CodeClashes(st, li, l, c1.next, z, k, t6);
      ClashInside(t, s6, t6, c2.insns, Parting(c2.flag, l));
    }
  }

  // Loops

  lemma {:induction false} WhileClashes(st: Names, li: nat, l: nat, n: nat, x: Expr, y: Expr, t: Depths)
    requires Leaves(x, 1) && Leaves(y, 0) && !(Firm(x, 1) && Firm(y, 0))
    requires Ready(t, l, t.depth, n, Compile(st, li, l, n, While(x, y)).next)
    ensures Clash(t, Compile(st, li, l, n, While(x, y)).insns)
    decreases Size(While(x, y)), 1
  {
    hide Compile, Leads, Ready, Leaves, Firm, Size, InLoop, Kept, DRun, Landing, Clash;
    var c, b := WhileCode(st, li, l, n, x, y);
    Ranged(st, li, n, n + 3, x);
    Ranged(st, li, n + 2, c.next, y);
    var head := [JMP(n + 2), FLABEL(n + 1)];
    var tail := Landing(c.flag, n) + [CJMP(true, n + 1)];
    var t1 := WhileStart(t, l, t.depth, n, c.next, b.next);
    LoopBody(t1, n, c.next, b.next, t.depth);
    LoopDepth(t1, n, c.next, b.next, t.depth);
    if !Firm(y, 0) {
      CodeClashes(st, li, n + 2, c.next, y, 0, t1);
      ClashInside(t, head, t1, b.insns, [LABEL(n + 2)] + c.insns + tail);
      assert head + b.insns + ([LABEL(n + 2)] + c.insns + tail) == Compile(st, li, l, n, While(x, y)).insns;
    } else {
      var t2 := CodeLeads(st, li, n + 2, c.next, y, 0, t1);
      var t3 := LabelAlways(t1, b.insns, b.flag, n + 2, t.depth, c.next, b.next, t2);
      var s := LoopJoin(t, head, t1, b.insns + [LABEL(n + 2)], t3, n, c.next, b.next);
      LoopMiddle(t1, t3, n, c.next, b.next, t.depth);
      CodeClashes(st, li, n, n + 3, x, 1, t3);
      ClashInside(t, s, t3, c.insns, tail);
      assert s + c.insns + tail == Compile(st, li, l, n, While(x, y)).insns;
    }
  }

  lemma {:induction false} DoWhileClashes(st: Names, li: nat, l: nat, n: nat, x: Expr, y: Expr, t: Depths)
    requires Leaves(x, 1) && Leaves(y, 0) && !(Firm(x, 1) && Firm(y, 0))
    requires Ready(t, l, t.depth, n, Compile(st, li, l, n, DoWhile(y, x)).next)
    ensures Clash(t, Compile(st, li, l, n, DoWhile(y, x)).insns)
    decreases Size(DoWhile(y, x)), 1
  {
    hide Compile, Leads, Ready, Leaves, Firm, Size, InLoop, Kept, DRun, Landing, Clash;
    var c, b := DoWhileCode(st, li, l, n, x, y);
    Ranged(st, li, n, n + 3, x);
    Ranged(st, li, n + 2, c.next, y);
    var tail := Landing(c.flag, n) + [CJMP(true, n + 1)];
    var t1 := DoWhileStart(t, l, t.depth, n, c.next, b.next);
    LoopBody(t1, n, c.next, b.next, t.depth);
    LoopDepth(t1, n, c.next, b.next, t.depth);
    if !Firm(y, 0) {
      CodeClashes(st, li, n + 2, c.next, y, 0, t1);
      ClashInside(t, [LABEL(n + 1)], t1, b.insns, Landing(b.flag, n + 2) + c.insns + tail);
      assert [LABEL(n + 1)] + b.insns + (Landing(b.flag, n + 2) + c.insns + tail)
        == Compile(st, li, l, n, DoWhile(y, x)).insns;
    } else {
      var t2 := CodeLeads(st, li, n + 2, c.next, y, 0, t1);
      var t3 := Landed(t1, b.insns, b.flag, n + 2, t.depth, c.next, b.next, t2);
      var s := LoopJoin(t, [LABEL(n + 1)], t1, b.insns + Landing(b.flag, n + 2), t3, n, c.next, b.next);
      LoopMiddle(t1, t3, n, c.next, b.next, t.depth);
      CodeClashes(st, li, n, n + 3, x, 1, t3);
      ClashInside(t, s, t3, c.insns, tail);
      assert s + c.insns + tail == Compile(st, li, l, n, DoWhile(y, x)).insns;
    }
  }

  // Cases

  /** A branch with a body that clashes. */
  lemma {:induction false} BodyClashes(st: Names, li: nat, l: nat, lo: nat, n: nat, br: (Pattern, Expr), last: bool,
      lab: Option<nat>, hi: nat, d: nat, k: nat, t: Depths, tail: Prg)
    requires Leaves(br.1, k) && !Firm(br.1, k) && AtBranch(t, lab, l, lo, n, hi, d, k)
    requires var lfalse := if last then lo else n; var n0 := if last then n else n + 1;
      var n1 := PatternCode(br.0, lfalse, n0).0; var xs := BoundNames(Bindings(br.0, []));
      Compile(Open(st, xs, li), Above(st, xs, li), l, n1 + 2, br.1).next <= hi
    ensures var lfalse := if last then lo else n; var n0 := if last then n else n + 1;
      var (n1, canFail, pcode) := PatternCode(br.0, lfalse, n0); var bs := Bindings(br.0, []); var xs := BoundNames(bs);
      var inner := Open(st, xs, li); var c := Compile(inner, Above(st, xs, li), l, n1 + 2, br.1);
      Clash(t, Entry(n1, lab) + pcode + (BindCode(inner, bs) + [DROP]) + c.insns + tail)
    decreases Size(br.1), 4
  {
    hide DRun, Compile, PatternCode, Bindings, BindCode, BoundNames, Open, Above, Entry, Leaves, Firm, Size, Moves,
      Kept, Clash;
    var lfalse := if last then lo else n;
    var n0 := if last then n else n + 1;
    var (n1, canFail, pcode) := PatternCode(br.0, lfalse, n0);
    var bs := Bindings(br.0, []);
    var inner := Open(st, BoundNames(bs), li);
    var low := Above(st, BoundNames(bs), li);
    PatternRange(br.0, lfalse, n0);
    Ranged(inner, low, l, n1 + 2, br.1);
    BindDropMoves(inner, bs, d);
    var s1, t3 := BranchHeadLeads(t, n1, lab, br.0, lfalse, n0, BindCode(inner, bs) + [DROP], l, lo, n, hi, d, k);
    CodeClashes(inner, low, l, n1 + 2, br.1, k, t3);
    ClashInside(t, s1, t3, Compile(inner, low, l, n1 + 2, br.1).insns, tail);
  }

  lemma {:induction false} BranchesClash(st: Names, li: nat, l: nat, lo: nat, n: nat, brs: seq<(Pattern, Expr)>,
      lab: Option<nat>, d: nat, k: nat, t: Depths)
    requires (forall i :: 0 <= i < |brs| ==> Leaves(brs[i].1, k)) && !FirmBodies(brs, k)
    requires AtBranch(t, lab, l, lo, n, CompileBranches(st, li, l, lo, n, brs, lab).0.next, d, k)
    ensures Clash(t, CompileBranches(st, li, l, lo, n, brs, lab).0.insns)
    decreases SizeBranches(brs), 3
  {
    assert brs != [];
    var firm := Firm(brs[0].1, k);
    assert firm ==> !Irrefutable(brs[0].0) && !FirmBodies(brs[1..], k);
    hide Compile, CompileBranches, PatternCode, Bindings, BindCode, BoundNames, Open, Above, Entry, Leaves, Firm,
      FirmBodies, Irrefutable, Size, SizeBranches, Clash, AtBranch;
    var lfalse, n0, n1, canFail, pcode, c, rest := BranchCode(st, li, l, lo, n, brs, lab);
    CanFail(brs[0].0, lfalse, n0);
    BranchFits(st, li, l, lo, brs, lfalse, n0, n1, pcode, canFail, c, rest);
    if !firm {
      FirstClashes(st, li, l, lo, n, brs, lab, lfalse, n0, n1, canFail, pcode, c, rest, d, k, t);
    } else {
      NoBodies(k);
      YieldsBoth(brs[0].1, k);
      var b := LaterClashes(st, li, l, lo, n, brs, lab, lfalse, n0, n1, pcode, c, rest, d, k, t);
      var bind := BindCode(Open(st, BoundNames(Bindings(brs[0].0, [])), li), Bindings(brs[0].0, [])) + [DROP];
      BranchSplit(Entry(n1, lab), pcode, bind, c.insns, [JMP(l)], [SLABEL(n1 + 1)], rest.0.insns);
    }
  }

  /** The first branch clashes. */
  lemma {:induction false} FirstClashes(st: Names, li: nat, l: nat, lo: nat, n: nat, brs: seq<(Pattern, Expr)>,
      lab: Option<nat>, lfalse: nat, n0: nat, n1: nat, canFail: bool, pcode: Prg, c: Code, rest: (Code, bool), d: nat,
      k: nat, t: Depths)
    requires brs != [] && Leaves(brs[0].1, k) && !Firm(brs[0].1, k) && c.next <= rest.0.next
    requires lfalse == (if |brs| == 1 then lo else n) && n0 == (if |brs| == 1 then n else n + 1)
    requires PatternCode(brs[0].0, lfalse, n0) == (n1, canFail, pcode)
    requires var xs := BoundNames(Bindings(brs[0].0, []));
      c == Compile(Open(st, xs, li), Above(st, xs, li), l, n1 + 2, brs[0].1)
    requires AtBranch(t, lab, l, lo, n, rest.0.next, d, k)
    ensures var bs := Bindings(brs[0].0, []); var inner := Open(st, BoundNames(bs), li);
      Clash(t, Entry(n1, lab) + pcode + (BindCode(inner, bs) + [DROP]) + c.insns
               + (if |brs| == 1 then [] else [JMP(l)]) + [SLABEL(n1 + 1)] + rest.0.insns)
    decreases Size(brs[0].1), 5
  {
    hide Compile, PatternCode, Bindings, BindCode, BoundNames, Open, Above, Entry, Leaves, Firm, Size, Clash, AtBranch;
    var jump := if |brs| == 1 then [] else [JMP(l)];
    var bs := Bindings(brs[0].0, []);
    BodyClashes(st, li, l, lo, n, brs[0], |brs| == 1, lab, rest.0.next, d, k, t,
      jump + [SLABEL(n1 + 1)] + rest.0.insns);
    BranchSplit(Entry(n1, lab), pcode, BindCode(Open(st, BoundNames(bs), li), bs) + [DROP], c.insns, jump,
      [SLABEL(n1 + 1)], rest.0.insns);
  }

  /** The first branch runs, a later one clashes. */
  lemma {:induction false} LaterClashes(st: Names, li: nat, l: nat, lo: nat, n: nat, brs: seq<(Pattern, Expr)>,
      lab: Option<nat>, lfalse: nat, n0: nat, n1: nat, pcode: Prg, c: Code, rest: (Code, bool), d: nat, k: nat,
      t: Depths)
    returns (bind: Prg)
    requires |brs| > 1 && Yields(brs[0].1, k) && (forall i :: 0 <= i < |brs| ==> Leaves(brs[i].1, k)) &&
      !FirmBodies(brs[1..], k)
    requires lfalse == n && n0 == n + 1 && PatternCode(brs[0].0, n, n + 1) == (n1, true, pcode)
    requires var xs := BoundNames(Bindings(brs[0].0, []));
      c == Compile(Open(st, xs, li), Above(st, xs, li), l, n1 + 2, brs[0].1)
    requires rest == CompileBranches(st, li, l, lo, c.next, brs[1..], Some(lfalse)) && c.next <= rest.0.next
    requires AtBranch(t, lab, l, lo, n, rest.0.next, d, k)
    ensures bind == BindCode(Open(st, BoundNames(Bindings(brs[0].0, [])), li), Bindings(brs[0].0, [])) + [DROP]
    ensures Clash(t, Entry(n1, lab) + pcode + bind + (c.insns + ([JMP(l)] + [SLABEL(n1 + 1)])) + rest.0.insns)
    decreases Size(brs[0].1) + SizeBranches(brs[1..]), 5
  {
    hide Compile, CompileBranches, PatternCode, Bindings, BindCode, BoundNames, Open, Above, Entry, Leaves, Firm,
      FirmBodies, Yields, Size, SizeBranches, Clash, Kept, DRun;
    bind := BindCode(Open(st, BoundNames(Bindings(brs[0].0, [])), li), Bindings(brs[0].0, [])) + [DROP];
    var s, t5 := BranchLeads(st, li, l, lo, n, brs[0], false, lab, rest.0.next, d, k, t);
    NextBranch(t5, l, lo, n, c.next, rest.0.next, d, k);
    hide AtBranch;
    BranchesClash(st, li, l, lo, c.next, brs[1..], Some(lfalse), d, k, t5);
    ClashLater(t, s, t5, rest.0.insns);
  }

  lemma NextBranch(t5: Depths, l: nat, lo: nat, n: nat, mid: nat, hi: nat, d: nat, k: nat)
    requires Branched(t5, l, lo, d, k, false) && t5.barrier && n in t5.jumped && Aims(t5, n, d + 1) &&
      Unseen(t5, mid, hi)
    requires lo < n < mid <= hi && !(lo <= l < hi)
    ensures AtBranch(t5, Some(n), l, lo, mid, hi, d, k)
  {
  }

  lemma BranchSplit(a: Prg, b: Prg, c: Prg, d: Prg, e: Prg, f: Prg, g: Prg)
    ensures a + b + c + d + e + f + g == a + b + c + d + (e + f + g)
    ensures a + b + c + (d + (e + f)) + g == a + b + c + d + e + f + g
  {
  }

  lemma BranchFits(st: Names, li: nat, l: nat, lo: nat, brs: seq<(Pattern, Expr)>, lfalse: nat, n0: nat, n1: nat,
      pcode: Prg, canFail: bool, c: Code, rest: (Code, bool))
    requires brs != [] && PatternCode(brs[0].0, lfalse, n0) == (n1, canFail, pcode) && (|brs| > 1 ==> lfalse < n0)
    requires var xs := BoundNames(Bindings(brs[0].0, []));
      c == Compile(Open(st, xs, li), Above(st, xs, li), l, n1 + 2, brs[0].1)
    requires if canFail && |brs| > 1 then rest == CompileBranches(st, li, l, lo, c.next, brs[1..], Some(lfalse))
      else rest.0.next == c.next
    ensures c.next <= rest.0.next
  {
    hide Compile, CompileBranches, PatternCode, Bindings, BoundNames, Open, Above;
    var xs := BoundNames(Bindings(brs[0].0, []));
    PatternRange(brs[0].0, lfalse, n0);
    Ranged(Open(st, xs, li), Above(st, xs, li), l, n1 + 2, brs[0].1);
    if canFail && |brs| > 1 {
      BranchesRanged(st, li, l, lo, c.next, brs[1..], Some(lfalse));
    }
  }

  lemma YieldsBoth(e: Expr, k: nat)
    requires Leaves(e, k) && Firm(e, k)
    ensures Yields(e, k)
  {
  }

  lemma NoBodies(k: nat)
    ensures FirmBodies([], k)
  {
  }

  /** A case that is a place and can fail: its last jump. */
  lemma FailClashes(t: Depths, s: Prg, t4: Depths, l: nat, n: nat, d: nat)
    requires DRun(t, s) == Some(t4) && Branched(t4, l, n, d, 2, true) && l != n
    ensures Clash(t, s + [JMP(l)] + [LABEL(n), FAIL(true), JMP(l)])
  {
    hide DRun, DStep;
    var t5 := t4;
    if t4.barrier {
      StillDead(t4, JMP(l));
    } else {
      t5 := Jumps(t4, l);
    }
    DSnoc(t, s, JMP(l));
    var u := DStepLabel(t5, n, d + 1);
    DRunOne(t5, LABEL(n));
    DSnoc(t5, [LABEL(n)], FAIL(true));
    DStepStraight(u, FAIL(true));
    var code := [LABEL(n), FAIL(true), JMP(l)];
    assert code[..2] == [LABEL(n)] + [FAIL(true)];
    assert ClashAt(t5, code, 2);
    ClashLater(t, s + [JMP(l)], t5, code);
  }

  lemma {:induction false} CaseClashes(st: Names, li: nat, l: nat, n: nat, x: Expr, brs: seq<(Pattern, Expr)>,
      valued: bool, k: nat, t: Depths)
    requires Leaves(x, 1) && brs != [] && (forall i :: 0 <= i < |brs| ==> Leaves(brs[i].1, k)) && (k == 0 <==> !valued)
    requires !(Firm(x, 1) && FirmBodies(brs, k) && (k == 2 ==> Sealed(brs)))
    requires Ready(t, l, t.depth + k, n, Compile(st, li, l, n, Case(x, brs, valued)).next)
    ensures Clash(t, Compile(st, li, l, n, Case(x, brs, valued)).insns)
    decreases Size(Case(x, brs, valued)), 1
  {
    hide Compile, CompileBranches, DRun, Leads, Ready, Leaves, Firm, FirmBodies, Sealed, Size, SizeBranches, AtBranch,
      Branched, Kept, Landing, Clash;
    var c, b := CaseCode(st, li, l, n, x, brs, valued);
    var tail := [JMP(l)] + (if b.1 then [LABEL(n), FAIL(valued), JMP(l)] else []);
    Ranged(st, li, n + 1, n + 2, x);
    BranchesRanged(st, li, l, n, c.next, brs, None);
    BranchesFail(st, li, l, n, c.next, brs, None);
    var hi := b.0.next;
    SubReady(t, l, t.depth + k, n, n + 1, hi, n + 2, c.next, t.depth + 1);
    InsideNot(t, l, t.depth + k, n, hi, n);
    if !Firm(x, 1) {
      CodeClashes(st, li, n + 1, n + 2, x, 1, t);
      ClashFirst(t, c.insns, Landing(c.flag, n + 1) + [DUP] + b.0.insns + tail);
      assert c.insns + (Landing(c.flag, n + 1) + [DUP] + b.0.insns + tail)
        == Compile(st, li, l, n, Case(x, brs, valued)).insns;
    } else {
      YieldsBoth(x, 1);
      var t1 := CodeLeads(st, li, n + 1, n + 2, x, 1, t);
      var s, t3 := CaseStart(t, c, t1, l, n, hi, k);
      CaseRest(st, li, l, n, c.next, brs, valued, k, t, s, t3, b);
      assert s + b.0.insns + tail == Compile(st, li, l, n, Case(x, brs, valued)).insns;
    }
  }

  lemma {:induction false} CaseRest(st: Names, li: nat, l: nat, lo: nat, n: nat, brs: seq<(Pattern, Expr)>,
      valued: bool, k: nat, t: Depths, s: Prg, t3: Depths, b: (Code, bool))
    requires brs != [] && (forall i :: 0 <= i < |brs| ==> Leaves(brs[i].1, k)) && (k == 0 <==> !valued)
    requires !(FirmBodies(brs, k) && (k == 2 ==> Sealed(brs))) && (b.1 <==> !Sealed(brs)) && l != lo
    requires b == CompileBranches(st, li, l, lo, n, brs, None) && DRun(t, s) == Some(t3) &&
      AtBranch(t3, None, l, lo, n, b.0.next, t.depth, k)
    ensures Clash(t, s + b.0.insns + ([JMP(l)] + (if b.1 then [LABEL(lo), FAIL(valued), JMP(l)] else [])))
    decreases SizeBranches(brs), 4
  {
    hide CompileBranches, DRun, Leaves, FirmBodies, Sealed, SizeBranches, AtBranch, Branched, Kept, Clash;
    var tail := [JMP(l)] + (if b.1 then [LABEL(lo), FAIL(valued), JMP(l)] else []);
    if !FirmBodies(brs, k) {
      BranchesClash(st, li, l, lo, n, brs, None, t.depth, k, t3);
      ClashInside(t, s, t3, b.0.insns, tail);
    } else {
      BranchesBoth(brs, k);
      var t4 := BranchesLead(st, li, l, lo, n, brs, None, t.depth, k, t3);
      DRunConcat(t, s, b.0.insns);
      FailClashes(t, s + b.0.insns, t4, l, lo, t.depth);
      assert s + b.0.insns + [JMP(l)] + [LABEL(lo), FAIL(true), JMP(l)] == s + b.0.insns + tail;
    }
  }

  lemma BranchesBoth(brs: seq<(Pattern, Expr)>, k: nat)
    requires (forall i :: 0 <= i < |brs| ==> Leaves(brs[i].1, k)) && FirmBodies(brs, k)
    ensures BranchesYield(brs, k)
  {
  }

  // Scopes and the rest

  lemma {:induction false} ScopeClashes(st: Names, li: nat, l: nat, n: nat, ds: seq<(string, Option<Expr>)>, x: Expr,
      k: nat, t: Depths)
    requires Leaves(Scope(ds, x), k) && !Firm(Scope(ds, x), k) &&
      Ready(t, l, t.depth + k, n, Compile(st, li, l, n, Scope(ds, x)).next)
    ensures Clash(t, Compile(st, li, l, n, Scope(ds, x)).insns)
    decreases Size(Scope(ds, x)), 1
  {
    hide Compile, DRun, DStep, Leaves, Firm, Size, Open, Above, DeclNames, WithInits, Clash, Ready, Max;
    ScopeInfirm(ds, x, k);
    var e, xs, c := ScopeCode(st, li, l, n, ds, x);
    ScopeBody(Open(st, xs, li), Above(st, xs, li), l, n, e, c, k, t);
  }

  lemma {:induction false} ScopeBody(st: Names, li: nat, l: nat, n: nat, e: Expr, c: Code, k: nat, t: Depths)
    requires Leaves(e, k) && !Firm(e, k) && c == Compile(st, li, l, n + 2, e) && Ready(t, l, t.depth + k, n, c.next)
    ensures Clash(t, [SLABEL(n)] + c.insns + [SLABEL(n + 1)])
    decreases Size(e), 4
  {
    hide Compile, DRun, DStep, Leaves, Firm, Size, Clash;
    Ranged(st, li, l, n + 2, e);
    CodeClashes(st, li, l, n + 2, e, k, t);
    DRunOne(t, SLABEL(n));
    DStepStraight(t, SLABEL(n));
    ClashInside(t, [SLABEL(n)], t, c.insns, [SLABEL(n + 1)]);
  }

  lemma ScopeInfirm(ds: seq<(string, Option<Expr>)>, x: Expr, k: nat)
    requires Leaves(Scope(ds, x), k) && !Firm(Scope(ds, x), k)
    ensures Leaves(WithInits(ds, x), k) && !Firm(WithInits(ds, x), k)
  {
    hide Size;
    Continuations.WithInitsLeaves(ds, x, k);
  }

  lemma {:induction false} SomeInfirm(es: seq<Expr>)
    requires !FirmAll(es)
    ensures exists i :: 0 <= i < |es| && !Firm(es[i], 1)
    decreases |es|
  {
    hide Firm;
    if Firm(es[0], 1) {
      SomeInfirm(es[1..]);
      var i :| 0 <= i < |es[1..]| && !Firm(es[1..][i], 1);
      assert !Firm(es[i + 1], 1);
    }
  }

  /** Operands of an operator, one of them infirm. */
  lemma JoinedInfirm(st: Names, li: nat, l: nat, n: nat, e: Expr) returns (es: seq<Expr>, ks: seq<nat>, i: Insn)
    requires Labels.IsJoined(e) && Leaves(e, 1) && !Firm(e, 1)
    ensures Compile(st, li, l, n, e) == CompileOperands(st, li, n, es, i) && SizeList(es) < Size(e)
    ensures |ks| == |es| && (forall j :: 0 <= j < |es| ==> Leaves(es[j], ks[j])) &&
      exists j :: 0 <= j < |es| && !Firm(es[j], ks[j])
  {
    if e.Call? {
      hide Compile, Ones;
      es, ks, i := CallInfirm(st, li, l, n, e.f, e.args);
    } else {
      hide CompileOperands, Ones;
      es, ks, i := OperatorInfirm(e);
      CompiledOperator(st, li, l, n, e);
    }
  }

  lemma CompiledOperator(st: Names, li: nat, l: nat, n: nat, e: Expr)
    requires Labels.IsJoined(e) && !e.Call?
    ensures match e
      case Binop(op, x, y) => Compile(st, li, l, n, e) == CompileOperands(st, li, n, [x, y], BINOP(op))
      case Elem(x, y) => Compile(st, li, l, n, e) == CompileOperands(st, li, n, [x, y], ELEM)
      case Array(xs) => Compile(st, li, l, n, e) == CompileOperands(st, li, n, xs, CALL(".array", |xs|))
      case Sexp(t, xs) => Compile(st, li, l, n, e) == CompileOperands(st, li, n, xs, SEXP(t, |xs|))
      case Assign(x, y) => Compile(st, li, l, n, e) == CompileOperands(st, li, n, [x, y], STA)
  {
    hide CompileOperands;
  }

  lemma OperatorInfirm(e: Expr) returns (es: seq<Expr>, ks: seq<nat>, i: Insn)
    requires Labels.IsJoined(e) && !e.Call? && Leaves(e, 1) && !Firm(e, 1)
    ensures SizeList(es) < Size(e)
    ensures match e
      case Binop(op, x, y) => es == [x, y] && i == BINOP(op)
      case Elem(x, y) => es == [x, y] && i == ELEM
      case Array(xs) => es == xs && i == CALL(".array", |xs|)
      case Sexp(t, xs) => es == xs && i == SEXP(t, |xs|)
      case Assign(x, y) => es == [x, y] && i == STA
    ensures |ks| == |es| && (forall j :: 0 <= j < |es| ==> Leaves(es[j], ks[j])) &&
      exists j :: 0 <= j < |es| && !Firm(es[j], ks[j])
  {
    hide FirmAll, SizeList;
    match e
    case Binop(op, x, y) => es, ks, i := TwoInfirm(x, y, 1, BINOP(op));
    case Elem(x, y) => es, ks, i := TwoInfirm(x, y, 1, ELEM);
    case Array(xs) => SomeInfirm(xs); es, ks, i := xs, Ones(|xs|), CALL(".array", |xs|);
    case Sexp(t, xs) => SomeInfirm(xs); es, ks, i := xs, Ones(|xs|), SEXP(t, |xs|);
    case Assign(x, y) => es, ks, i := TwoInfirm(x, y, 2, STA);
  }

  lemma CallInfirm(st: Names, li: nat, l: nat, n: nat, f: Expr, xs: seq<Expr>)
    returns (es: seq<Expr>, ks: seq<nat>, i: Insn)
    requires Leaves(Call(f, xs), 1) && !Firm(Call(f, xs), 1)
    ensures Compile(st, li, l, n, Call(f, xs)) == CompileOperands(st, li, n, es, i) && SizeList(es) < Size(Call(f, xs))
    ensures |ks| == |es| && (forall j :: 0 <= j < |es| ==> Leaves(es[j], ks[j])) &&
      exists j :: 0 <= j < |es| && !Firm(es[j], ks[j])
  {
    hide CompileOperands, FirmAll;
    SizeCons(f, xs);
    if f.Var? && Designated(st, f.name).Fun? {
      SomeInfirm(xs);
      es, ks, i := xs, Ones(|xs|), CALL(Designated(st, f.name).name, |xs|);
    } else {
      es, ks, i := [f] + xs, Ones(|xs| + 1), CALLC(|xs|);
      CalleeInfirm(f, xs);
    }
  }

  lemma TwoInfirm(x: Expr, y: Expr, k: nat, insn: Insn) returns (es: seq<Expr>, ks: seq<nat>, i: Insn)
    requires !(Firm(x, k) && Firm(y, 1))
    ensures es == [x, y] && ks == [k, 1] && i == insn && SizeList(es) == Size(x) + Size(y)
    ensures exists j :: 0 <= j < |es| && !Firm(es[j], ks[j])
  {
    hide Firm, Size;
    es, ks, i := [x, y], [k, 1], insn;
    SizeTwo(x, y);
    assert !Firm(es[0], ks[0]) || !Firm(es[1], ks[1]);
  }

  lemma CalleeInfirm(f: Expr, xs: seq<Expr>)
    requires !(Firm(f, 1) && FirmAll(xs))
    ensures exists j :: 0 <= j < |[f] + xs| && !Firm(([f] + xs)[j], Ones(|xs| + 1)[j])
  {
    hide Firm;
    if Firm(f, 1) {
      SomeInfirm(xs);
      var j :| 0 <= j < |xs| && !Firm(xs[j], 1);
      assert !Firm(([f] + xs)[j + 1], Ones(|xs| + 1)[j + 1]);
    } else {
      assert !Firm(([f] + xs)[0], Ones(|xs| + 1)[0]);
    }
  }

  lemma PairInfirm(st: Names, li: nat, l: nat, n: nat, e: Expr, k: nat) returns (es: seq<Expr>, ks: seq<nat>)
    requires Labels.IsPair(e) && Leaves(e, k) && !Firm(e, k)
    ensures Compile(st, li, l, n, e) == CompileList(st, li, l, n, es) && SizeList(es) < Size(e)
    ensures |ks| == |es| && (forall j :: 0 <= j < |es| ==> Leaves(es[j], ks[j])) && Sum(ks) == k
    ensures exists j :: 0 <= j < |es| && !Firm(es[j], ks[j])
  {
    hide CompileList;
    match e
    case ElemRef(x, y) =>
      SizeTwo(x, y);
      SumTwo(1, 1);
      es, ks := [x, y], [1, 1];
      assert !Firm(es[0], ks[0]) || !Firm(es[1], ks[1]);
    case Seq(x, y) =>
      SizeTwo(x, y);
      SumTwo(0, k);
      es, ks := [x, y], [0, k];
      assert !Firm(es[0], ks[0]) || !Firm(es[1], ks[1]);
  }

  lemma {:induction false} SingleClashes(st: Names, li: nat, l: nat, n: nat, e: Expr, k: nat, t: Depths)
    requires Labels.IsSingle(e) && Leaves(e, k) && !Firm(e, k) &&
      Ready(t, l, t.depth + k, n, Compile(st, li, l, n, e).next)
    ensures Clash(t, Compile(st, li, l, n, e).insns)
    decreases Size(e), 1
  {
    hide DRun, DStep, Compile, Leaves, Firm, Ready, Size, Clash;
    var x, i := SingleInfirm(st, li, l, n, e, k);
    var c := Compile(st, li, n, n + 1, x);
    Ranged(st, li, n, n + 1, x);
    JoinReady(t, l, t.depth + k, n, c.next, c.next, t.depth + 1);
    CodeClashes(st, li, n, n + 1, x, 1, t);
    ClashFirst(t, c.insns, Landing(c.flag, n) + [i]);
    assert c.insns + (Landing(c.flag, n) + [i]) == c.insns + Landing(c.flag, n) + [i];
  }

  lemma SingleInfirm(st: Names, li: nat, l: nat, n: nat, e: Expr, k: nat) returns (x: Expr, i: Insn)
    requires Labels.IsSingle(e) && Leaves(e, k) && !Firm(e, k)
    ensures Compile(st, li, l, n, e) == AddCode(Compile(st, li, n, n + 1, x), n, false, [i])
    ensures Size(x) < Size(e) && Leaves(x, 1) && !Firm(x, 1)
  {
    hide AddCode;
    if e.Ignore? {
      x, i := e.e, DROP;
    } else {
      assert Firm(e.target, 2);
      x, i := e.source, ST(Designated(st, e.target.name));
    }
  }

  lemma PartsInfirm(e: Expr, k: nat)
    requires (e.If? || e.While? || e.DoWhile? || e.Case?) && Leaves(e, k) && !Firm(e, k)
    ensures e.If? ==>
      Leaves(e.cond, 1) && Leaves(e.thn, k) && Leaves(e.els, k) &&
      !(Firm(e.cond, 1) && Firm(e.thn, k) && Firm(e.els, k))
    ensures e.While? || e.DoWhile? ==>
      k == 0 && Leaves(e.cond, 1) && Leaves(e.body, 0) &&
      !(Firm(e.cond, 1) && Firm(e.body, 0))
    ensures e.Case? ==> e.branches != [] && (k == 0 <==> !e.valued)
    ensures e.Case? ==> Leaves(e.scrutinee, 1) && forall i :: 0 <= i < |e.branches| ==> Leaves(e.branches[i].1, k)
    ensures e.Case? ==> !(Firm(e.scrutinee, 1) && FirmBodies(e.branches, k) && (k == 2 ==> Sealed(e.branches)))
  {
    hide FirmBodies, Sealed;
    if e.Case? {
      forall i | 0 <= i < |e.branches| ensures Leaves(e.branches[i].1, k) {
        assert e.branches[i] in e.branches;
      }
    }
  }

  lemma {:induction false} PartsClash(st: Names, li: nat, l: nat, n: nat, e: Expr, k: nat, t: Depths)
    requires Labels.IsPair(e) || Labels.IsJoined(e)
    requires Leaves(e, k) && !Firm(e, k) && Ready(t, l, t.depth + k, n, Compile(st, li, l, n, e).next)
    ensures Clash(t, Compile(st, li, l, n, e).insns)
    decreases Size(e), 2
  {
    hide Compile, CompileOperands, CompileList, Ready, Leaves, Firm, Size, SizeList, Sum, Clash;
    if Labels.IsPair(e) {
      var es, ks := PairInfirm(st, li, l, n, e, k);
      ListClashes(st, li, l, n, es, ks, t);
    } else {
      JoinedOne(e, k);
      var es, ks, i := JoinedInfirm(st, li, l, n, e);
      OperandsClash(st, li, l, n, es, ks, i, t.depth + k, t);
    }
  }

  lemma Compound(e: Expr, k: nat)
    requires Leaves(e, k) && !Firm(e, k)
    ensures Labels.IsPair(e) || Labels.IsSingle(e) || Labels.IsJoined(e) || e.If? || e.While? || e.DoWhile? ||
      e.Case? || e.Scope?
  {
  }

  /** A case that is assigned to and can fail makes the code around it clash, wherever it is. */
  lemma {:induction false} CodeClashes(st: Names, li: nat, l: nat, n: nat, e: Expr, k: nat, t: Depths)
    requires Leaves(e, k) && !Firm(e, k) && Ready(t, l, t.depth + k, n, Compile(st, li, l, n, e).next)
    ensures Clash(t, Compile(st, li, l, n, e).insns)
    decreases Size(e), 3
  {
    Compound(e, k);
    hide DRun, DStep, Compile, CompileOperands, CompileList, Ready, Leaves, Firm, FirmBodies, Sealed, Size, SizeList,
      Sum, Clash;
    if Labels.IsPair(e) || Labels.IsJoined(e) {
      PartsClash(st, li, l, n, e, k, t);
    } else if Labels.IsSingle(e) {
      SingleClashes(st, li, l, n, e, k, t);
    } else if e.Scope? {
      ScopeClashes(st, li, l, n, e.decls, e.body, k, t);
    } else {
      ControlClashes(st, li, l, n, e, k, t);
    }
  }

  lemma {:induction false} ControlClashes(st: Names, li: nat, l: nat, n: nat, e: Expr, k: nat, t: Depths)
    requires e.If? || e.While? || e.DoWhile? || e.Case?
    requires Leaves(e, k) && !Firm(e, k) && Ready(t, l, t.depth + k, n, Compile(st, li, l, n, e).next)
    ensures Clash(t, Compile(st, li, l, n, e).insns)
    decreases Size(e), 2
  {
    hide DRun, DStep, Compile, Ready, Leaves, Firm, FirmBodies, Sealed, Size, Clash;
    PartsInfirm(e, k);
    if e.If? {
      IfClashes(st, li, l, n, e.cond, e.thn, e.els, k, t);
    } else if e.While? {
      WhileClashes(st, li, l, n, e.cond, e.body, t);
    } else if e.DoWhile? {
      DoWhileClashes(st, li, l, n, e.cond, e.body, t);
    } else {
      CaseClashes(st, li, l, n, e.scrutinee, e.branches, e.valued, k, t);
    }
  }

  // Whole programs

  /** Edges of a run are those of its prefixes. */
  lemma EdgeInside(t: Depths, p: Prg, m: nat, j: nat, l: nat)
    requires j < m <= |p|
    ensures Edge(t, p[..m], j, l) == Edge(t, p, j, l)
  {
    hide DRun, EdgeOf;
    assert p[..m][..j] == p[..j];
  }

  lemma NewJump(t: Depths, i: Insn, t': Depths, l: nat)
    requires DStep(t, i) == Some(t') && l in t'.jumped && !(l in t.jumped && t.jumped[l] == t'.jumped[l])
    ensures EdgeOf(t, i, l) == Some(t'.jumped[l])
  {
  }

  /** The depth noted for a label comes from a jump. */
  lemma {:induction false} JumpedFrom(t: Depths, p: Prg, l: nat) returns (j: nat)
    requires DRun(t, p).Some? && l in DRun(t, p).value.jumped && l !in t.jumped
    ensures j < |p| && Edge(t, p, j, l) == Some(DRun(t, p).value.jumped[l])
    decreases |p|
  {
    hide DStep, EdgeOf;
    assert p != [];
    var q := p[..|p| - 1];
    var u := DRun(t, q).value;
    if l in u.jumped && u.jumped[l] == DRun(t, p).value.jumped[l] {
      j := JumpedFrom(t, q, l);
      EdgeInside(t, p, |q|, j, l);
    } else {
      j := |q|;
      NewJump(u, p[|q|], DRun(t, p).value, l);
    }
  }

  /** Two edges into one label that differ, and the first of them. */
  lemma ClashEdges(p: Prg) returns (i: nat, j: nat, l: nat)
    requires Clash(START, p)
    ensures j < i < |p| && DRun(START, p[..i]).Some? && p[i] == JMP(l)
    ensures Edge(START, p, i, l).Some? && Edge(START, p, j, l).Some? && Edge(START, p, i, l) != Edge(START, p, j, l)
  {
    hide DRun;
    i :| 0 <= i < |p| && ClashAt(START, p, i);
    l := p[i].l;
    j := JumpedFrom(START, p[..i], l);
    EdgeInside(START, p, i, j, l);
  }

  lemma ProgramClashes(e: Expr)
    requires Leaves(e, 1) && !Firm(e, 1)
    ensures Clash(START, CompileProgram(e))
  {
    var c := Compile(NoNames, 0, 0, 1, e);
    hide Compile, Leaves, Firm, DRun, DStep, Clash, Landing;
    Ranged(NoNames, 0, 0, 1, e);
    CodeClashes(NoNames, 0, 0, 1, e, 1, START);
    MainClashes(c);
  }

  lemma MainClashes(c: Code)
    requires Clash(START, c.insns)
    ensures Clash(START, [BEGIN(c.locals)] + c.insns + Landing(c.flag, 0) + [END])
  {
    hide DRun, DStep, Clash, Landing;
    DRunOne(START, BEGIN(c.locals));
    DStepStraight(START, BEGIN(c.locals));
    ClashInside(START, [BEGIN(c.locals)], START, c.insns, Landing(c.flag, 0) + [END]);
    assert [BEGIN(c.locals)] + c.insns + (Landing(c.flag, 0) + [END])
      == [BEGIN(c.locals)] + c.insns + Landing(c.flag, 0) + [END];
  }

  lemma RoutineClashes(r: Routine, t: Depths)
    requires Leaves(r.body, 1) && !Firm(r.body, 1) && !t.barrier && t.depth == 0 && UnseenFrom(t, r.first)
    ensures Clash(t, RoutineCode(r))
  {
    hide Compile, Leaves, Firm, DRun, DStep, Clash;
    var c := RoutineBody(r);
    RoutineStart(r, t);
    CodeClashes(r.names, r.base, r.first + 2, r.first + 3, r.body, 1, t);
    ClashInside(t, [BEGIN(c.locals), SLABEL(r.first)], t, c.insns, [LABEL(r.first + 2), SLABEL(r.first + 1), END]);
  }

  lemma {:induction false} RoutinesClash(rs: seq<Routine>, lo: nat, t: Depths)
    requires !t.barrier && t.depth == 0 && UnseenFrom(t, lo) && Spaced(rs, lo)
    requires (forall r :: r in rs ==> Leaves(r.body, 1)) && exists r :: r in rs && !Firm(r.body, 1)
    ensures Clash(t, RoutinesCode(rs))
    decreases |rs|
  {
    hide DRun, DStep, RoutineCode, RoutineBody, Leaves, Firm, Clash, UnseenFrom;
    if Firm(rs[0].body, 1) {
      YieldsBoth(rs[0].body, 1);
      LaterUnseen(t, lo, rs[0].first);
      var t1 := RoutineDepths(rs[0], t);
      RoutinesClash(rs[1..], RoutineBody(rs[0]).next, t1);
      ClashLater(t, RoutineCode(rs[0]), t1, RoutinesCode(rs[1..]));
    } else {
      LaterUnseen(t, lo, rs[0].first);
      RoutineClashes(rs[0], t);
      ClashFirst(t, RoutineCode(rs[0]), RoutinesCode(rs[1..]));
    }
  }

  lemma LaterUnseen(t: Depths, lo: nat, l: nat)
    requires UnseenFrom(t, lo) && lo <= l
    ensures UnseenFrom(t, l)
  {
  }

  /** No case that can fail is assigned to, in the main program or in a function. */
  predicate AllFirm(e: Expr, rs: seq<Routine>) {
    Firm(e, 1) && forall r :: r in rs ==> Firm(r.body, 1)
  }

  lemma WholeClashes(e: Expr, rs: seq<Routine>)
    requires Leaves(e, 1) && (forall r :: r in rs ==> Leaves(r.body, 1)) &&
      Spaced(rs, Compile(NoNames, 0, 0, 1, e).next)
    requires !AllFirm(e, rs)
    ensures Clash(START, WholeProgram(e, rs))
  {
    hide DRun, Compile, CompileProgram, RoutinesCode, Leaves, Firm, Spaced, Clash;
    if Firm(e, 1) {
      YieldsBoth(e, 1);
      var t := ProgramDepths(e);
      RoutinesClash(rs, Compile(NoNames, 0, 0, 1, e).next, t);
      ClashLater(START, CompileProgram(e), t, RoutinesCode(rs));
    } else {
      ProgramClashes(e);
      ClashFirst(START, CompileProgram(e), RoutinesCode(rs));
    }
  }

  /** Any two edges into one label find the same depth. */
  ghost predicate AllAgree(p: Prg) {
    forall i: nat, j: nat, l :: i < |p| && j < |p| && Edge(START, p, i, l).Some? && Edge(START, p, j, l).Some?
      ==> Edge(START, p, i, l) == Edge(START, p, j, l)
  }

  lemma RunAgrees(p: Prg)
    requires DRun(START, p).Some?
    ensures AllAgree(p)
  {
    hide DRun, Edge;
    forall i: nat, j: nat, l | i < |p| && j < |p| && Edge(START, p, i, l).Some? && Edge(START, p, j, l).Some?
      ensures Edge(START, p, i, l) == Edge(START, p, j, l)
    {
      RunEdges(p, i, j, l);
    }
  }

  lemma ClashDisagrees(p: Prg)
    requires Clash(START, p)
    ensures !AllAgree(p)
  {
    hide DRun, Edge, Clash;
    var i, j, l := ClashEdges(p);
  }

  /** Compiled programs agree with themselves exactly if no case that can fail is assigned to. */
  lemma AgreeExactly(e: Expr, rs: seq<Routine>)
    requires Leaves(e, 1) && (forall r :: r in rs ==> Leaves(r.body, 1)) &&
      Spaced(rs, Compile(NoNames, 0, 0, 1, e).next)
    ensures AllAgree(WholeProgram(e, rs)) <==> AllFirm(e, rs)
  {
    hide WholeProgram, Firm, Leaves, DRun, Clash, AllAgree, Spaced, Compile;
    if AllFirm(e, rs) {
      YieldsBoth(e, 1);
      forall r | r in rs ensures Yields(r.body, 1) {
        YieldsBoth(r.body, 1);
      }
      var t := WholeDepths(e, rs);
      RunAgrees(WholeProgram(e, rs));
    } else {
      WholeClashes(e, rs);
      ClashDisagrees(WholeProgram(e, rs));
    }
  }

  /** `case 1 of 1 -> x esac := 3`, in a scope with `x`. */
  const FAILING := Scope([("x", None)], Assign(Case(Const(1), [(PConst(1), Ref("x"))], true), Const(3)))

  /** At the target of this case the branch arrives with two places, the failure with one. */
  lemma FailingPlace()
    ensures Leaves(FAILING, 1) && !AllAgree(CompileProgram(FAILING))
  {
    var brs := [(PConst(1), Ref("x"))];
    var x := Case(Const(1), brs, true);
    FailingCase(brs);
    hide *;
    FailingAssign(x);
    ProgramClashes(FAILING);
    ClashDisagrees(CompileProgram(FAILING));
  }

  lemma FailingCase(brs: seq<(Pattern, Expr)>)
    requires |brs| == 1 && brs[0].0.PConst? && brs[0].1.Ref?
    ensures Leaves(Case(Const(1), brs, true), 2) && !Firm(Case(Const(1), brs, true), 2)
  {
    assert !Sealed(brs[1..]);
  }

  lemma FailingAssign(x: Expr)
    requires Leaves(x, 2) && !Firm(x, 2)
    ensures Leaves(Scope([("x", None)], Assign(x, Const(3))), 1)
    ensures !Firm(Scope([("x", None)], Assign(x, Const(3))), 1)
  {
    InfirmAssign(x, Const(3));
    hide Leaves, Firm;
    PlainScope([("x", None)], Assign(x, Const(3)));
  }

  lemma InfirmAssign(x: Expr, y: Expr)
    requires Leaves(x, 2) && !Firm(x, 2) && y.Const?
    ensures Leaves(Assign(x, y), 1) && !Firm(Assign(x, y), 1)
  {
  }

  lemma PlainScope(ds: seq<(string, Option<Expr>)>, x: Expr)
    requires |ds| == 1 && ds[0].1.None? && Leaves(x, 1) && !Firm(x, 1)
    ensures Leaves(Scope(ds, x), 1) && !Firm(Scope(ds, x), 1)
  {
    assert ds[1..] == [] && WithInits(ds, x) == x;
  }
}
