/** Labels of compiled code: every label is defined once, and every jump leads to a label of
    the code or, if the flag is set, to the target label. */
module Labels {
  import opened Wrappers
  import opened Syntax
  import opened Reference
  import opened Direct
  import opened StackMachine
  import opened Compiler
  import opened Unfolding

  function Target(i: Insn): Option<nat> {
    match i
    case JMP(l) => Some(l)
    case CJMP(_, l) => Some(l)
    case _ => None
  }

  /** `code` defines the labels `ls`, each once, and jumps only to `out`. */
  ghost predicate Tidy(code: Prg, ls: set<nat>, out: set<nat>) {
    && LabelsUnique(code)
    && (forall i, x :: 0 <= i < |code| && Defines(code[i], x) ==> x in ls)
    && (forall x :: x in ls ==> HasLabel(code, x))
    && (forall i :: 0 <= i < |code| && Target(code[i]).Some? ==> Target(code[i]).value in out)
  }

  ghost predicate Range(ls: set<nat>, lo: nat, hi: nat) {
    lo <= hi && forall x :: x in ls ==> lo <= x < hi
  }

  lemma DefinedIn(a: Prg, la: set<nat>, oa: set<nat>, b: Prg, lb: set<nat>, ob: set<nat>, i: nat, x: nat)
    requires Tidy(a, la, oa) && Tidy(b, lb, ob) && i < |a + b| && Defines((a + b)[i], x)
    ensures i < |a| ==> x in la && Defines(a[i], x)
    ensures i >= |a| ==> x in lb && Defines(b[i - |a|], x)
  {
  }

  lemma TidyConcat(a: Prg, la: set<nat>, oa: set<nat>, b: Prg, lb: set<nat>, ob: set<nat>)
    requires Tidy(a, la, oa) && Tidy(b, lb, ob) && la !! lb
    ensures Tidy(a + b, la + lb, oa + ob)
  {
    var c := a + b;
    forall i, j, x | 0 <= i < |c| && 0 <= j < |c| && Defines(c[i], x) && Defines(c[j], x) ensures i == j {
      DefinedIn(a, la, oa, b, lb, ob, i, x);
      DefinedIn(a, la, oa, b, lb, ob, j, x);
    }
    forall x | x in la + lb ensures HasLabel(c, x) {
      if x in la {
        var i :| 0 <= i < |a| && Defines(a[i], x);
        assert Defines(c[i], x);
      } else {
        var i :| 0 <= i < |b| && Defines(b[i], x);
        assert Defines(c[|a| + i], x);
      }
    }
    forall i | 0 <= i < |c| && Target(c[i]).Some? ensures Target(c[i]).value in oa + ob {
      if i >= |a| {
        assert c[i] == b[i - |a|];
      }
    }
    forall i, x | 0 <= i < |c| && Defines(c[i], x) ensures x in la + lb {
      if i >= |a| {
        assert c[i] == b[i - |a|];
      }
    }
  }

  lemma TidyMore(code: Prg, ls: set<nat>, out: set<nat>, more: set<nat>)
    requires Tidy(code, ls, out) && out <= more
    ensures Tidy(code, ls, more)
  {
  }

  /** Code without labels and jumps. */
  ghost predicate Plain(code: Prg) {
    forall i :: 0 <= i < |code| ==> !code[i].LABEL? && !code[i].FLABEL? && Target(code[i]).None?
  }

  lemma TidyPlain(code: Prg)
    requires Plain(code)
    ensures Tidy(code, {}, {})
  {
  }

  lemma TidyLabel(i: Insn, l: nat)
    requires Defines(i, l)
    ensures Tidy([i], {l}, {})
  {
    assert Defines([i][0], l);
  }

  lemma TidyJump(i: Insn, l: nat)
    requires Target(i) == Some(l)
    ensures Tidy([i], {}, {l})
  {
  }

  /** Plain code after other code. */
  lemma TidyThenPlain(a: Prg, ls: set<nat>, out: set<nat>, b: Prg)
    requires Tidy(a, ls, out) && Plain(b)
    ensures Tidy(a + b, ls, out)
  {
    hide Tidy, Plain;
    TidyPlain(b);
    TidyConcat(a, ls, out, b, {}, {});
    assert ls + {} == ls && out + {} == out;
  }

  lemma TidyThenLabel(a: Prg, ls: set<nat>, out: set<nat>, i: Insn, l: nat)
    requires Tidy(a, ls, out) && Defines(i, l) && l !in ls
    ensures Tidy(a + [i], ls + {l}, out)
  {
    hide Tidy;
    TidyLabel(i, l);
    TidyConcat(a, ls, out, [i], {l}, {});
    assert out + {} == out;
  }

  lemma TidyThenJump(a: Prg, ls: set<nat>, out: set<nat>, i: Insn, l: nat)
    requires Tidy(a, ls, out) && Target(i) == Some(l)
    ensures Tidy(a + [i], ls, out + {l})
  {
    hide Tidy;
    TidyJump(i, l);
    TidyConcat(a, ls, out, [i], {}, {l});
    assert ls + {} == ls;
  }

  function Only(flag: bool, l: nat): set<nat> {
    if flag then {l} else {}
  }

  lemma TidyThenLanding(a: Prg, ls: set<nat>, out: set<nat>, flag: bool, l: nat)
    requires Tidy(a, ls, out) && l !in ls
    ensures Tidy(a + Landing(flag, l), ls + Only(flag, l), out)
  {
    hide Tidy;
    if flag {
      TidyThenLabel(a, ls, out, LABEL(l), l);
    } else {
      assert a + [] == a && ls + {} == ls;
    }
  }

  lemma TidyThenParting(a: Prg, ls: set<nat>, out: set<nat>, flag: bool, l: nat)
    requires Tidy(a, ls, out) && l in out
    ensures Tidy(a + Parting(flag, l), ls, out)
  {
    hide Tidy;
    if flag {
      assert a + [] == a;
    } else {
      TidyThenJump(a, ls, out, JMP(l), l);
      assert out + {l} == out;
    }
  }

  /** What the compiler guarantees of the code `c` made with labels from `n` on and target `l`. */
  ghost predicate Neat(c: Code, ls: set<nat>, l: nat, n: nat) {
    Tidy(c.insns, ls, ls + Only(c.flag, l)) && Range(ls, n, c.next)
  }

  // Patterns

  lemma HeadTidy(test: Insn, n: nat, lfalse: nat)
    requires test.TAG? || test.ARRAY?
    ensures Tidy(Head(test, n, n + 1, lfalse), {n, n + 1}, {n, lfalse})
  {
    var code := Head(test, n, n + 1, lfalse);
    assert Defines(code[3], n + 1) && Defines(code[6], n);
  }

  lemma {:induction false} PatternTidy(p: Pattern, lfalse: nat, n: nat) returns (ls: set<nat>)
    ensures var (next, canFail, code) := PatternCode(p, lfalse, n);
      Tidy(code, ls, ls + Only(canFail, lfalse)) && Range(ls, n, next)
    decreases p
  {
    match p
    case Named(_, q) => ls := PatternTidy(q, lfalse, n);
    case PSexp(t, ps) => ls := StructureTidy(TAG(t, |ps|), ps, lfalse, n);
    case PArray(ps) => ls := StructureTidy(ARRAY(|ps|), ps, lfalse, n);
    case _ =>
      ls := {};
  }

  lemma {:induction false} StructureTidy(test: Insn, ps: seq<Pattern>, lfalse: nat, n: nat) returns (ls: set<nat>)
    requires test.TAG? || test.ARRAY?
    ensures var (next, code) := PatternListCode(ps, 0, n + 1, n + 2);
      Tidy(Head(test, n, n + 1, lfalse) + code + [DROP], ls, ls + {lfalse}) && Range(ls, n, next)
    decreases ps, 1
  {
    hide Tidy, Head, PatternListCode;
    var (next, code) := PatternListCode(ps, 0, n + 1, n + 2);
    var inner := PatternListTidy(ps, 0, n + 1, n + 2);
    HeadTidy(test, n, lfalse);
    TidyConcat(Head(test, n, n + 1, lfalse), {n, n + 1}, {n, lfalse}, code, inner, inner + {n + 1});
    ls := {n, n + 1} + inner;
    TidyThenPlain(Head(test, n, n + 1, lfalse) + code, ls, {n, lfalse} + (inner + {n + 1}), [DROP]);
    assert {n, lfalse} + (inner + {n + 1}) == ls + {lfalse};
  }

  lemma {:induction false} PatternListTidy(ps: seq<Pattern>, i: nat, ldrop: nat, n: nat) returns (ls: set<nat>)
    ensures var (next, code) := PatternListCode(ps, i, ldrop, n); Tidy(code, ls, ls + {ldrop}) && Range(ls, n, next)
    decreases ps, 0
  {
    hide Tidy, PatternCode;
    if ps == [] {
      ls := {};
      TidyPlain([]);
      TidyMore([], {}, {}, {ldrop});
      assert {} + {ldrop} == {ldrop};
    } else {
      var (n1, canFail, code) := PatternCode(ps[0], ldrop, n);
      var (n2, rest) := PatternListCode(ps[1..], i + 1, ldrop, n1);
      var l1 := PatternTidy(ps[0], ldrop, n);
      var l2 := PatternListTidy(ps[1..], i + 1, ldrop, n1);
      var take := [DUP, CONST(i), ELEM];
      TidyPlain(take);
      TidyConcat(take, {}, {}, code, l1, l1 + Only(canFail, ldrop));
      TidyConcat(take + code, {} + l1, {} + (l1 + Only(canFail, ldrop)), rest, l2, l2 + {ldrop});
      ls := l1 + l2;
      assert {} + l1 + l2 == ls;
      TidyMore(take + code + rest, ls, {} + (l1 + Only(canFail, ldrop)) + (l2 + {ldrop}), ls + {ldrop});
    }
  }

  lemma {:induction false} PathPlain(path: seq<nat>)
    ensures Plain(PathCode(path))
    decreases path
  {
    if path != [] {
      PathPlain(path[1..]);
    }
  }

  lemma {:induction false} BindPlain(st: Names, bs: seq<(string, seq<nat>)>)
    ensures Plain(BindCode(st, bs))
    decreases bs
  {
    if bs != [] {
      PathPlain(bs[0].1);
      BindPlain(st, bs[1..]);
    }
  }

  // Expressions

  /** Code joined at a fresh label to what follows it. */
  lemma NeatThenLanding(c: Code, ls: set<nat>, l: nat, n: nat)
    requires Neat(c, ls, l, n) && l < n
    ensures Tidy(c.insns + Landing(c.flag, l), ls + Only(c.flag, l), ls + Only(c.flag, l))
  {
    hide Tidy;
    TidyThenLanding(c.insns, ls, ls + Only(c.flag, l), c.flag, l);
  }

  lemma NeatThenInsn(c: Code, ls: set<nat>, n: nat, i: Insn, l: nat) returns (ls': set<nat>)
    requires Neat(c, ls, n, n + 1) && Plain([i])
    ensures Neat(AddCode(c, n, false, [i]), ls', l, n)
  {
    hide Tidy, Plain;
    NeatThenLanding(c, ls, n, n + 1);
    ls' := ls + Only(c.flag, n);
    TidyThenPlain(c.insns + Landing(c.flag, n), ls', ls', [i]);
    assert ls' + {} == ls';
  }

  lemma NeatPlain(code: Prg, n: nat, l: nat, locals: nat)
    requires Plain(code)
    ensures Neat(Code(n, false, code, locals), {}, l, n)
  {
    hide Tidy, Plain;
    TidyPlain(code);
    assert {} + Only(false, l) == {};
  }

  lemma NeatJoin(c1: Code, l1: set<nat>, c2: Code, l2: set<nat>, n: nat, l: nat) returns (ls: set<nat>)
    requires Neat(c1, l1, n, n + 1) && Neat(c2, l2, l, c1.next)
    ensures Neat(Code(c2.next, c2.flag, c1.insns + Landing(c1.flag, n) + c2.insns, Max(c1.locals, c2.locals)), ls, l, n)
  {
    hide Tidy;
    NeatThenLanding(c1, l1, n, n + 1);
    var l0 := l1 + Only(c1.flag, n);
    TidyConcat(c1.insns + Landing(c1.flag, n), l0, l0, c2.insns, l2, l2 + Only(c2.flag, l));
    ls := l0 + l2;
    assert l0 + (l2 + Only(c2.flag, l)) == ls + Only(c2.flag, l);
  }

  lemma {:induction false} ListNeat(st: Names, li: nat, l: nat, n: nat, es: seq<Expr>) returns (ls: set<nat>)
    ensures Neat(CompileList(st, li, l, n, es), ls, l, n)
    decreases SizeList(es), 4
  {
    hide Neat, Compile, Size;
    if es == [] {
      NeatPlain([], n, l, 0);
      ls := {};
    } else if |es| == 1 {
      OneSize(es[0]);
      assert es == [es[0]];
      ls := CompileNeat(st, li, l, n, es[0]);
    } else {
      var c1 := Compile(st, li, n, n + 1, es[0]);
      var l1 := CompileNeat(st, li, n, n + 1, es[0]);
      var l2 := ListNeat(st, li, l, c1.next, es[1..]);
      ls := NeatJoin(c1, l1, CompileList(st, li, l, c1.next, es[1..]), l2, n, l);
    }
  }

  lemma OneSize(e: Expr)
    ensures SizeList([e]) == Size(e)
  {
    hide Size;
    assert [e][1..] == [];
  }

  lemma {:induction false} OperandsNeat(st: Names, li: nat, l: nat, n: nat, es: seq<Expr>, i: Insn)
    returns (ls: set<nat>)
    requires Plain([i])
    ensures Neat(CompileOperands(st, li, n, es, i), ls, l, n)
    decreases SizeList(es), 5
  {
    hide Neat, CompileList, Plain;
    var l0 := ListNeat(st, li, n, n + 1, es);
    ls := NeatThenInsn(CompileList(st, li, n, n + 1, es), l0, n, i, l);
  }

  lemma {:induction false} IfNeat(st: Names, li: nat, l: nat, n: nat, x: Expr, y: Expr, z: Expr) returns (ls: set<nat>)
    ensures Neat(Compile(st, li, l, n, If(x, y, z)), ls, l, n)
    decreases Size(If(x, y, z)), 0
  {
    hide Compile, Neat, Size;
    var c, c1, c2 := IfCode(st, li, l, n, x, y, z);
    var l0 := CompileNeat(st, li, n, n + 2, x);
    var l1 := CompileNeat(st, li, l, c.next, y);
    var l2 := CompileNeat(st, li, l, c1.next, z);
    ls := IfTidy(c, l0, c1, l1, c2, l2, l, n);
  }

  lemma IfTidy(c: Code, l0: set<nat>, c1: Code, l1: set<nat>, c2: Code, l2: set<nat>, l: nat, n: nat)
    returns (ls: set<nat>)
    requires Neat(c, l0, n, n + 2) && Neat(c1, l1, l, c.next) && Neat(c2, l2, l, c1.next)
    ensures Neat(Code(c2.next, true, c.insns + Landing(c.flag, n) + [CJMP(false, n + 1)] + c1.insns
      + Parting(c1.flag, l)
                                     + [LABEL(n + 1)] + c2.insns + Parting(c2.flag, l),
                                       Max(c.locals, Max(c1.locals, c2.locals))), ls, l, n)
  {
    hide Tidy, Landing, Parting;
    NeatThenLanding(c, l0, n, n + 2);
    var s0 := c.insns + Landing(c.flag, n);
    var m0 := l0 + Only(c.flag, n);
    TidyThenJump(s0, m0, m0, CJMP(false, n + 1), n + 1);
    var s1, o1 := s0 + [CJMP(false, n + 1)], m0 + {n + 1};
    TidyConcat(s1, m0, o1, c1.insns, l1, l1 + Only(c1.flag, l));
    var s2, m2, o2 := s1 + c1.insns, m0 + l1, o1 + (l1 + Only(c1.flag, l)) + {l};
    TidyMore(s2, m2, o1 + (l1 + Only(c1.flag, l)), o2);
    TidyThenParting(s2, m2, o2, c1.flag, l);
    var s3 := s2 + Parting(c1.flag, l);
    TidyThenLabel(s3, m2, o2, LABEL(n + 1), n + 1);
    var s4, m4 := s3 + [LABEL(n + 1)], m2 + {n + 1};
    TidyConcat(s4, m4, o2, c2.insns, l2, l2 + Only(c2.flag, l));
    var o5 := o2 + (l2 + Only(c2.flag, l));
    TidyThenParting(s4 + c2.insns, m4 + l2, o5, c2.flag, l);
    ls := m4 + l2;
    TidyMore(s4 + c2.insns + Parting(c2.flag, l), ls, o5, ls + {l});
  }

  lemma {:induction false} WhileNeat(st: Names, li: nat, l: nat, n: nat, x: Expr, y: Expr) returns (ls: set<nat>)
    ensures Neat(Compile(st, li, l, n, While(x, y)), ls, l, n)
    decreases Size(While(x, y)), 0
  {
    hide Compile, Neat, Size;
    var c, b := WhileCode(st, li, l, n, x, y);
    var l0 := CompileNeat(st, li, n, n + 3, x);
    var l1 := CompileNeat(st, li, n + 2, c.next, y);
    ls := WhileTidy(c, l0, b, l1, l, n);
  }

  lemma WhileTidy(c: Code, l0: set<nat>, b: Code, l1: set<nat>, l: nat, n: nat) returns (ls: set<nat>)
    requires Neat(c, l0, n, n + 3) && Neat(b, l1, n + 2, c.next)
    ensures Neat(Code(b.next, false, [JMP(n + 2), FLABEL(n + 1)] + b.insns + [LABEL(n + 2)] + c.insns
      + Landing(c.flag, n) + [CJMP(true, n + 1)],
                      Max(c.locals, b.locals)), ls, l, n)
  {
    hide Tidy, Landing;
    TidyJump(JMP(n + 2), n + 2);
    TidyThenLabel([JMP(n + 2)], {}, {n + 2}, FLABEL(n + 1), n + 1);
    var s0 := [JMP(n + 2), FLABEL(n + 1)];
    assert [JMP(n + 2)] + [FLABEL(n + 1)] == s0 && {} + {n + 1} == {n + 1};
    TidyConcat(s0, {n + 1}, {n + 2}, b.insns, l1, l1 + Only(b.flag, n + 2));
    var s1, m1, o1 := s0 + b.insns, {n + 1} + l1, {n + 2} + (l1 + Only(b.flag, n + 2));
    TidyThenLabel(s1, m1, o1, LABEL(n + 2), n + 2);
    var s2, m2 := s1 + [LABEL(n + 2)], m1 + {n + 2};
    TidyConcat(s2, m2, o1, c.insns, l0, l0 + Only(c.flag, n));
    var s3, m3, o3 := s2 + c.insns, m2 + l0, o1 + (l0 + Only(c.flag, n));
    TidyThenLanding(s3, m3, o3, c.flag, n);
    var s4, m4 := s3 + Landing(c.flag, n), m3 + Only(c.flag, n);
    TidyThenJump(s4, m4, o3, CJMP(true, n + 1), n + 1);
    ls := m4;
    TidyMore(s4 + [CJMP(true, n + 1)], ls, o3 + {n + 1}, ls + Only(false, l));
  }

  lemma {:induction false} DoWhileNeat(st: Names, li: nat, l: nat, n: nat, x: Expr, y: Expr) returns (ls: set<nat>)
    ensures Neat(Compile(st, li, l, n, DoWhile(y, x)), ls, l, n)
    decreases Size(DoWhile(y, x)), 0
  {
    hide Compile, Neat, Size;
    var c, b := DoWhileCode(st, li, l, n, x, y);
    var l0 := CompileNeat(st, li, n, n + 3, x);
    var l1 := CompileNeat(st, li, n + 2, c.next, y);
    ls := DoWhileTidy(c, l0, b, l1, l, n);
  }

  lemma DoWhileTidy(c: Code, l0: set<nat>, b: Code, l1: set<nat>, l: nat, n: nat) returns (ls: set<nat>)
    requires Neat(c, l0, n, n + 3) && Neat(b, l1, n + 2, c.next)
    ensures Neat(Code(b.next, false, [LABEL(n + 1)] + b.insns + Landing(b.flag, n + 2) + c.insns + Landing(c.flag, n)
      + [CJMP(true, n + 1)],
                      Max(c.locals, b.locals)), ls, l, n)
  {
    hide Tidy, Landing;
    TidyLabel(LABEL(n + 1), n + 1);
    TidyConcat([LABEL(n + 1)], {n + 1}, {}, b.insns, l1, l1 + Only(b.flag, n + 2));
    var s1, m1, o1 := [LABEL(n + 1)] + b.insns, {n + 1} + l1, {} + (l1 + Only(b.flag, n + 2));
    TidyThenLanding(s1, m1, o1, b.flag, n + 2);
    var s2, m2 := s1 + Landing(b.flag, n + 2), m1 + Only(b.flag, n + 2);
    TidyConcat(s2, m2, o1, c.insns, l0, l0 + Only(c.flag, n));
    var s3, m3, o3 := s2 + c.insns, m2 + l0, o1 + (l0 + Only(c.flag, n));
    TidyThenLanding(s3, m3, o3, c.flag, n);
    var s4, m4 := s3 + Landing(c.flag, n), m3 + Only(c.flag, n);
    TidyThenJump(s4, m4, o3, CJMP(true, n + 1), n + 1);
    ls := m4;
    TidyMore(s4 + [CJMP(true, n + 1)], ls, o3 + {n + 1}, ls + Only(false, l));
  }

  lemma {:induction false} ScopeNeat(st: Names, li: nat, l: nat, n: nat, ds: seq<(string, Option<Expr>)>, x: Expr)
    returns (ls: set<nat>)
    ensures Neat(Compile(st, li, l, n, Scope(ds, x)), ls, l, n)
    decreases Size(Scope(ds, x)), 0
  {
    hide Compile, Tidy, Size, WithInits, DeclNames, Open, Above;
    var e, xs, c := ScopeCode(st, li, l, n, ds, x);
    ls := CompileNeat(Open(st, xs, li), Above(st, xs, li), l, n + 2, e);
    TidyPlain([SLABEL(n)]);
    TidyConcat([SLABEL(n)], {}, {}, c.insns, ls, ls + Only(c.flag, l));
    assert {} + ls == ls && {} + (ls + Only(c.flag, l)) == ls + Only(c.flag, l);
    TidyThenPlain([SLABEL(n)] + c.insns, ls, ls + Only(c.flag, l), [SLABEL(n + 1)]);
  }

  // Cases

  /** A branch up to the end of its bindings. */
  lemma BranchHeadTidy(blab: nat, lab: Option<nat>, pcode: Prg, lp: set<nat>, op: set<nat>, bind: Prg)
    returns (ls: set<nat>)
    requires Tidy(pcode, lp, op) && Plain(bind) && (lab.Some? ==> lab.value !in lp)
    ensures ls == lp + (if lab.Some? then {lab.value} else {})
    ensures Tidy(Entry(blab, lab) + pcode + bind, ls, op)
  {
    EntryTidy(blab, lab);
    hide Tidy, Plain, Entry;
    var le := if lab.Some? then {lab.value} else {};
    TidyConcat(Entry(blab, lab), le, {}, pcode, lp, op);
    assert {} + op == op && le + lp == lp + le;
    TidyThenPlain(Entry(blab, lab) + pcode, le + lp, op, bind);
    ls := lp + le;
  }

  lemma EntryTidy(blab: nat, lab: Option<nat>)
    ensures Tidy(Entry(blab, lab), if lab.Some? then {lab.value} else {}, {})
  {
    if lab.Some? {
      assert Defines(Entry(blab, lab)[1], lab.value);
    }
  }

  /** The body of a branch and its way out. */
  lemma BranchTailTidy(s: Prg, ls: set<nat>, out: set<nat>, c: Code, lc: set<nat>, last: bool, elab: nat, l: nat)
    returns (ls': set<nat>)
    requires Tidy(s, ls, out) && Tidy(c.insns, lc, lc + Only(c.flag, l)) && ls !! lc
    ensures ls' == ls + lc
    ensures Tidy(s + c.insns + (if last then [] else [JMP(l)]) + [SLABEL(elab)], ls', out + lc + {l})
  {
    hide Tidy;
    TidyConcat(s, ls, out, c.insns, lc, lc + Only(c.flag, l));
    ls' := ls + lc;
    var o := out + (lc + Only(c.flag, l));
    var s1 := s + c.insns;
    var s2 := s1 + (if last then [] else [JMP(l)]);
    if last {
      assert s1 + [] == s1;
    } else {
      TidyThenJump(s1, ls', o, JMP(l), l);
    }
    TidyMore(s2, ls', if last then o else o + {l}, out + lc + {l});
    TidyThenPlain(s2, ls', out + lc + {l}, [SLABEL(elab)]);
  }

  lemma {:induction false} BranchesTidy(st: Names, li: nat, l: nat, lfail: nat, n: nat, brs: seq<(Pattern, Expr)>,
      lab: Option<nat>)
    returns (ls: set<nat>)
    requires lab.Some? ==> lab.value < n
    ensures var (b, fail) := CompileBranches(st, li, l, lfail, n, brs, lab);
      && Tidy(b.insns, ls, ls + {l} + Only(fail, lfail))
      && n <= b.next && (forall x :: x in ls ==> n <= x < b.next || (lab.Some? && x == lab.value))
      && (brs != [] && lab.Some? ==> lab.value in ls)
    decreases SizeBranches(brs), 4
  {
    hide Tidy, Compile, PatternCode, Bindings, BindCode, BoundNames, Open, Above, Entry, Plain, Size, SizeBranches;
    if brs == [] {
      TidyPlain([]);
      ls := {};
      TidyMore([], {}, {}, ls + {l} + Only(true, lfail));
    } else {
      hide CompileBranches;
      var lfalse, n0, n1, canFail, pcode, c, rest := BranchCode(st, li, l, lfail, n, brs, lab);
      var bs := Bindings(brs[0].0, []);
      var inner := Open(st, BoundNames(bs), li);
      var bind := BindCode(inner, bs) + [DROP];
      var head := Entry(n1, lab) + pcode + bind;
      var lp := PatternTidy(brs[0].0, lfalse, n0);
      BindPlain(inner, bs);
      PlainMore(BindCode(inner, bs));
      var lh := BranchHeadTidy(n1, lab, pcode, lp, lp + Only(canFail, lfalse), bind);
      var lc := CompileNeat(inner, Above(st, BoundNames(bs), li), l, n1 + 2, brs[0].1);
      var lb := BranchTailTidy(head, lh, lp + Only(canFail, lfalse), c, lc, |brs| == 1, n1 + 1, l);
      var code := head + c.insns + (if |brs| == 1 then [] else [JMP(l)]) + [SLABEL(n1 + 1)];
      var out := lp + Only(canFail, lfalse) + lc + {l};
      var lr := {};
      if canFail && |brs| > 1 {
        lr := BranchesTidy(st, li, l, lfail, c.next, brs[1..], Some(lfalse));
        assert lfalse in lr by { assert brs[1..] != []; }
      } else {
        TidyPlain([]);
        TidyMore([], {}, {}, lr + {l} + Only(rest.1, lfail));
      }
      TidyConcat(code, lb, out, rest.0.insns, lr, lr + {l} + Only(rest.1, lfail));
      ls := lb + lr;
      TidyMore(code + rest.0.insns, ls, out + (lr + {l} + Only(rest.1, lfail)), ls + {l} + Only(rest.1, lfail));
    }
  }

  lemma PlainMore(code: Prg)
    requires Plain(code)
    ensures Plain(code + [DROP])
  {
  }

  lemma {:induction false} CaseNeat(st: Names, li: nat, l: nat, n: nat, x: Expr, brs: seq<(Pattern, Expr)>,
      valued: bool) returns (ls: set<nat>)
    ensures Neat(Compile(st, li, l, n, Case(x, brs, valued)), ls, l, n)
    decreases Size(Case(x, brs, valued)), 0
  {
    hide Compile, CompileBranches, Tidy, Size, SizeBranches;
    var c, b := CaseCode(st, li, l, n, x, brs, valued);
    var l0 := CompileNeat(st, li, n + 1, n + 2, x);
    var l1 := BranchesTidy(st, li, l, n, c.next, brs, None);
    NeatThenLanding(c, l0, n + 1, n + 2);
    ls := CaseTidy(c.insns + Landing(c.flag, n + 1), l0 + Only(c.flag, n + 1), b.0.insns, l1, b.1, valued, l, n);
  }

  lemma CaseTidy(s: Prg, l0: set<nat>, b: Prg, l1: set<nat>, fail: bool, valued: bool, l: nat, n: nat)
    returns (ls: set<nat>)
    requires Tidy(s, l0, l0) && Tidy(b, l1, l1 + {l} + Only(fail, n)) && l0 !! l1 && n !in l0 && n !in l1
    ensures ls == l0 + l1 + Only(fail, n)
    ensures Tidy(s + [DUP] + b + [JMP(l)] + (if fail then [LABEL(n), FAIL(valued), JMP(l)] else []), ls, ls + {l})
  {
    hide Tidy;
    TidyThenPlain(s, l0, l0, [DUP]);
    TidyConcat(s + [DUP], l0, l0, b, l1, l1 + {l} + Only(fail, n));
    var m, o := l0 + l1, l0 + (l1 + {l} + Only(fail, n));
    TidyThenJump(s + [DUP] + b, m, o, JMP(l), l);
    var s1 := s + [DUP] + b + [JMP(l)];
    ls := m + Only(fail, n);
    if fail {
      TidyThenLabel(s1, m, o + {l}, LABEL(n), n);
      TidyThenPlain(s1 + [LABEL(n)], ls, o + {l}, [FAIL(valued)]);
      TidyThenJump(s1 + [LABEL(n)] + [FAIL(valued)], ls, o + {l}, JMP(l), l);
      assert s1 + [LABEL(n)] + [FAIL(valued)] + [JMP(l)] == s1 + [LABEL(n), FAIL(valued), JMP(l)];
      TidyMore(s1 + [LABEL(n), FAIL(valued), JMP(l)], ls, o + {l} + {l}, ls + {l});
    } else {
      assert s1 + [] == s1 && m + {} == m;
      TidyMore(s1, ls, o + {l}, ls + {l});
    }
  }

  predicate IsPair(e: Expr) {
    e.ElemRef? || e.Seq?
  }

  lemma PairCode(st: Names, li: nat, l: nat, n: nat, e: Expr) returns (es: seq<Expr>)
    requires IsPair(e)
    ensures Compile(st, li, l, n, e) == CompileList(st, li, l, n, es) && SizeList(es) < Size(e)
  {
    hide CompileList;
    match e
    case ElemRef(x, y) => SizeTwo(x, y); es := [x, y];
    case Seq(x, y) => SizeTwo(x, y); es := [x, y];
  }

  predicate IsSingle(e: Expr) {
    e.Ignore? || (e.Assign? && e.target.Ref?)
  }

  lemma SingleCode(st: Names, li: nat, l: nat, n: nat, e: Expr) returns (x: Expr, i: Insn)
    requires IsSingle(e)
    ensures Compile(st, li, l, n, e) == AddCode(Compile(st, li, n, n + 1, x), n, false, [i])
    ensures Plain([i]) && Size(x) < Size(e)
  {
    hide AddCode;
    match e
    case Ignore(y) => x, i := y, DROP;
    case Assign(t, y) => x, i := y, ST(Designated(st, t.name));
  }

  predicate IsJoined(e: Expr) {
    e.Binop? || e.Elem? || e.Array? || e.Sexp? || e.Call? || (e.Assign? && !e.target.Ref?)
  }

  lemma JoinedCode(st: Names, li: nat, l: nat, n: nat, e: Expr) returns (es: seq<Expr>, i: Insn)
    requires IsJoined(e)
    ensures Compile(st, li, l, n, e) == CompileOperands(st, li, n, es, i)
    ensures Plain([i]) && SizeList(es) < Size(e)
  {
    hide CompileOperands;
    match e
    case Binop(op, x, y) => SizeTwo(x, y); es, i := [x, y], BINOP(op);
    case Elem(x, y) => SizeTwo(x, y); es, i := [x, y], ELEM;
    case Array(xs) => es, i := xs, CALL(".array", |xs|);
    case Sexp(t, xs) => es, i := xs, SEXP(t, |xs|);
    case Call(f, xs) =>
      if f.Var? && Designated(st, f.name).Fun? {
        es, i := xs, CALL(Designated(st, f.name).name, |xs|);
      } else {
        SizeCons(f, xs);
        es, i := [f] + xs, CALLC(|xs|);
      }
    case Assign(x, y) => SizeTwo(x, y); es, i := [x, y], STA;
  }

  lemma SimpleCode(st: Names, li: nat, l: nat, n: nat, e: Expr) returns (code: Prg)
    requires !IsPair(e) && !IsSingle(e) && !IsJoined(e)
    requires !e.If? && !e.While? && !e.DoWhile? && !e.Case? && !e.Scope?
    ensures Compile(st, li, l, n, e) == Code(n, false, code, 0) && Plain(code)
  {
    code := Compile(st, li, l, n, e).insns;
  }

  /** The labels of compiled code come from the labels it was given, each is defined once, and
      code whose flag is clear never jumps to its target label. */
  lemma {:induction false} CompileNeat(st: Names, li: nat, l: nat, n: nat, e: Expr) returns (ls: set<nat>)
    ensures Neat(Compile(st, li, l, n, e), ls, l, n)
    decreases Size(e), 3
  {
    hide Neat, Compile, CompileOperands, CompileList, Plain, Size, SizeList;
    if e.If? {
      ls := IfNeat(st, li, l, n, e.cond, e.thn, e.els);
    } else if e.While? {
      ls := WhileNeat(st, li, l, n, e.cond, e.body);
    } else if e.DoWhile? {
      ls := DoWhileNeat(st, li, l, n, e.cond, e.body);
    } else if e.Case? {
      ls := CaseNeat(st, li, l, n, e.scrutinee, e.branches, e.valued);
    } else if e.Scope? {
      ls := ScopeNeat(st, li, l, n, e.decls, e.body);
    } else if IsPair(e) {
      var es := PairCode(st, li, l, n, e);
      ls := ListNeat(st, li, l, n, es);
    } else if IsSingle(e) {
      var x, i := SingleCode(st, li, l, n, e);
      var l0 := CompileNeat(st, li, n, n + 1, x);
      ls := NeatThenInsn(Compile(st, li, n, n + 1, x), l0, n, i, l);
    } else if IsJoined(e) {
      var es, i := JoinedCode(st, li, l, n, e);
      ls := OperandsNeat(st, li, l, n, es, i);
    } else {
      var code := SimpleCode(st, li, l, n, e);
      NeatPlain(code, n, l, 0);
      ls := {};
    }
  }
}
