/** Stack depths in compiled code: every edge into a label finds the same depth there. */
module StackDepths {
  import opened Wrappers
  import opened Syntax
  import opened Reference
  import opened Direct
  import opened StackMachine
  import opened Compiler
  import opened Unfolding
  import Labels
  import Continuations

  /** The depth at the current position, whether the position is dead, and the depths with
      which labels have been jumped to and reached. */
  datatype Depths = Depths(depth: nat, barrier: bool, jumped: map<nat, nat>, placed: map<nat, nat>)

  /** The depth after an instruction that only pushes and pops; `None` if operands lack. An
      address takes two places, as an element reference does. */
  function After(i: Insn, d: nat): Option<nat> {
    match i
    case CONST(_) => Some(d + 1)
    case STRING(_) => Some(d + 1)
    case LD(_) => Some(d + 1)
    case LDA(_) => Some(d + 2)
    case ST(_) => if d < 1 then None else Some(d)
    case STI => if d < 2 then None else Some(d - 1)
    case STA => if d < 3 then None else Some(d - 2)
    case ELEM => if d < 2 then None else Some(d - 1)
    case BINOP(_) => if d < 2 then None else Some(d - 1)
    case SEXP(_, n) => if d < n then None else Some(d - n + 1)
    case CALL(_, n) => if d < n then None else Some(d - n + 1)
    case CALLC(n) => if d < n + 1 then None else Some(d - n)
    case CLOSURE(_, _) => Some(d + 1)
    case DROP => if d < 1 then None else Some(d - 1)
    case DUP => if d < 1 then None else Some(d + 1)
    case SWAP => if d < 2 then None else Some(d)
    case RET => if d < 1 then None else Some(d)
    case TAG(_, _) => if d < 1 then None else Some(d)
    case ARRAY(_) => if d < 1 then None else Some(d)
    case PATT(p) => if p == StrCmp then (if d < 2 then None else Some(d - 1)) else if d < 1 then None else Some(d)
    case SLABEL(_) => Some(d)
    case BEGIN(_) => if d != 0 then None else Some(0)
    case END => if d != 1 then None else Some(0)
    case FAIL(valued) => if d < 1 then None else Some(if valued then d else d - 1)
    case _ => None
  }

  /** An edge to `l`, which must find the depth of the edges before it. */
  function Send(t: Depths, l: nat): Option<Depths> {
    if (l in t.jumped && t.jumped[l] != t.depth) || (l in t.placed && t.placed[l] != t.depth) then None
    else Some(t.(jumped := t.jumped[l := t.depth]))
  }

  /** The label itself. */
  function Land(t: Depths, l: nat): Option<Depths> {
    if (l in t.jumped && t.jumped[l] != t.depth) || (l in t.placed && t.placed[l] != t.depth) then None
    else Some(t.(placed := t.placed[l := t.depth]))
  }

  function DStep(t: Depths, i: Insn): Option<Depths> {
    if t.barrier then
      match i
      case LABEL(l) =>
        if l in t.jumped then Land(t.(barrier := false, depth := t.jumped[l]), l) else Some(t.(depth := 0))
      case FLABEL(l) => Land(t.(barrier := false), l)
      case _ => Some(t)
    else
      match i
      case LABEL(l) => Land(t, l)
      case FLABEL(l) => Land(t, l)
      case JMP(l) => (match Send(t, l) case Some(t') => Some(t'.(barrier := true)) case None => None)
      case CJMP(_, l) => if t.depth < 1 then None else Send(t.(depth := t.depth - 1), l)
      case _ => (match After(i, t.depth) case Some(d) => Some(t.(depth := d)) case None => None)
  }

  function DRun(t: Depths, p: Prg): Option<Depths>
    decreases |p|
  {
    if p == [] then Some(t)
    else match DRun(t, p[..|p| - 1])
      case Some(t') => DStep(t', p[|p| - 1])
      case None => None
  }

  lemma {:induction false} DRunConcat(t: Depths, a: Prg, b: Prg)
    requires DRun(t, a).Some?
    ensures DRun(t, a + b) == DRun(DRun(t, a).value, b)
    decreases |b|
  {
    hide DStep;
    if b == [] {
      assert a + b == a;
    } else {
      var p := a + b;
      assert p[..|p| - 1] == a + b[..|b| - 1] && p[|p| - 1] == b[|b| - 1];
      DRunConcat(t, a, b[..|b| - 1]);
    }
  }

  lemma DRunOne(t: Depths, i: Insn)
    ensures DRun(t, [i]) == DStep(t, i)
  {
    hide DStep;
    assert [i][..0] == [];
    assert DRun(t, []) == Some(t);
  }

  /** One more instruction. */
  lemma DSnoc(t: Depths, a: Prg, i: Insn)
    requires DRun(t, a).Some?
    ensures DRun(t, a + [i]) == DStep(DRun(t, a).value, i)
  {
    hide DStep;
    assert (a + [i])[..|a|] == a;
  }

  // Labels

  /** Labels that have not been met. */
  ghost predicate Unseen(t: Depths, lo: nat, hi: nat) {
    forall x :: lo <= x < hi ==> x !in t.jumped && x !in t.placed
  }

  /** All edges to `l` so far have found depth `d`. */
  ghost predicate Aims(t: Depths, l: nat, d: nat) {
    (l in t.jumped ==> t.jumped[l] == d) && (l in t.placed ==> t.placed[l] == d)
  }

  /** Nothing has happened to the label `x`. */
  ghost predicate Still(t: Depths, t': Depths, x: nat) {
    && (x in t'.jumped <==> x in t.jumped) && (x in t.jumped ==> t'.jumped[x] == t.jumped[x])
    && (x in t'.placed <==> x in t.placed) && (x in t.placed ==> t'.placed[x] == t.placed[x])
  }

  /** Only labels from `lo` to `hi`, and `l`, have been touched. */
  ghost predicate Kept(t: Depths, t': Depths, lo: nat, hi: nat, l: nat) {
    forall x: nat :: !(lo <= x < hi) && x != l ==> Still(t, t', x)
  }

  /** Code that is entered at `t` and leaves `d` values deep: at its end if its flag is clear,
      by jumps to `l` only if it is set. */
  ghost predicate Leads(t: Depths, code: Prg, flag: bool, l: nat, d: nat, lo: nat, hi: nat, t': Depths) {
    && DRun(t, code) == Some(t') && Aims(t', l, d) && Kept(t, t', lo, hi, l)
    && if flag then t'.barrier && l in t'.jumped else !t'.barrier && t'.depth == d
  }

  /** Where such code may start. */
  ghost predicate Ready(t: Depths, l: nat, d: nat, lo: nat, hi: nat) {
    !t.barrier && Unseen(t, lo, hi) && Aims(t, l, d) && lo <= hi && !(lo <= l < hi)
  }

  /** After code and the label it jumps to, if any, one is `d` deep. */
  lemma Landed(t: Depths, code: Prg, flag: bool, l: nat, d: nat, lo: nat, hi: nat, t': Depths) returns (t2: Depths)
    requires Leads(t, code, flag, l, d, lo, hi, t')
    ensures DRun(t, code + Landing(flag, l)) == Some(t2) && !t2.barrier && t2.depth == d && Kept(t, t2, lo, hi, l)
  {
    if flag {
      hide DStep;
      DSnoc(t, code, LABEL(l));
      t2 := DStepLabel(t', l, d);
      forall x: nat | !(lo <= x < hi) && x != l ensures Still(t, t2, x) {
        assert Still(t, t', x);
      }
    } else {
      assert code + [] == code;
      t2 := t';
    }
  }

  lemma DStepLabel(t: Depths, l: nat, d: nat) returns (t2: Depths)
    requires t.barrier && l in t.jumped && Aims(t, l, d)
    ensures DStep(t, LABEL(l)) == Some(t2) && !t2.barrier && t2.depth == d
    ensures t2.jumped == t.jumped && t2.placed == t.placed[l := d]
  {
    t2 := t.(barrier := false, depth := d, placed := t.placed[l := d]);
  }

  lemma KeptJoin(a: Depths, b: Depths, c: Depths, lo: nat, hi: nat, l: nat)
    requires Kept(a, b, lo, hi, l) && Kept(b, c, lo, hi, l)
    ensures Kept(a, c, lo, hi, l)
  {
    forall x: nat | !(lo <= x < hi) && x != l ensures Still(a, c, x) {
      assert Still(a, b, x) && Still(b, c, x);
    }
  }

  lemma KeptWider(a: Depths, b: Depths, lo: nat, hi: nat, l: nat, lo': nat, hi': nat, l': nat)
    requires Kept(a, b, lo, hi, l) && lo' <= lo && hi <= hi' && (l == l' || lo' <= l < hi')
    ensures Kept(a, b, lo', hi', l')
  {
  }

  lemma UnseenKept(a: Depths, b: Depths, lo: nat, hi: nat, l: nat, lo': nat, hi': nat)
    requires Kept(a, b, lo, hi, l) && Unseen(a, lo', hi') && (hi' <= lo || hi <= lo') && !(lo' <= l < hi')
    ensures Unseen(b, lo', hi')
  {
    forall x | lo' <= x < hi' ensures x !in b.jumped && x !in b.placed {
      assert Still(a, b, x);
    }
  }

  lemma AimsKept(a: Depths, b: Depths, lo: nat, hi: nat, l: nat, l': nat, d: nat)
    requires Kept(a, b, lo, hi, l) && Aims(a, l', d) && !(lo <= l' < hi) && l' != l
    ensures Aims(b, l', d)
  {
    assert Still(a, b, l');
  }

  // Straight-line code

  /** Code without labels and jumps that takes the depth from `d` to `d2`. */
  ghost predicate Moves(p: Prg, d: nat, d2: nat)
    decreases |p|
  {
    if p == [] then d2 == d
    else After(p[0], d).Some? && Moves(p[1..], After(p[0], d).value, d2)
  }

  lemma DStepStraight(t: Depths, i: Insn)
    requires !t.barrier && After(i, t.depth).Some?
    ensures DStep(t, i) == Some(t.(depth := After(i, t.depth).value))
  {
  }

  lemma {:induction false} MovesRun(t: Depths, p: Prg, d2: nat)
    requires !t.barrier && Moves(p, t.depth, d2)
    ensures DRun(t, p) == Some(t.(depth := d2))
    decreases |p|
  {
    hide After;
    if p == [] {
      assert DRun(t, p) == Some(t);
    } else {
      hide DStep;
      DStepStraight(t, p[0]);
      var t1 := t.(depth := After(p[0], t.depth).value);
      MovesRun(t1, p[1..], d2);
      assert p == [p[0]] + p[1..];
      DRunOne(t, p[0]);
      DRunConcat(t, [p[0]], p[1..]);
    }
  }

  lemma {:induction false} MovesJoin(a: Prg, b: Prg, d: nat, d1: nat, d2: nat)
    requires Moves(a, d, d1) && Moves(b, d1, d2)
    ensures Moves(a + b, d, d2)
    decreases |a|
  {
    hide After;
    if a == [] {
      assert a + b == b;
    } else {
      assert (a + b)[1..] == a[1..] + b;
      MovesJoin(a[1..], b, After(a[0], d).value, d1, d2);
    }
  }

  lemma MovesOne(i: Insn, d: nat)
    requires After(i, d).Some?
    ensures Moves([i], d, After(i, d).value)
  {
    hide After;
    assert [i][1..] == [];
  }

  /** Straight-line code after other code. */
  lemma ThenMoves(t: Depths, a: Prg, b: Prg, d2: nat)
    requires DRun(t, a).Some? && !DRun(t, a).value.barrier && Moves(b, DRun(t, a).value.depth, d2)
    ensures DRun(t, a + b) == Some(DRun(t, a).value.(depth := d2))
  {
    hide DStep, Moves, DRun;
    DRunConcat(t, a, b);
    MovesRun(DRun(t, a).value, b, d2);
  }

  lemma {:induction false} PathMoves(path: seq<nat>, d: nat)
    requires d >= 1
    ensures Moves(PathCode(path), d, d)
    decreases |path|
  {
    if path != [] {
      PathMoves(path[1..], d);
      MovesOne(CONST(path[0]), d);
      MovesOne(ELEM, d + 1);
      MovesJoin([CONST(path[0])], [ELEM], d, d + 1, d);
      assert [CONST(path[0])] + [ELEM] == [CONST(path[0]), ELEM];
      MovesJoin([CONST(path[0]), ELEM], PathCode(path[1..]), d, d, d);
    }
  }

  lemma {:induction false} BindMoves(st: Names, bs: seq<(string, seq<nat>)>, d: nat)
    requires d >= 1
    ensures Moves(BindCode(st, bs), d, d)
    decreases |bs|
  {
    hide PathCode, Designated, Moves;
    if bs == [] {
      NoMoves(d);
    } else {
      var g := Designated(st, bs[0].0);
      var path := PathCode(bs[0].1);
      MovesOne(DUP, d);
      PathMoves(bs[0].1, d + 1);
      MovesJoin([DUP], path, d, d + 1, d + 1);
      MovesOne(ST(g), d + 1);
      MovesOne(DROP, d + 1);
      MovesJoin([ST(g)], [DROP], d + 1, d + 1, d);
      assert [ST(g)] + [DROP] == [ST(g), DROP];
      MovesJoin([DUP] + path, [ST(g), DROP], d, d + 1, d);
      BindMoves(st, bs[1..], d);
      MovesJoin([DUP] + path + [ST(g), DROP], BindCode(st, bs[1..]), d, d, d);
    }
  }

  lemma NoMoves(d: nat)
    ensures Moves([], d, d)
  {
  }

  // Labels and jumps, one at a time

  /** A jump from live code to `l`, where depth `t.depth` is expected. */
  lemma Jumps(t: Depths, l: nat) returns (t': Depths)
    requires !t.barrier && Aims(t, l, t.depth)
    ensures DStep(t, JMP(l)) == Some(t') && t' == t.(barrier := true, jumped := t.jumped[l := t.depth])
  {
    t' := t.(barrier := true, jumped := t.jumped[l := t.depth]);
  }

  lemma CondJumps(t: Depths, nonzero: bool, l: nat, d: nat) returns (t': Depths)
    requires !t.barrier && t.depth == d + 1 && Aims(t, l, d)
    ensures DStep(t, CJMP(nonzero, l)) == Some(t') && t' == t.(depth := d, jumped := t.jumped[l := d])
  {
    t' := t.(depth := d, jumped := t.jumped[l := d]);
  }

  /** A label that live code falls into. */
  lemma FallsInto(t: Depths, i: Insn, l: nat) returns (t': Depths)
    requires (i == LABEL(l) && !t.barrier) || i == FLABEL(l)
    requires Aims(t, l, t.depth)
    ensures DStep(t, i) == Some(t') && t' == t.(barrier := false, placed := t.placed[l := t.depth])
  {
    t' := t.(barrier := false, placed := t.placed[l := t.depth]);
  }

  /** Touching one label only. */
  lemma KeptOne(t: Depths, t': Depths, x: nat, lo: nat, hi: nat, l: nat)
    requires lo <= x < hi || x == l
    requires t'.jumped == t.jumped || (x in t'.jumped && t'.jumped == t.jumped[x := t'.jumped[x]])
    requires t'.placed == t.placed || (x in t'.placed && t'.placed == t.placed[x := t'.placed[x]])
    ensures Kept(t, t', lo, hi, l)
  {
  }

  // Patterns

  /** Pattern code consumes one value; failures arrive at `lfalse` with the same depth. */
  ghost predicate Tests(t: Depths, code: Prg, canFail: bool, lfalse: nat, lo: nat, hi: nat, t': Depths) {
    && t.depth >= 1 && DRun(t, code) == Some(t') && !t'.barrier && t'.depth == t.depth - 1
    && Aims(t', lfalse, t.depth - 1) && (canFail ==> lfalse in t'.jumped) && Kept(t, t', lo, hi, lfalse)
  }

  /** Where a pattern may be tested. */
  ghost predicate Testable(t: Depths, lfalse: nat, lo: nat, hi: nat) {
    t.depth >= 1 && Ready(t, lfalse, t.depth - 1, lo, hi)
  }

  /** A test of the value, and the jump if it fails. */
  lemma SimpleTests(t: Depths, code: Prg, lfalse: nat, n: nat) returns (t': Depths)
    requires Testable(t, lfalse, n, n) && Moves(code, t.depth, t.depth)
    ensures Tests(t, code + [CJMP(false, lfalse)], true, lfalse, n, n, t')
  {
    hide Moves, DStep, DRun;
    MovesRun(t, code, t.depth);
    assert t.(depth := t.depth) == t;
    DSnoc(t, code, CJMP(false, lfalse));
    t' := CondJumps(t, false, lfalse, t.depth - 1);
    KeptOne(t, t', lfalse, n, n, lfalse);
  }

  lemma TestMoves(p: Pattern, lfalse: nat, n: nat, d: nat) returns (code: Prg)
    requires d >= 1 && !p.Wildcard? && !p.Named? && !p.PSexp? && !p.PArray?
    ensures PatternCode(p, lfalse, n) == (n, true, code + [CJMP(false, lfalse)]) && Moves(code, d, d)
  {
    var c := PatternCode(p, lfalse, n).2;
    if p.PConst? || p.PString? {
      code := [c[0]] + [c[1]];
      hide Moves;
      MovesOne(c[0], d);
      MovesOne(c[1], d + 1);
      MovesJoin([c[0]], [c[1]], d, d + 1, d);
      assert code + [CJMP(false, lfalse)] == c;
    } else {
      code := [c[0]];
      hide Moves;
      MovesOne(c[0], d);
      assert code + [CJMP(false, lfalse)] == c;
    }
  }

  lemma {:induction false} PatternTests(p: Pattern, lfalse: nat, n: nat, t: Depths) returns (t': Depths)
    requires Testable(t, lfalse, n, PatternCode(p, lfalse, n).0)
    ensures var (next, canFail, code) := PatternCode(p, lfalse, n); Tests(t, code, canFail, lfalse, n, next, t')
    decreases p
  {
    hide DRun, DStep;
    match p
    case Named(_, q) => t' := PatternTests(q, lfalse, n, t);
    case PSexp(g, ps) => t' := StructureTests(TAG(g, |ps|), ps, lfalse, n, t);
    case PArray(ps) => t' := StructureTests(ARRAY(|ps|), ps, lfalse, n, t);
    case Wildcard =>
      MovesOne(DROP, t.depth);
      MovesRun(t, [DROP], t.depth - 1);
      t' := t.(depth := t.depth - 1);
    case _ =>
      var code := TestMoves(p, lfalse, n, t.depth);
      t' := SimpleTests(t, code, lfalse, n);
  }

  /** The head of a structured pattern up to its failure exit. */
  lemma HeadFirst(test: Insn, n: nat, t: Depths) returns (t': Depths)
    requires (test.TAG? || test.ARRAY?) && t.depth >= 1 && !t.barrier
    requires n !in t.jumped && n !in t.placed && n + 1 !in t.jumped && n + 1 !in t.placed
    ensures DRun(t, [DUP, test, CJMP(true, n), LABEL(n + 1)]) == Some(t')
    ensures t' == t.(jumped := t.jumped[n := t.depth], placed := t.placed[n + 1 := t.depth])
  {
    var d := t.depth;
    var c1 := [DUP] + [test];
    MovesOne(DUP, d);
    MovesOne(test, d + 1);
    MovesJoin([DUP], [test], d, d + 1, d + 1);
    MovesRun(t, c1, d + 1);
    hide DRun, DStep, Moves;
    DSnoc(t, c1, CJMP(true, n));
    var t2 := CondJumps(t.(depth := d + 1), true, n, d);
    var c2 := c1 + [CJMP(true, n)];
    DSnoc(t, c2, LABEL(n + 1));
    t' := FallsInto(t2, LABEL(n + 1), n + 1);
    assert c2 + [LABEL(n + 1)] == [DUP, test, CJMP(true, n), LABEL(n + 1)];
  }

  /** The failure exit, and the label after it. */
  lemma HeadSecond(n: nat, lfalse: nat, t: Depths, d: nat) returns (t': Depths)
    requires !t.barrier && t.depth == d && d >= 1 && Aims(t, lfalse, d - 1) && n in t.jumped && Aims(t, n, d) &&
      n != lfalse
    ensures DRun(t, [DROP, JMP(lfalse), LABEL(n)]) == Some(t') && !t'.barrier && t'.depth == d
    ensures t'.jumped == t.jumped[lfalse := d - 1] && t'.placed == t.placed[n := d]
  {
    hide DStep;
    DRunOne(t, DROP);
    DStepStraight(t, DROP);
    hide DRun;
    var t4 := t.(depth := d - 1);
    DSnoc(t, [DROP], JMP(lfalse));
    var t5 := Jumps(t4, lfalse);
    assert [DROP] + [JMP(lfalse)] == [DROP, JMP(lfalse)];
    DSnoc(t, [DROP, JMP(lfalse)], LABEL(n));
    t' := DStepLabel(t5, n, d);
    assert [DROP, JMP(lfalse)] + [LABEL(n)] == [DROP, JMP(lfalse), LABEL(n)];
  }

  /** The head of a structured pattern: control goes on at its end, as deep as before. */
  lemma HeadTests(test: Insn, n: nat, lfalse: nat, t: Depths, hi: nat) returns (t': Depths)
    requires (test.TAG? || test.ARRAY?) && Testable(t, lfalse, n, hi) && n + 2 <= hi
    ensures DRun(t, Head(test, n, n + 1, lfalse)) == Some(t') && !t'.barrier && t'.depth == t.depth
    ensures Kept(t, t', n, n + 2, lfalse) && Aims(t', n + 1, t.depth) && Aims(t', lfalse, t.depth - 1) &&
      lfalse in t'.jumped
  {
    hide DRun, DStep, Kept, Unseen;
    UnseenTwo(t, n, hi);
    var t1 := HeadFirst(test, n, t);
    t' := HeadSecond(n, lfalse, t1, t.depth);
    var a, b := [DUP, test, CJMP(true, n), LABEL(n + 1)], [DROP, JMP(lfalse), LABEL(n)];
    DRunConcat(t, a, b);
    assert a + b == Head(test, n, n + 1, lfalse);
    KeptThree(t, t', n, lfalse, t.depth);
  }

  lemma UnseenTwo(t: Depths, n: nat, hi: nat)
    requires Unseen(t, n, hi) && n + 2 <= hi
    ensures n !in t.jumped && n !in t.placed && n + 1 !in t.jumped && n + 1 !in t.placed
  {
  }

  lemma KeptThree(t: Depths, t': Depths, n: nat, lfalse: nat, d: nat)
    requires d >= 1 && t'.jumped == t.jumped[n := d][lfalse := d - 1] && t'.placed == t.placed[n + 1 := d][n := d]
    ensures Kept(t, t', n, n + 2, lfalse)
  {
  }

  lemma {:induction false} StructureTests(test: Insn, ps: seq<Pattern>, lfalse: nat, n: nat, t: Depths)
    returns (t': Depths)
    requires test.TAG? || test.ARRAY?
    requires Testable(t, lfalse, n, PatternListCode(ps, 0, n + 1, n + 2).0)
    ensures var (next, code) := PatternListCode(ps, 0, n + 1, n + 2);
      Tests(t, Head(test, n, n + 1, lfalse) + code + [DROP], true, lfalse, n, next, t')
    decreases ps, 1
  {
    hide DRun, DStep, Head, PatternListCode;
    var d := t.depth;
    var (next, code) := PatternListCode(ps, 0, n + 1, n + 2);
    ListRange(ps, 0, n + 1, n + 2);
    var head := Head(test, n, n + 1, lfalse);
    var t1 := HeadTests(test, n, lfalse, t, next);
    UnseenKept(t, t1, n, n + 2, lfalse, n + 2, next);
    var t2 := ListTests(ps, 0, n + 1, n + 2, t1);
    DRunConcat(t, head, code);
    MovesOne(DROP, d);
    ThenMoves(t, head + code, [DROP], d - 1);
    t' := t2.(depth := d - 1);
    KeptWider(t, t1, n, n + 2, lfalse, n, next, lfalse);
    KeptWider(t1, t2, n + 2, next, n + 1, n, next, lfalse);
    KeptJoin(t, t1, t2, n, next, lfalse);
    assert Still(t1, t2, lfalse);
    KeptDepth2(t, t2, t', n, next, lfalse);
  }

  /** Components: each is taken, tested and gone; failures arrive at `ldrop`. */
  lemma {:induction false} ListTests(ps: seq<Pattern>, i: nat, ldrop: nat, n: nat, t: Depths) returns (t': Depths)
    requires t.depth >= 1 && Ready(t, ldrop, t.depth, n, PatternListCode(ps, i, ldrop, n).0)
    ensures var (next, code) := PatternListCode(ps, i, ldrop, n);
      DRun(t, code) == Some(t') && !t'.barrier && t'.depth == t.depth && Aims(t', ldrop, t.depth) &&
        Kept(t, t', n, next, ldrop)
    decreases ps, 0
  {
    hide DRun, DStep, PatternCode;
    if ps == [] {
      t' := t;
      assert DRun(t, []) == Some(t) by { DNothing(t); }
    } else {
      var d := t.depth;
      var (n1, canFail, code) := PatternCode(ps[0], ldrop, n);
      var (n2, rest) := PatternListCode(ps[1..], i + 1, ldrop, n1);
      PatternRange(ps[0], ldrop, n);
      ListRange(ps[1..], i + 1, ldrop, n1);
      var take := [DUP, CONST(i), ELEM];
      TakeMoves(i, d);
      MovesRun(t, take, d + 1);
      var t0 := t.(depth := d + 1);
      var t1 := PatternTests(ps[0], ldrop, n, t0);
      DRunConcat(t, take, code);
      UnseenKept(t0, t1, n, n1, ldrop, n1, n2);
      t' := ListTests(ps[1..], i + 1, ldrop, n1, t1);
      DRunConcat(t, take + code, rest);
      KeptWider(t0, t1, n, n1, ldrop, n, n2, ldrop);
      KeptWider(t1, t', n1, n2, ldrop, n, n2, ldrop);
      KeptJoin(t0, t1, t', n, n2, ldrop);
      KeptDepth(t, t0, t', n, n2, ldrop);
    }
  }

  lemma KeptDepth(t: Depths, t0: Depths, t': Depths, lo: nat, hi: nat, l: nat)
    requires Kept(t0, t', lo, hi, l) && t0.jumped == t.jumped && t0.placed == t.placed
    ensures Kept(t, t', lo, hi, l)
  {
    forall x: nat | !(lo <= x < hi) && x != l ensures Still(t, t', x) {
      assert Still(t0, t', x);
    }
  }

  lemma KeptDepth2(t: Depths, t0: Depths, t': Depths, lo: nat, hi: nat, l: nat)
    requires Kept(t, t0, lo, hi, l) && t'.jumped == t0.jumped && t'.placed == t0.placed
    ensures Kept(t, t', lo, hi, l)
  {
    forall x: nat | !(lo <= x < hi) && x != l ensures Still(t, t', x) {
      assert Still(t, t0, x);
    }
  }

  lemma DNothing(t: Depths)
    ensures DRun(t, []) == Some(t)
  {
  }

  lemma TakeMoves(i: nat, d: nat)
    requires d >= 1
    ensures Moves([DUP, CONST(i), ELEM], d, d + 1)
  {
    hide Moves;
    MovesOne(DUP, d);
    MovesOne(CONST(i), d + 1);
    MovesOne(ELEM, d + 2);
    MovesJoin([DUP], [CONST(i)], d, d + 1, d + 2);
    MovesJoin([DUP] + [CONST(i)], [ELEM], d, d + 2, d + 1);
    assert [DUP] + [CONST(i)] + [ELEM] == [DUP, CONST(i), ELEM];
  }

  lemma {:induction false} PatternRange(p: Pattern, lfalse: nat, n: nat)
    ensures n <= PatternCode(p, lfalse, n).0
    decreases p
  {
    match p
    case Named(_, q) => PatternRange(q, lfalse, n);
    case PSexp(_, ps) => ListRange(ps, 0, n + 1, n + 2);
    case PArray(ps) => ListRange(ps, 0, n + 1, n + 2);
    case _ =>
  }

  lemma {:induction false} ListRange(ps: seq<Pattern>, i: nat, ldrop: nat, n: nat)
    ensures n <= PatternListCode(ps, i, ldrop, n).0
    decreases ps
  {
    hide PatternCode;
    if ps != [] {
      PatternRange(ps[0], ldrop, n);
      ListRange(ps[1..], i + 1, ldrop, PatternCode(ps[0], ldrop, n).0);
    }
  }

  // Expressions

  /** A pattern that always matches. */
  predicate Irrefutable(p: Pattern)
    decreases p
  {
    match p
    case Wildcard => true
    case Named(_, q) => Irrefutable(q)
    case _ => false
  }

  predicate Sealed(brs: seq<(Pattern, Expr)>) {
    brs != [] && (Irrefutable(brs[0].0) || Sealed(brs[1..]))
  }

  /** No case among the places that are assigned can fail. `n` is what `e` leaves. */
  predicate Firm(e: Expr, n: nat)
    decreases Size(e), 0
  {
    match e
    case Binop(_, x, y) => Firm(x, 1) && Firm(y, 1)
    case Elem(x, y) => Firm(x, 1) && Firm(y, 1)
    case ElemRef(x, y) => Firm(x, 1) && Firm(y, 1)
    case Array(es) => FirmAll(es)
    case Sexp(_, es) => FirmAll(es)
    case Call(f, es) => Firm(f, 1) && FirmAll(es)
    case Assign(x, y) => Firm(x, 2) && Firm(y, 1)
    case Seq(x, y) => Firm(x, 0) && Firm(y, n)
    case Ignore(x) => Firm(x, 1)
    case If(x, y, z) => Firm(x, 1) && Firm(y, n) && Firm(z, n)
    case While(x, y) => Firm(x, 1) && Firm(y, 0)
    case DoWhile(y, x) => Firm(x, 1) && Firm(y, 0)
    case Case(x, brs, _) => Firm(x, 1) && FirmBodies(brs, n) && (n == 2 ==> Sealed(brs))
    case Scope(ds, x) =>
      SizeWithInits(ds, x);
      Firm(WithInits(ds, x), n)
    case _ => true
  }

  predicate FirmAll(es: seq<Expr>)
    decreases SizeList(es), 1
  {
    es == [] || (Firm(es[0], 1) && FirmAll(es[1..]))
  }

  /** The bodies that are kept. */
  predicate FirmBodies(brs: seq<(Pattern, Expr)>, n: nat)
    decreases SizeBranches(brs), 1
  {
    brs == [] || (
      assert SizeBranch(brs[0]) == Size(brs[0].1);
      Firm(brs[0].1, n) && (Irrefutable(brs[0].0) || FirmBodies(brs[1..], n)))
  }

  /** `e` leaves `k` values, and its code agrees with itself about that. */
  predicate Yields(e: Expr, k: nat) {
    Leaves(e, k) && Firm(e, k)
  }

  function Sum(ks: seq<nat>): nat {
    if ks == [] then 0 else ks[0] + Sum(ks[1..])
  }

  lemma Ranged(st: Names, li: nat, l: nat, n: nat, e: Expr)
    ensures n <= Compile(st, li, l, n, e).next
  {
    hide Compile;
    var ls := Labels.CompileNeat(st, li, l, n, e);
  }

  lemma ListRanged(st: Names, li: nat, l: nat, n: nat, es: seq<Expr>)
    ensures n <= CompileList(st, li, l, n, es).next
  {
    hide CompileList;
    var ls := Labels.ListNeat(st, li, l, n, es);
  }

  /** Code joined at the fresh label `n`, which stays inside. */
  lemma JoinReady(t: Depths, l: nat, d: nat, n: nat, mid: nat, hi: nat, d1: nat)
    requires Ready(t, l, d, n, hi) && n < mid <= hi
    ensures Ready(t, n, d1, n + 1, mid)
  {
  }

  /** After a part that was joined at `n`, the rest may run. */
  lemma RestReady(t: Depths, t1: Depths, l: nat, d: nat, n: nat, mid: nat, hi: nat)
    requires Ready(t, l, d, n, hi) && n < mid <= hi && Kept(t, t1, n + 1, mid, n) && !t1.barrier
    ensures Ready(t1, l, d, mid, hi)
  {
    UnseenKept(t, t1, n + 1, mid, n, mid, hi);
    AimsKept(t, t1, n + 1, mid, n, l, d);
  }

  lemma {:induction false} ListLeads(st: Names, li: nat, l: nat, n: nat, es: seq<Expr>, ks: seq<nat>, t: Depths)
    returns (t': Depths)
    requires |ks| == |es| && forall i :: 0 <= i < |es| ==> Yields(es[i], ks[i])
    requires Ready(t, l, t.depth + Sum(ks), n, CompileList(st, li, l, n, es).next)
    ensures var c := CompileList(st, li, l, n, es);
      Leads(t, c.insns, c.flag, l, t.depth + Sum(ks), n, c.next, t')
    decreases SizeList(es), 4
  {
    hide DRun, DStep, Compile, Yields, Size, Ready, Leads;
    if es == [] {
      t' := t;
      EmptyLeads(t, l, t.depth, n);
    } else if |es| == 1 {
      assert es == [es[0]] && ks[1..] == [] && Sum(ks) == ks[0];
      t' := CodeLeads(st, li, l, n, es[0], ks[0], t);
    } else {
      var c1 := Compile(st, li, n, n + 1, es[0]);
      var c2 := CompileList(st, li, l, c1.next, es[1..]);
      Ranged(st, li, n, n + 1, es[0]);
      ListRanged(st, li, l, c1.next, es[1..]);
      var d := t.depth + Sum(ks);
      JoinReady(t, l, d, n, c1.next, c2.next, t.depth + ks[0]);
      var t1 := CodeLeads(st, li, n, n + 1, es[0], ks[0], t);
      var t2 := Landed(t, c1.insns, c1.flag, n, t.depth + ks[0], n + 1, c1.next, t1);
      RestReady(t, t2, l, d, n, c1.next, c2.next);
      t' := ListLeads(st, li, l, c1.next, es[1..], ks[1..], t2);
      JoinLeads(t, c1.insns + Landing(c1.flag, n), t2, c2, l, d, n, c1.next, t');
    }
  }

  lemma EmptyLeads(t: Depths, l: nat, d: nat, n: nat)
    requires Ready(t, l, d, n, n) && d == t.depth
    ensures Leads(t, [], false, l, d, n, n, t)
  {
  }

  lemma JoinLeads(t: Depths, a: Prg, t2: Depths, c2: Code, l: nat, d: nat, n: nat, mid: nat, t': Depths)
    requires DRun(t, a) == Some(t2) && Kept(t, t2, n + 1, mid, n) && n < mid <= c2.next
    requires Leads(t2, c2.insns, c2.flag, l, d, mid, c2.next, t')
    ensures Leads(t, a + c2.insns, c2.flag, l, d, n, c2.next, t')
  {
    hide DRun, DStep;
    DRunConcat(t, a, c2.insns);
    KeptWider(t, t2, n + 1, mid, n, n, c2.next, l);
    KeptWider(t2, t', mid, c2.next, l, n, c2.next, l);
    KeptJoin(t, t2, t', n, c2.next, l);
  }

  /** A part joined at `n`, then one instruction that pushes and pops. */
  lemma InsnLeads(t: Depths, c: Code, n: nat, d1: nat, t1: Depths, i: Insn, l: nat, d: nat) returns (t': Depths)
    requires Leads(t, c.insns, c.flag, n, d1, n + 1, c.next, t1) && n < c.next
    requires After(i, d1) == Some(d) && Ready(t, l, d, n, c.next)
    ensures Leads(t, AddCode(c, n, false, [i]).insns, false, l, d, n, c.next, t')
  {
    hide DRun, DStep, After;
    var t2 := Landed(t, c.insns, c.flag, n, d1, n + 1, c.next, t1);
    MovesOne(i, d1);
    ThenMoves(t, c.insns + Landing(c.flag, n), [i], d);
    t' := t2.(depth := d);
    AimsKept(t, t2, n + 1, c.next, n, l, d);
    KeptWider(t, t2, n + 1, c.next, n, n, c.next, l);
    KeptDepth2(t, t2, t', n, c.next, l);
  }

  lemma {:induction false} OperandsLead(st: Names, li: nat, l: nat, n: nat, es: seq<Expr>, ks: seq<nat>, i: Insn,
      d: nat, t: Depths) returns (t': Depths)
    requires |ks| == |es| && forall j :: 0 <= j < |es| ==> Yields(es[j], ks[j])
    requires After(i, t.depth + Sum(ks)) == Some(d) && Ready(t, l, d, n, CompileOperands(st, li, n, es, i).next)
    ensures var c := CompileOperands(st, li, n, es, i); Leads(t, c.insns, c.flag, l, d, n, c.next, t')
    decreases SizeList(es), 5
  {
    hide DRun, DStep, CompileList, Yields, After, Leads, Ready;
    var c := CompileList(st, li, n, n + 1, es);
    ListRanged(st, li, n, n + 1, es);
    JoinReady(t, l, d, n, c.next, c.next, t.depth + Sum(ks));
    var t1 := ListLeads(st, li, n, n + 1, es, ks, t);
    t' := InsnLeads(t, c, n, t.depth + Sum(ks), t1, i, l, d);
  }

  lemma {:induction false} SingleLeads(st: Names, li: nat, l: nat, n: nat, x: Expr, i: Insn, d: nat, t: Depths)
    returns (t': Depths)
    requires Yields(x, 1) && After(i, t.depth + 1) == Some(d)
    requires Ready(t, l, d, n, AddCode(Compile(st, li, n, n + 1, x), n, false, [i]).next)
    ensures var c := AddCode(Compile(st, li, n, n + 1, x), n, false, [i]); Leads(t, c.insns, false, l, d, n, c.next, t')
    decreases Size(x), 5
  {
    hide DRun, DStep, Compile, After, Leads, Ready, Yields, Size;
    var c := Compile(st, li, n, n + 1, x);
    Ranged(st, li, n, n + 1, x);
    JoinReady(t, l, d, n, c.next, c.next, t.depth + 1);
    var t1 := CodeLeads(st, li, n, n + 1, x, 1, t);
    t' := InsnLeads(t, c, n, t.depth + 1, t1, i, l, d);
  }

  /** A branch and its parting jump: control is gone to `l`. */
  lemma Parted(t: Depths, c: Code, l: nat, d: nat, lo: nat, t': Depths) returns (t2: Depths)
    requires Leads(t, c.insns, c.flag, l, d, lo, c.next, t')
    ensures DRun(t, c.insns + Parting(c.flag, l)) == Some(t2) && t2.barrier && l in t2.jumped && Aims(t2, l, d)
    ensures Kept(t, t2, lo, c.next, l)
  {
    if c.flag {
      assert c.insns + [] == c.insns;
      t2 := t';
    } else {
      hide DRun, DStep;
      DSnoc(t, c.insns, JMP(l));
      t2 := Jumps(t', l);
      KeptOne(t', t2, l, lo, c.next, l);
      KeptJoin(t, t', t2, lo, c.next, l);
    }
  }
  // Conditionals

  lemma {:induction false} IfLeads(st: Names, li: nat, l: nat, n: nat, x: Expr, y: Expr, z: Expr, k: nat, t: Depths)
    returns (t': Depths)
    requires Yields(x, 1) && Yields(y, k) && Yields(z, k) &&
      Ready(t, l, t.depth + k, n, Compile(st, li, l, n, If(x, y, z)).next)
    ensures var c := Compile(st, li, l, n, If(x, y, z)); Leads(t, c.insns, c.flag, l, t.depth + k, n, c.next, t')
    decreases Size(If(x, y, z)), 1
  {
    hide Compile, Leads, Ready, Yields, Size;
    var c, c1, c2 := IfCode(st, li, l, n, x, y, z);
    t' := IfPartsLead(st, li, l, n, x, y, z, k, t, c, c1, c2);
  }

  lemma {:induction false} IfPartsLead(st: Names, li: nat, l: nat, n: nat, x: Expr, y: Expr, z: Expr, k: nat,
      t: Depths, c: Code, c1: Code, c2: Code)
    returns (t': Depths)
    requires Yields(x, 1) && Yields(y, k) && Yields(z, k) && Ready(t, l, t.depth + k, n, c2.next)
    requires c == Compile(st, li, n, n + 2, x) && c1 == Compile(st, li, l, c.next, y) &&
      c2 == Compile(st, li, l, c1.next, z)
    ensures Leads(t, IfInsns(c, c1, c2, n, l), true, l, t.depth + k, n, c2.next, t')
    decreases Size(x) + Size(y) + Size(z), 4
  {
    hide DRun, Compile, Leads, Ready, Yields, Size, Landing, Parting, Kept;
    Ranged(st, li, n, n + 2, x);
    Ranged(st, li, l, c.next, y);
    Ranged(st, li, l, c1.next, z);
    var d := t.depth;
    SubReady(t, l, d + k, n, n, c2.next, n + 2, c.next, d + 1);
    var t1 := CodeLeads(st, li, n, n + 2, x, 1, t);
    var s3, t3 := IfCondition(t, c, t1, l, d + k, n, c2.next);
    InsideNot(t, l, d + k, n, c2.next, n + 1);
    SubReadySame(t3, l, d + k, c.next, c1.next, c2.next);
    var t4 := CodeLeads(st, li, l, c.next, y, k, t3);
    var s6, t6 := IfThen(t, s3, t3, c1, t4, l, d + k, n, c.next, c2.next, d);
    var t7 := CodeLeads(st, li, l, c1.next, z, k, t6);
    t' := IfElse(t, s6, t6, c2, t7, l, d + k, n, c1.next);
  }

  function IfInsns(c: Code, c1: Code, c2: Code, n: nat, l: nat): Prg {
    c.insns + Landing(c.flag, n) + [CJMP(false, n + 1)] + c1.insns + Parting(c1.flag, l) + [LABEL(n + 1)] + c2.insns
      + Parting(c2.flag, l)
  }

  /** Up to the conditional jump. */
  lemma IfCondition(t: Depths, c: Code, t1: Depths, l: nat, dk: nat, n: nat, hi: nat) returns (s3: Prg, t3: Depths)
    requires Ready(t, l, dk, n, hi) && n + 2 <= c.next <= hi
    requires Leads(t, c.insns, c.flag, n, t.depth + 1, n + 2, c.next, t1)
    ensures s3 == c.insns + Landing(c.flag, n) + [CJMP(false, n + 1)] && DRun(t, s3) == Some(t3) && t3.depth == t.depth
    ensures n + 1 in t3.jumped && t3.jumped[n + 1] == t.depth && n + 1 !in t3.placed
    ensures Ready(t3, l, dk, c.next, hi) && Kept(t, t3, n, c.next, l)
  {
    hide DRun, DStep, Ready, Leads, Kept, Landing;
    var t2 := Landed(t, c.insns, c.flag, n, t.depth + 1, n + 2, c.next, t1);
    s3 := c.insns + Landing(c.flag, n) + [CJMP(false, n + 1)];
    DSnoc(t, c.insns + Landing(c.flag, n), CJMP(false, n + 1));
    AimsInside(t, t2, l, dk, n, hi, n + 2, c.next, n, n + 1, t.depth);
    t3 := CondJumps(t2, false, n + 1, t.depth);
    IfMiddle(t, t2, t3, l, dk, n, c.next, hi);
  }

  /** The first branch and the label of the second. */
  lemma IfThen(t: Depths, s3: Prg, t3: Depths, c1: Code, t4: Depths, l: nat, dk: nat, n: nat, mid: nat, hi: nat,
      d: nat) returns (s6: Prg, t6: Depths)
    requires DRun(t, s3) == Some(t3) && Ready(t3, l, dk, mid, hi) && Kept(t, t3, n, mid, l) &&
      n + 2 <= mid <= c1.next <= hi
    requires n + 1 in t3.jumped && t3.jumped[n + 1] == d && n + 1 !in t3.placed && n + 1 != l
    requires Leads(t3, c1.insns, c1.flag, l, dk, mid, c1.next, t4)
    ensures s6 == s3 + c1.insns + Parting(c1.flag, l) + [LABEL(n + 1)] && DRun(t, s6) == Some(t6) && t6.depth == d
    ensures Ready(t6, l, dk, c1.next, hi) && Kept(t, t6, n, c1.next, l)
  {
    hide DRun, DStep, Leads, Parting;
    var t5 := Parted(t3, c1, l, dk, mid, t4);
    var b1 := c1.insns + Parting(c1.flag, l);
    DRunConcat(t, s3, b1);
    assert s3 + b1 == s3 + c1.insns + Parting(c1.flag, l);
    s6 := s3 + c1.insns + Parting(c1.flag, l) + [LABEL(n + 1)];
    DSnoc(t, s3 + c1.insns + Parting(c1.flag, l), LABEL(n + 1));
    assert Still(t3, t5, n + 1);
    t6 := DStepLabel(t5, n + 1, d);
    UnseenKept(t3, t5, mid, c1.next, l, c1.next, hi);
    KeptWider(t, t3, n, mid, l, n, c1.next, l);
    KeptWider(t3, t5, mid, c1.next, l, n, c1.next, l);
    KeptJoin(t, t3, t5, n, c1.next, l);
    KeptOne(t5, t6, n + 1, n, c1.next, l);
    KeptJoin(t, t5, t6, n, c1.next, l);
  }

  /** The second branch. */
  lemma IfElse(t: Depths, s6: Prg, t6: Depths, c2: Code, t7: Depths, l: nat, dk: nat, n: nat, mid: nat)
    returns (t': Depths)
    requires DRun(t, s6) == Some(t6) && Kept(t, t6, n, mid, l) && n <= mid <= c2.next
    requires Leads(t6, c2.insns, c2.flag, l, dk, mid, c2.next, t7)
    ensures Leads(t, s6 + c2.insns + Parting(c2.flag, l), true, l, dk, n, c2.next, t')
  {
    hide DRun, DStep, Parting;
    t' := Parted(t6, c2, l, dk, mid, t7);
    var b2 := c2.insns + Parting(c2.flag, l);
    DRunConcat(t, s6, b2);
    assert s6 + b2 == s6 + c2.insns + Parting(c2.flag, l);
    KeptWider(t, t6, n, mid, l, n, c2.next, l);
    KeptWider(t6, t', mid, c2.next, l, n, c2.next, l);
    KeptJoin(t, t6, t', n, c2.next, l);
  }

  /** Part of the code with a fresh target `m` of its own. */
  lemma SubReady(t: Depths, l: nat, d: nat, n: nat, m: nat, hi: nat, lo': nat, hi': nat, d': nat)
    requires Ready(t, l, d, n, hi) && n <= m < lo' <= hi' <= hi
    ensures Ready(t, m, d', lo', hi')
  {
  }

  /** Part of the code with the same target. */
  lemma SubReadySame(t: Depths, l: nat, d: nat, lo: nat, mid: nat, hi: nat)
    requires Ready(t, l, d, lo, hi) && lo <= mid <= hi
    ensures Ready(t, l, d, lo, mid)
  {
  }

  lemma InsideNot(t: Depths, l: nat, d: nat, n: nat, hi: nat, x: nat)
    requires Ready(t, l, d, n, hi) && n <= x < hi
    ensures x != l
  {
  }

  /** A fresh label is still fresh after code that keeps it. */
  lemma AimsInside(t: Depths, t2: Depths, l: nat, d: nat, n: nat, hi: nat, lo: nat, hi': nat, m: nat, x: nat, d': nat)
    requires Ready(t, l, d, n, hi) && Kept(t, t2, lo, hi', m) && n <= x < hi && x != m && !(lo <= x < hi')
    ensures Aims(t2, x, d')
  {
    assert Still(t, t2, x);
  }

  lemma IfMiddle(t: Depths, t2: Depths, t3: Depths, l: nat, d: nat, n: nat, mid: nat, hi: nat)
    requires Ready(t, l, d, n, hi) && Kept(t, t2, n + 2, mid, n) && n + 2 <= mid <= hi && !t3.barrier
    requires n + 1 in t3.jumped && t3.jumped == t2.jumped[n + 1 := t3.jumped[n + 1]] && t3.placed == t2.placed
    ensures Ready(t3, l, d, mid, hi) && Kept(t, t3, n, mid, l) && n + 1 !in t3.placed
  {
    assert Still(t, t2, n + 1);
    KeptWider(t, t2, n + 2, mid, n, n, mid, l);
    KeptOne(t2, t3, n + 1, n, mid, l);
    KeptJoin(t, t2, t3, n, mid, l);
    UnseenKept(t, t3, n, mid, l, mid, hi);
    AimsKept(t, t2, n + 2, mid, n, l, d);
  }

  // Loops

  /** Where a loop may start its body: its three labels are `n`, `n + 1` and `n + 2`. */
  ghost predicate InLoop(t: Depths, n: nat, mid: nat, hi: nat, d: nat) {
    && !t.barrier && t.depth == d && n + 3 <= mid <= hi
    && Unseen(t, n, n + 1) && Unseen(t, n + 3, hi) && Aims(t, n + 1, d) && Aims(t, n + 2, d)
  }

  lemma WhileStart(t: Depths, l: nat, d: nat, n: nat, mid: nat, hi: nat) returns (t1: Depths)
    requires Ready(t, l, d, n, hi) && t.depth == d && n + 3 <= mid <= hi
    ensures DRun(t, [JMP(n + 2), FLABEL(n + 1)]) == Some(t1) && InLoop(t1, n, mid, hi, d) && Kept(t, t1, n, hi, n)
  {
    hide DRun, DStep;
    var t0 := Jumps(t, n + 2);
    DRunOne(t, JMP(n + 2));
    DSnoc(t, [JMP(n + 2)], FLABEL(n + 1));
    t1 := FallsInto(t0, FLABEL(n + 1), n + 1);
    assert [JMP(n + 2)] + [FLABEL(n + 1)] == [JMP(n + 2), FLABEL(n + 1)];
  }

  lemma DoWhileStart(t: Depths, l: nat, d: nat, n: nat, mid: nat, hi: nat) returns (t1: Depths)
    requires Ready(t, l, d, n, hi) && t.depth == d && n + 3 <= mid <= hi
    ensures DRun(t, [LABEL(n + 1)]) == Some(t1) && InLoop(t1, n, mid, hi, d) && Kept(t, t1, n, hi, n)
  {
    hide DRun, DStep;
    DRunOne(t, LABEL(n + 1));
    t1 := FallsInto(t, LABEL(n + 1), n + 1);
  }

  lemma LoopBody(t: Depths, n: nat, mid: nat, hi: nat, d: nat)
    requires InLoop(t, n, mid, hi, d)
    ensures Ready(t, n + 2, d, mid, hi)
  {
  }

  /** The label that a loop always has after its body. */
  lemma LabelAlways(t: Depths, code: Prg, flag: bool, l: nat, d: nat, lo: nat, hi: nat, t': Depths) returns (t2: Depths)
    requires Leads(t, code, flag, l, d, lo, hi, t')
    ensures DRun(t, code + [LABEL(l)]) == Some(t2) && !t2.barrier && t2.depth == d && Kept(t, t2, lo, hi, l)
  {
    hide DStep;
    DSnoc(t, code, LABEL(l));
    if flag {
      t2 := DStepLabel(t', l, d);
    } else {
      t2 := FallsInto(t', LABEL(l), l);
    }
    KeptOne(t', t2, l, lo, hi, l);
    KeptJoin(t, t', t2, lo, hi, l);
  }

  /** After the body the condition may run. */
  lemma LoopMiddle(t1: Depths, t3: Depths, n: nat, mid: nat, hi: nat, d: nat)
    requires InLoop(t1, n, mid, hi, d) && Kept(t1, t3, mid, hi, n + 2) && !t3.barrier
    ensures Ready(t3, n, d + 1, n + 3, mid) && Aims(t3, n + 1, d)
  {
    UnseenKept(t1, t3, mid, hi, n + 2, n, n + 1);
    UnseenKept(t1, t3, mid, hi, n + 2, n + 3, mid);
    AimsKept(t1, t3, mid, hi, n + 2, n + 1, d);
  }

  /** The condition and the jump back. */
  lemma LoopClose(t: Depths, s: Prg, t3: Depths, c: Code, t4: Depths, l: nat, n: nat, hi: nat, d: nat)
    returns (t': Depths)
    requires DRun(t, s) == Some(t3) && Kept(t, t3, n, hi, n) && Ready(t, l, d, n, hi) && Aims(t3, n + 1, d)
    requires n + 3 <= c.next <= hi && Leads(t3, c.insns, c.flag, n, d + 1, n + 3, c.next, t4)
    ensures Leads(t, s + c.insns + Landing(c.flag, n) + [CJMP(true, n + 1)], false, l, d, n, hi, t')
  {
    hide DRun, DStep, Landing;
    var t5 := Landed(t3, c.insns, c.flag, n, d + 1, n + 3, c.next, t4);
    AimsKept(t3, t5, n + 3, c.next, n, n + 1, d);
    t' := CondJumps(t5, true, n + 1, d);
    var part := c.insns + Landing(c.flag, n);
    DSnoc(t3, part, CJMP(true, n + 1));
    DRunConcat(t, s, part + [CJMP(true, n + 1)]);
    assert s + (part + [CJMP(true, n + 1)]) == s + c.insns + Landing(c.flag, n) + [CJMP(true, n + 1)];
    KeptWider(t3, t5, n + 3, c.next, n, n, hi, n);
    KeptOne(t5, t', n + 1, n, hi, n);
    KeptJoin(t3, t5, t', n, hi, n);
    KeptJoin(t, t3, t', n, hi, n);
    AimsKept(t, t', n, hi, n, l, d);
    KeptWider(t, t', n, hi, n, n, hi, l);
  }

  lemma {:induction false} WhileLeads(st: Names, li: nat, l: nat, n: nat, x: Expr, y: Expr, t: Depths)
    returns (t': Depths)
    requires Yields(x, 1) && Yields(y, 0) && Ready(t, l, t.depth, n, Compile(st, li, l, n, While(x, y)).next)
    ensures var c := Compile(st, li, l, n, While(x, y)); Leads(t, c.insns, c.flag, l, t.depth, n, c.next, t')
    decreases Size(While(x, y)), 1
  {
    hide Compile, Leads, Ready, Yields, Size, InLoop, Kept, DRun, Landing;
    var c, b := WhileCode(st, li, l, n, x, y);
    Ranged(st, li, n, n + 3, x);
    Ranged(st, li, n + 2, c.next, y);
    var t1 := WhileStart(t, l, t.depth, n, c.next, b.next);
    LoopBody(t1, n, c.next, b.next, t.depth);
    LoopDepth(t1, n, c.next, b.next, t.depth);
    var t2 := CodeLeads(st, li, n + 2, c.next, y, 0, t1);
    var t3 := LabelAlways(t1, b.insns, b.flag, n + 2, t.depth, c.next, b.next, t2);
    var s := LoopJoin(t, [JMP(n + 2), FLABEL(n + 1)], t1, b.insns + [LABEL(n + 2)], t3, n, c.next, b.next);
    LoopMiddle(t1, t3, n, c.next, b.next, t.depth);
    var t4 := CodeLeads(st, li, n, n + 3, x, 1, t3);
    t' := LoopClose(t, s, t3, c, t4, l, n, b.next, t.depth);
    assert s == [JMP(n + 2), FLABEL(n + 1)] + b.insns + [LABEL(n + 2)];
  }

  lemma LoopDepth(t: Depths, n: nat, mid: nat, hi: nat, d: nat)
    requires InLoop(t, n, mid, hi, d)
    ensures t.depth == d && !t.barrier
  {
  }

  /** The start of a loop and its body. */
  lemma LoopJoin(t: Depths, a: Prg, t1: Depths, b: Prg, t3: Depths, n: nat, mid: nat, hi: nat) returns (s: Prg)
    requires DRun(t, a) == Some(t1) && DRun(t1, b) == Some(t3)
    requires Kept(t, t1, n, hi, n) && Kept(t1, t3, mid, hi, n + 2) && n + 3 <= mid <= hi
    ensures s == a + b && DRun(t, s) == Some(t3) && Kept(t, t3, n, hi, n)
  {
    hide DRun;
    s := a + b;
    DRunConcat(t, a, b);
    KeptWider(t1, t3, mid, hi, n + 2, n, hi, n);
    KeptJoin(t, t1, t3, n, hi, n);
  }

  lemma {:induction false} DoWhileLeads(st: Names, li: nat, l: nat, n: nat, x: Expr, y: Expr, t: Depths)
    returns (t': Depths)
    requires Yields(x, 1) && Yields(y, 0) && Ready(t, l, t.depth, n, Compile(st, li, l, n, DoWhile(y, x)).next)
    ensures var c := Compile(st, li, l, n, DoWhile(y, x)); Leads(t, c.insns, c.flag, l, t.depth, n, c.next, t')
    decreases Size(DoWhile(y, x)), 1
  {
    hide Compile, Leads, Ready, Yields, Size, InLoop, Kept, DRun, Landing;
    var c, b := DoWhileCode(st, li, l, n, x, y);
    Ranged(st, li, n, n + 3, x);
    Ranged(st, li, n + 2, c.next, y);
    var t1 := DoWhileStart(t, l, t.depth, n, c.next, b.next);
    LoopBody(t1, n, c.next, b.next, t.depth);
    LoopDepth(t1, n, c.next, b.next, t.depth);
    var t2 := CodeLeads(st, li, n + 2, c.next, y, 0, t1);
    var t3 := Landed(t1, b.insns, b.flag, n + 2, t.depth, c.next, b.next, t2);
    var s := LoopJoin(t, [LABEL(n + 1)], t1, b.insns + Landing(b.flag, n + 2), t3, n, c.next, b.next);
    LoopMiddle(t1, t3, n, c.next, b.next, t.depth);
    var t4 := CodeLeads(st, li, n, n + 3, x, 1, t3);
    t' := LoopClose(t, s, t3, c, t4, l, n, b.next, t.depth);
    assert s == [LABEL(n + 1)] + b.insns + Landing(b.flag, n + 2);
  }

  // Cases

  /** Where the branches of a case go on. `lo` is the failure label of the whole case; the
      first branch finds the value and a copy, the others find the value at the label `lab`. */
  ghost predicate AtBranch(t: Depths, lab: Option<nat>, l: nat, lo: nat, n: nat, hi: nat, d: nat, k: nat) {
    && lo < n <= hi && !(lo <= l < hi) && Unseen(t, n, hi) && Aims(t, lo, d + 1) && Aims(t, l, d + k)
    && match lab
       case None => !t.barrier && t.depth == d + 2
       case Some(x) => lo < x < n && t.barrier && x in t.jumped && Aims(t, x, d + 1)
  }

  /** The branches are behind: control is gone to `l` or falls out with the result. */
  ghost predicate Branched(t: Depths, l: nat, lo: nat, d: nat, k: nat, fail: bool) {
    && Aims(t, lo, d + 1) && (fail ==> lo in t.jumped) && Aims(t, l, d + k)
    && if t.barrier then l in t.jumped else t.depth == d + k
  }

  lemma EntryLeads(t: Depths, blab: nat, lab: Option<nat>, l: nat, lo: nat, n: nat, hi: nat, d: nat, k: nat)
    returns (t1: Depths)
    requires AtBranch(t, lab, l, lo, n, hi, d, k)
    ensures DRun(t, Entry(blab, lab)) == Some(t1) && !t1.barrier && t1.depth == d + 2
    ensures Kept(t, t1, lo, n, l) && Unseen(t1, n, hi) && Aims(t1, lo, d + 1) && Aims(t1, l, d + k)
  {
    hide DStep, DRun;
    DRunOne(t, SLABEL(blab));
    if lab.None? {
      DStepStraight(t, SLABEL(blab));
      t1 := t;
    } else {
      StillDead(t, SLABEL(blab));
      DSnoc(t, [SLABEL(blab)], LABEL(lab.value));
      var t0 := DStepLabel(t, lab.value, d + 1);
      assert [SLABEL(blab)] + [LABEL(lab.value)] == [SLABEL(blab), LABEL(lab.value)];
      DSnoc(t, [SLABEL(blab), LABEL(lab.value)], DUP);
      DStepStraight(t0, DUP);
      t1 := t0.(depth := d + 2);
      assert [SLABEL(blab), LABEL(lab.value)] + [DUP] == Entry(blab, lab);
    }
  }

  lemma StillDead(t: Depths, i: Insn)
    requires t.barrier && !i.LABEL? && !i.FLABEL?
    ensures DStep(t, i) == Some(t)
  {
  }

  /** A branch up to the end of its bindings. */
  lemma BranchHeadLeads(t: Depths, blab: nat, lab: Option<nat>, p: Pattern, lfalse: nat, n0: nat, bind: Prg, l: nat,
      lo: nat, n: nat, hi: nat, d: nat, k: nat)
    returns (s: Prg, t3: Depths)
    requires AtBranch(t, lab, l, lo, n, hi, d, k) && Moves(bind, d + 1, d)
    requires (lfalse == lo && n0 == n) || (lfalse == n && n0 == n + 1)
    requires n0 <= PatternCode(p, lfalse, n0).0 && PatternCode(p, lfalse, n0).0 < hi
    ensures var (n1, canFail, pcode) := PatternCode(p, lfalse, n0);
      && s == Entry(blab, lab) + pcode + bind && DRun(t, s) == Some(t3) && !t3.barrier && t3.depth == d
      && Kept(t, t3, lo, n1, l) && Unseen(t3, n1, hi) && Aims(t3, lo, d + 1) && Aims(t3, l, d + k)
      && Aims(t3, lfalse, d + 1) && (canFail ==> lfalse in t3.jumped)
  {
    hide DRun, PatternCode, Entry, Moves;
    var t1 := EntryLeads(t, blab, lab, l, lo, n, hi, d, k);
    var (n1, canFail, pcode) := PatternCode(p, lfalse, n0);
    var t2 := PatternTests(p, lfalse, n0, t1);
    DRunConcat(t, Entry(blab, lab), pcode);
    ThenMoves(t, Entry(blab, lab) + pcode, bind, d);
    s := Entry(blab, lab) + pcode + bind;
    t3 := t2.(depth := d);
    UnseenKept(t1, t2, n0, n1, lfalse, n1, hi);
    KeptWider(t1, t2, n0, n1, lfalse, lo, n1, l);
    KeptWider(t, t1, lo, n, l, lo, n1, l);
    KeptJoin(t, t1, t2, lo, n1, l);
    KeptDepth2(t, t2, t3, lo, n1, l);
    AimsKept(t1, t2, n0, n1, lfalse, l, d + k);
    if lfalse != lo {
      AimsKept(t1, t2, n0, n1, lfalse, lo, d + 1);
    }
  }

  /** The body of a branch and its way out. */
  lemma BranchTailLeads(t3: Depths, c: Code, t4: Depths, last: bool, elab: nat, l: nat, dk: nat, lo: nat)
    returns (t5: Depths)
    requires Leads(t3, c.insns, c.flag, l, dk, lo, c.next, t4)
    ensures DRun(t3, c.insns + ((if last then [] else [JMP(l)]) + [SLABEL(elab)])) == Some(t5)
    ensures Kept(t3, t5, lo, c.next, l) && Aims(t5, l, dk) && (!last ==> t5.barrier)
    ensures if t5.barrier then l in t5.jumped else t5.depth == dk
  {
    hide DRun, DStep;
    var s := c.insns;
    t5 := t4;
    if last {
      assert s + [SLABEL(elab)] == c.insns + ([] + [SLABEL(elab)]);
    } else {
      DSnoc(t3, c.insns, JMP(l));
      s := c.insns + [JMP(l)];
      if t4.barrier {
        StillDead(t4, JMP(l));
      } else {
        t5 := Jumps(t4, l);
        KeptOne(t4, t5, l, lo, c.next, l);
        KeptJoin(t3, t4, t5, lo, c.next, l);
      }
      assert s + [SLABEL(elab)] == c.insns + ([JMP(l)] + [SLABEL(elab)]);
    }
    DSnoc(t3, s, SLABEL(elab));
    if t5.barrier {
      StillDead(t5, SLABEL(elab));
    } else {
      DStepStraight(t5, SLABEL(elab));
    }
  }

  /** Between the head and the tail of a branch. */
  lemma BranchMiddle(t: Depths, s: Prg, t3: Depths, b: Prg, t5: Depths, lfalse: nat, canFail: bool, l: nat, lo: nat,
      n: nat, n1: nat, mid: nat, hi: nat, d: nat)
    requires DRun(t, s) == Some(t3) && DRun(t3, b) == Some(t5) && lo < n1 && n1 + 2 <= mid <= hi && !(lo <= l < hi)
    requires Kept(t, t3, lo, n1, l) && Unseen(t3, n1, hi) && Aims(t3, lo, d + 1) && Kept(t3, t5, n1 + 2, mid, l)
    requires lo <= lfalse < n1 && Aims(t3, lfalse, d + 1) && (canFail ==> lfalse in t3.jumped)
    ensures DRun(t, s + b) == Some(t5) && Kept(t, t5, lo, hi, l) && Unseen(t5, mid, hi) && Aims(t5, lo, d + 1)
    ensures canFail ==> lfalse in t5.jumped && Aims(t5, lfalse, d + 1)
  {
    hide DRun;
    DRunConcat(t, s, b);
    KeptWider(t, t3, lo, n1, l, lo, hi, l);
    KeptWider(t3, t5, n1 + 2, mid, l, lo, hi, l);
    KeptJoin(t, t3, t5, lo, hi, l);
    UnseenKept(t3, t5, n1 + 2, mid, l, mid, hi);
    AimsKept(t3, t5, n1 + 2, mid, l, lo, d + 1);
    assert Still(t3, t5, lfalse);
  }

  /** One branch, with the code `c` of its body. */
  lemma {:induction false} BranchLeads(st: Names, li: nat, l: nat, lo: nat, n: nat, br: (Pattern, Expr), last: bool,
      lab: Option<nat>, hi: nat, d: nat, k: nat, t: Depths)
    returns (s: Prg, t5: Depths)
    requires Yields(br.1, k) && AtBranch(t, lab, l, lo, n, hi, d, k)
    requires var lfalse := if last then lo else n; var n0 := if last then n else n + 1;
      var n1 := PatternCode(br.0, lfalse, n0).0; var xs := BoundNames(Bindings(br.0, []));
      Compile(Open(st, xs, li), Above(st, xs, li), l, n1 + 2, br.1).next <= hi
    ensures var lfalse := if last then lo else n; var n0 := if last then n else n + 1;
      var (n1, canFail, pcode) := PatternCode(br.0, lfalse, n0); var bs := Bindings(br.0, []); var xs := BoundNames(bs);
      var inner := Open(st, xs, li); var c := Compile(inner, Above(st, xs, li), l, n1 + 2, br.1);
      && s == Entry(n1, lab) + pcode + (BindCode(inner, bs) + [DROP])
        + (c.insns + ((if last then [] else [JMP(l)]) + [SLABEL(n1 + 1)]))
      && DRun(t, s) == Some(t5) && Kept(t, t5, lo, hi, l) && Unseen(t5, c.next, hi)
      && Branched(t5, l, lo, d, k, canFail && last) && lo < n < c.next <= hi && (!last ==> t5.barrier)
      && (canFail ==> lfalse in t5.jumped && Aims(t5, lfalse, d + 1))
    decreases Size(br.1), 4
  {
    hide DRun, Compile, PatternCode, Bindings, BindCode, BoundNames, Open, Above, Entry, Yields, Size, Leads, Moves,
      Kept;
    var lfalse := if last then lo else n;
    var n0 := if last then n else n + 1;
    var (n1, canFail, pcode) := PatternCode(br.0, lfalse, n0);
    var bs := Bindings(br.0, []);
    var inner := Open(st, BoundNames(bs), li);
    var low := Above(st, BoundNames(bs), li);
    var c := Compile(inner, low, l, n1 + 2, br.1);
    PatternRange(br.0, lfalse, n0);
    Ranged(inner, low, l, n1 + 2, br.1);
    BindDropMoves(inner, bs, d);
    var s1, t3 := BranchHeadLeads(t, n1, lab, br.0, lfalse, n0, BindCode(inner, bs) + [DROP], l, lo, n, hi, d, k);
    var t4 := CodeLeads(inner, low, l, n1 + 2, br.1, k, t3);
    t5 := BranchTailLeads(t3, c, t4, last, n1 + 1, l, d + k, n1 + 2);
    var tail := c.insns + ((if last then [] else [JMP(l)]) + [SLABEL(n1 + 1)]);
    BranchMiddle(t, s1, t3, tail, t5, lfalse, canFail, l, lo, n, n1, c.next, hi, d);
    s := s1 + tail;
  }

  lemma BindDropMoves(st: Names, bs: seq<(string, seq<nat>)>, d: nat)
    ensures Moves(BindCode(st, bs) + [DROP], d + 1, d)
  {
    hide BindCode, Moves;
    BindMoves(st, bs, d + 1);
    MovesOne(DROP, d + 1);
    MovesJoin(BindCode(st, bs), [DROP], d + 1, d + 1, d);
  }

  lemma BranchesRanged(st: Names, li: nat, l: nat, lfail: nat, n: nat, brs: seq<(Pattern, Expr)>, lab: Option<nat>)
    requires lab.Some? ==> lab.value < n
    ensures n <= CompileBranches(st, li, l, lfail, n, brs, lab).0.next
  {
    hide CompileBranches;
    var ls := Labels.BranchesTidy(st, li, l, lfail, n, brs, lab);
  }

  /** The branches that are kept leave `k` values. */
  predicate BranchesYield(brs: seq<(Pattern, Expr)>, k: nat) {
    (forall i :: 0 <= i < |brs| ==> Leaves(brs[i].1, k)) && FirmBodies(brs, k)
  }

  lemma FirstYields(brs: seq<(Pattern, Expr)>, k: nat, lfalse: nat, n0: nat)
    requires brs != [] && BranchesYield(brs, k)
    ensures Yields(brs[0].1, k) && (PatternCode(brs[0].0, lfalse, n0).1 ==> BranchesYield(brs[1..], k))
  {
    hide Firm, Leaves;
    CanFail(brs[0].0, lfalse, n0);
  }

  lemma {:induction false} CanFail(p: Pattern, lfalse: nat, n: nat)
    ensures PatternCode(p, lfalse, n).1 <==> !Irrefutable(p)
    decreases p
  {
    hide PatternListCode;
    match p
    case Named(_, q) => CanFail(q, lfalse, n);
    case _ =>
  }

  /** A case fails unless one of its patterns always matches. */
  lemma {:induction false} BranchesFail(st: Names, li: nat, l: nat, lfail: nat, n: nat, brs: seq<(Pattern, Expr)>,
      lab: Option<nat>)
    ensures CompileBranches(st, li, l, lfail, n, brs, lab).1 <==> !Sealed(brs)
    decreases |brs|
  {
    if brs != [] {
      hide CompileBranches, Compile, PatternCode, Bindings, BindCode, Open, Above, BoundNames, Entry;
      var lfalse, n0, n1, canFail, pcode, c, rest := BranchCode(st, li, l, lfail, n, brs, lab);
      CanFail(brs[0].0, lfalse, n0);
      if canFail && |brs| > 1 {
        BranchesFail(st, li, l, lfail, c.next, brs[1..], Some(lfalse));
      } else {
        assert |brs| == 1 ==> !Sealed(brs[1..]);
      }
    }
  }

  lemma {:induction false} BranchesLead(st: Names, li: nat, l: nat, lo: nat, n: nat, brs: seq<(Pattern, Expr)>,
      lab: Option<nat>, d: nat, k: nat, t: Depths)
    returns (t': Depths)
    requires brs != [] && BranchesYield(brs, k)
    requires AtBranch(t, lab, l, lo, n, CompileBranches(st, li, l, lo, n, brs, lab).0.next, d, k)
    ensures var (b, fail) := CompileBranches(st, li, l, lo, n, brs, lab);
      DRun(t, b.insns) == Some(t') && Kept(t, t', lo, b.next, l) && Branched(t', l, lo, d, k, fail)
    decreases SizeBranches(brs), 3
  {
    hide DRun, Compile, CompileBranches, PatternCode, Bindings, BindCode, BoundNames, Open, Above, Entry, Yields, Size,
      SizeBranches, Kept, Aims, Unseen;
    var lfalse, n0, n1, canFail, pcode, c, rest := BranchCode(st, li, l, lo, n, brs, lab);
    var hi := rest.0.next;
    FirstYields(brs, k, lfalse, n0);
    if canFail && |brs| > 1 {
      var xs := BoundNames(Bindings(brs[0].0, []));
      PatternRange(brs[0].0, lfalse, n0);
      Ranged(Open(st, xs, li), Above(st, xs, li), l, n1 + 2, brs[0].1);
      BranchesRanged(st, li, l, lo, c.next, brs[1..], Some(lfalse));
    }
    var s, t5 := BranchLeads(st, li, l, lo, n, brs[0], |brs| == 1, lab, hi, d, k, t);
    assert s + rest.0.insns == CompileBranches(st, li, l, lo, n, brs, lab).0.insns;
    if canFail && |brs| > 1 {
      t' := BranchesLead(st, li, l, lo, c.next, brs[1..], Some(lfalse), d, k, t5);
      DRunConcat(t, s, rest.0.insns);
      KeptJoin(t, t5, t', lo, hi, l);
    } else {
      assert s + [] == s;
      t' := t5;
    }
  }

  /** After all branches: the jump out, and the failure exit of the case. */
  lemma CaseClose(t: Depths, s: Prg, t4: Depths, valued: bool, fail: bool, l: nat, n: nat, hi: nat, d: nat, k: nat)
    returns (t': Depths)
    requires DRun(t, s) == Some(t4) && Kept(t, t4, n, hi, l) && Branched(t4, l, n, d, k, fail)
    requires n < hi && l != n && (fail ==> k == (if valued then 1 else 0))
    ensures Leads(t, s + [JMP(l)] + (if fail then [LABEL(n), FAIL(valued), JMP(l)] else []), true, l, d + k, n, hi, t')
  {
    hide DRun, DStep;
    var t5 := t4;
    if t4.barrier {
      StillDead(t4, JMP(l));
    } else {
      t5 := Jumps(t4, l);
      KeptOne(t4, t5, l, n, hi, l);
      KeptJoin(t, t4, t5, n, hi, l);
    }
    DSnoc(t, s, JMP(l));
    if fail {
      var t6, t7 := FailExit(t5, valued, l, n, d, k);
      DRunConcat(t, s + [JMP(l)], [LABEL(n), FAIL(valued), JMP(l)]);
      t' := t7;
      KeptOne(t5, t6, n, n, hi, l);
      KeptOne(t6, t7, l, n, hi, l);
      KeptJoin(t, t5, t6, n, hi, l);
      KeptJoin(t, t6, t7, n, hi, l);
    } else {
      assert s + [JMP(l)] + [] == s + [JMP(l)];
      t' := t5;
    }
  }

  lemma FailExit(t: Depths, valued: bool, l: nat, n: nat, d: nat, k: nat) returns (t1: Depths, t2: Depths)
    requires t.barrier && n in t.jumped && Aims(t, n, d + 1) && Aims(t, l, d + k) && l != n &&
      k == (if valued then 1 else 0)
    ensures t1.placed == t.placed[n := d + 1] && t1.jumped == t.jumped
    ensures t2.placed == t1.placed && t2.jumped == t1.jumped[l := d + k] && t2.barrier
    ensures DRun(t, [LABEL(n), FAIL(valued), JMP(l)]) == Some(t2)
  {
    hide DStep;
    DRunOne(t, LABEL(n));
    hide DRun;
    t1 := DStepLabel(t, n, d + 1);
    DSnoc(t, [LABEL(n)], FAIL(valued));
    DStepStraight(t1, FAIL(valued));
    assert [LABEL(n)] + [FAIL(valued)] == [LABEL(n), FAIL(valued)];
    DSnoc(t, [LABEL(n), FAIL(valued)], JMP(l));
    t2 := Jumps(t1.(depth := d + k), l);
    assert [LABEL(n), FAIL(valued)] + [JMP(l)] == [LABEL(n), FAIL(valued), JMP(l)];
  }

  /** The value of the scrutinee and its copy. */
  lemma CaseStart(t: Depths, c: Code, t1: Depths, l: nat, n: nat, hi: nat, k: nat) returns (s: Prg, t3: Depths)
    requires Ready(t, l, t.depth + k, n, hi) && n + 2 <= c.next <= hi
    requires Leads(t, c.insns, c.flag, n + 1, t.depth + 1, n + 2, c.next, t1)
    ensures s == c.insns + Landing(c.flag, n + 1) + [DUP] && DRun(t, s) == Some(t3) && Kept(t, t3, n, hi, l)
    ensures AtBranch(t3, None, l, n, c.next, hi, t.depth, k)
  {
    hide DRun, DStep, Landing;
    var t2 := Landed(t, c.insns, c.flag, n + 1, t.depth + 1, n + 2, c.next, t1);
    s := c.insns + Landing(c.flag, n + 1) + [DUP];
    DSnoc(t, c.insns + Landing(c.flag, n + 1), DUP);
    DStepStraight(t2, DUP);
    t3 := t2.(depth := t.depth + 2);
    UnseenKept(t, t2, n + 2, c.next, n + 1, c.next, hi);
    UnseenKept(t, t2, n + 2, c.next, n + 1, n, n + 1);
    AimsKept(t, t2, n + 2, c.next, n + 1, l, t.depth + k);
    KeptWider(t, t2, n + 2, c.next, n + 1, n, hi, l);
    KeptDepth2(t, t2, t3, n, hi, l);
  }

  lemma {:induction false} CaseLeads(st: Names, li: nat, l: nat, n: nat, x: Expr, brs: seq<(Pattern, Expr)>,
      valued: bool, k: nat, t: Depths) returns (t': Depths)
    requires Yields(x, 1) && brs != [] && BranchesYield(brs, k) && (Sealed(brs) || k == (if valued then 1 else 0))
    requires Ready(t, l, t.depth + k, n, Compile(st, li, l, n, Case(x, brs, valued)).next)
    ensures var c := Compile(st, li, l, n, Case(x, brs, valued));
      Leads(t, c.insns, c.flag, l, t.depth + k, n, c.next, t')
    decreases Size(Case(x, brs, valued)), 1
  {
    hide Compile, CompileBranches, DRun, Leads, Ready, Yields, BranchesYield, Sealed, Size, SizeBranches, AtBranch,
      Branched, Kept, Landing;
    var c, b := CaseCode(st, li, l, n, x, brs, valued);
    Ranged(st, li, n + 1, n + 2, x);
    BranchesRanged(st, li, l, n, c.next, brs, None);
    BranchesFail(st, li, l, n, c.next, brs, None);
    var hi := b.0.next;
    SubReady(t, l, t.depth + k, n, n + 1, hi, n + 2, c.next, t.depth + 1);
    InsideNot(t, l, t.depth + k, n, hi, n);
    var t1 := CodeLeads(st, li, n + 1, n + 2, x, 1, t);
    var s, t3 := CaseStart(t, c, t1, l, n, hi, k);
    var t4 := BranchesLead(st, li, l, n, c.next, brs, None, t.depth, k, t3);
    DRunConcat(t, s, b.0.insns);
    KeptJoin(t, t3, t4, n, hi, l);
    t' := CaseClose(t, s + b.0.insns, t4, valued, b.1, l, n, hi, t.depth, k);
  }

  // Scopes and the rest

  /** Code between the labels of a scope. */
  lemma ScopeParts(t: Depths, c: Code, t1: Depths, l: nat, d: nat, n: nat) returns (t': Depths)
    requires !t.barrier && Leads(t, c.insns, c.flag, l, d, n + 2, c.next, t1)
    ensures Leads(t, [SLABEL(n)] + c.insns + [SLABEL(n + 1)], c.flag, l, d, n, c.next, t')
  {
    hide DRun, DStep;
    DRunOne(t, SLABEL(n));
    DStepStraight(t, SLABEL(n));
    DRunConcat(t, [SLABEL(n)], c.insns);
    DSnoc(t, [SLABEL(n)] + c.insns, SLABEL(n + 1));
    t' := t1;
    if t1.barrier {
      StillDead(t1, SLABEL(n + 1));
    } else {
      DStepStraight(t1, SLABEL(n + 1));
    }
    KeptWider(t, t1, n + 2, c.next, l, n, c.next, l);
  }

  lemma InitsYield(ds: seq<(string, Option<Expr>)>, x: Expr, k: nat)
    requires Yields(Scope(ds, x), k)
    ensures Yields(WithInits(ds, x), k)
  {
    hide Size;
    Continuations.WithInitsLeaves(ds, x, k);
  }

  lemma {:induction false} ScopeLeads(st: Names, li: nat, l: nat, n: nat, ds: seq<(string, Option<Expr>)>, x: Expr,
      k: nat, t: Depths) returns (t': Depths)
    requires Yields(Scope(ds, x), k) && Ready(t, l, t.depth + k, n, Compile(st, li, l, n, Scope(ds, x)).next)
    ensures var c := Compile(st, li, l, n, Scope(ds, x)); Leads(t, c.insns, c.flag, l, t.depth + k, n, c.next, t')
    decreases Size(Scope(ds, x)), 1
  {
    InitsYield(ds, x, k);
    hide Compile, DRun, Leads, Yields, Size, Open, Above, DeclNames, WithInits, Kept, Ready, Max;
    var e, xs, c := ScopeCode(st, li, l, n, ds, x);
    t' := ScopeInside(Open(st, xs, li), Above(st, xs, li), l, n, e, c, k, t);
  }

  lemma {:induction false} ScopeInside(st: Names, li: nat, l: nat, n: nat, e: Expr, c: Code, k: nat, t: Depths)
    returns (t': Depths)
    requires Yields(e, k) && c == Compile(st, li, l, n + 2, e) && Ready(t, l, t.depth + k, n, c.next)
    ensures Leads(t, [SLABEL(n)] + c.insns + [SLABEL(n + 1)], c.flag, l, t.depth + k, n, c.next, t')
    decreases Size(e), 4
  {
    hide Compile, DRun, Leads, Yields, Size, Kept;
    Ranged(st, li, l, n + 2, e);
    var t1 := CodeLeads(st, li, l, n + 2, e, k, t);
    t' := ScopeParts(t, c, t1, l, t.depth + k, n);
  }

  lemma {:induction false} SumOnes(m: nat)
    ensures Sum(Ones(m)) == m
  {
    if m > 0 {
      SumOnes(m - 1);
      assert Ones(m)[1..] == Ones(m - 1);
    }
  }

  lemma SumTwo(a: nat, b: nat)
    ensures Sum([a, b]) == a + b
  {
    assert [a, b][1..] == [b] && [b][1..] == [];
    assert Sum([b]) == b + Sum([]);
  }

  /** Instructions that make one value of the `m` topmost ones. */
  predicate Consumes(i: Insn, m: nat) {
    (m == 2 && (i.BINOP? || i.ELEM?)) || (m == 3 && i.STA?) || (i.SEXP? && m == i.n) || (i.CALL? && m == i.n)
    || (i.CALLC? && m == i.n + 1)
  }

  lemma ConsumesOne(i: Insn, m: nat, d: nat)
    requires Consumes(i, m)
    ensures After(i, d + m) == Some(d + 1)
  {
  }

  lemma {:induction false} AllYield(es: seq<Expr>)
    requires FirmAll(es) && forall x :: x in es ==> Leaves(x, 1)
    ensures forall j :: 0 <= j < |es| ==> Yields(es[j], 1)
    decreases |es|
  {
    hide Firm, Leaves;
    if es != [] {
      AllYield(es[1..]);
      forall j | 0 <= j < |es| ensures Yields(es[j], 1) {
        assert es[j] in es && (j > 0 ==> es[j] == es[1..][j - 1]);
      }
    }
  }

  /** The parts of an operator and its instruction. */
  lemma JoinedParts(e: Expr) returns (es: seq<Expr>, ks: seq<nat>)
    requires Labels.IsJoined(e) && Yields(e, 1)
    ensures |ks| == |es| && forall j :: 0 <= j < |es| ==> Yields(es[j], ks[j])
    ensures match e
      case Binop(_, x, y) => es == [x, y] && ks == [1, 1]
      case Elem(x, y) => es == [x, y] && ks == [1, 1]
      case Array(xs) => es == xs && ks == Ones(|xs|)
      case Sexp(_, xs) => es == xs && ks == Ones(|xs|)
      case Call(f, xs) => es == [f] + xs && ks == Ones(|xs| + 1)
      case Assign(x, y) => es == [x, y] && ks == [2, 1]
  {
    match e
    case Binop(op, x, y) => es, ks := [x, y], [1, 1];
    case Elem(x, y) => es, ks := [x, y], [1, 1];
    case Array(xs) => AllYield(xs); es, ks := xs, Ones(|xs|);
    case Sexp(t, xs) => AllYield(xs); es, ks := xs, Ones(|xs|);
    case Call(f, xs) => AllYield(xs); es, ks := [f] + xs, Ones(|xs| + 1);
    case Assign(x, y) => es, ks := [x, y], [2, 1];
  }

  /** What the operands of an operator leave is what its instruction consumes. */
  lemma JoinedYields(st: Names, li: nat, l: nat, n: nat, e: Expr) returns (es: seq<Expr>, ks: seq<nat>, i: Insn)
    requires Labels.IsJoined(e) && Yields(e, 1)
    ensures Compile(st, li, l, n, e) == CompileOperands(st, li, n, es, i) && SizeList(es) < Size(e)
    ensures |ks| == |es| && (forall j :: 0 <= j < |es| ==> Yields(es[j], ks[j])) && Consumes(i, Sum(ks))
  {
    hide CompileOperands, Sum, Yields, Ones;
    es, ks := JoinedParts(e);
    match e
    case Binop(op, x, y) => SizeTwo(x, y); SumTwo(1, 1); i := BINOP(op);
    case Elem(x, y) => SizeTwo(x, y); SumTwo(1, 1); i := ELEM;
    case Array(xs) => SumOnes(|xs|); i := CALL(".array", |xs|);
    case Sexp(t, xs) => SumOnes(|xs|); i := SEXP(t, |xs|);
    case Call(f, xs) =>
      SizeCons(f, xs);
      if f.Var? && Designated(st, f.name).Fun? {
        es, ks, i := xs, ks[1..], CALL(Designated(st, f.name).name, |xs|);
        OnesTail(|xs|);
        SumOnes(|xs|);
      } else {
        SumOnes(|xs| + 1);
        i := CALLC(|xs|);
      }
    case Assign(x, y) => SizeTwo(x, y); SumTwo(2, 1); i := STA;
  }

  lemma OnesTail(m: nat)
    ensures Ones(m + 1)[1..] == Ones(m)
  {
  }

  lemma JoinedOne(e: Expr, k: nat)
    requires Labels.IsJoined(e) && Leaves(e, k)
    ensures k == 1
  {
  }

  lemma PairYields(st: Names, li: nat, l: nat, n: nat, e: Expr, k: nat) returns (es: seq<Expr>, ks: seq<nat>)
    requires Labels.IsPair(e) && Yields(e, k)
    ensures Compile(st, li, l, n, e) == CompileList(st, li, l, n, es) && SizeList(es) < Size(e)
    ensures |ks| == |es| && (forall j :: 0 <= j < |es| ==> Yields(es[j], ks[j])) && Sum(ks) == k
  {
    hide CompileList;
    match e
    case ElemRef(x, y) => SizeTwo(x, y); SumTwo(1, 1); es, ks := [x, y], [1, 1];
    case Seq(x, y) => SizeTwo(x, y); SumTwo(0, k); es, ks := [x, y], [0, k];
  }

  lemma SingleYields(st: Names, li: nat, l: nat, n: nat, e: Expr, k: nat, d: nat) returns (x: Expr, i: Insn)
    requires Labels.IsSingle(e) && Yields(e, k)
    ensures Compile(st, li, l, n, e) == AddCode(Compile(st, li, n, n + 1, x), n, false, [i])
    ensures Size(x) < Size(e) && Yields(x, 1) && After(i, d + 1) == Some(d + k)
  {
    hide AddCode;
    if e.Ignore? {
      x, i := e.e, DROP;
    } else {
      x, i := e.source, ST(Designated(st, e.target.name));
    }
  }

  /** Constants, variables and the empty statement. */
  lemma SimpleLeads(st: Names, li: nat, l: nat, n: nat, e: Expr, k: nat, t: Depths) returns (t': Depths)
    requires e.Const? || e.Str? || e.Var? || e.Ref? || e.Skip? || e.Lambda?
    requires Leaves(e, k) && Ready(t, l, t.depth + k, n, Compile(st, li, l, n, e).next)
    ensures var c := Compile(st, li, l, n, e); Leads(t, c.insns, c.flag, l, t.depth + k, n, c.next, t')
  {
    var code := Compile(st, li, l, n, e).insns;
    assert Moves(code, t.depth, t.depth + k) by {
      if e.Skip? {
        NoMoves(t.depth);
      } else {
        MovesOne(code[0], t.depth);
        assert code == [code[0]];
      }
    }
    hide Compile, DRun, DStep, Moves;
    MovesRun(t, code, t.depth + k);
    t' := t.(depth := t.depth + k);
  }

  lemma LoopYields(e: Expr, k: nat)
    requires (e.While? || e.DoWhile?) && Yields(e, k)
    ensures k == 0 && Yields(e.cond, 1) && Yields(e.body, 0)
  {
  }

  lemma IfYields(e: Expr, k: nat)
    requires e.If? && Yields(e, k)
    ensures Yields(e.cond, 1) && Yields(e.thn, k) && Yields(e.els, k)
  {
  }

  lemma CaseYields(e: Expr, k: nat)
    requires e.Case? && Yields(e, k)
    ensures e.branches != [] && (Sealed(e.branches) || k == (if e.valued then 1 else 0))
    ensures Yields(e.scrutinee, 1) && BranchesYield(e.branches, k)
  {
    hide FirmBodies;
    forall i | 0 <= i < |e.branches| ensures Leaves(e.branches[i].1, k) {
      assert e.branches[i] in e.branches;
    }
    if k > 2 {
      LeavesFew(e.branches[0].1, k);
    }
  }

  lemma {:induction false} LeavesFew(e: Expr, k: nat)
    requires Leaves(e, k)
    ensures k <= 2
    decreases e
  {
    if e.Seq? {
      LeavesFew(e.second, k);
    } else if e.If? {
      LeavesFew(e.thn, k);
    } else if e.Case? {
      assert e.branches[0] in e.branches;
      LeavesFew(e.branches[0].1, k);
    } else if e.Scope? {
      LeavesFew(e.body, k);
    }
  }

  lemma OtherYields(e: Expr, k: nat)
    requires !Labels.IsPair(e) && !Labels.IsSingle(e) && !Labels.IsJoined(e) && Leaves(e, k)
    requires !e.If? && !e.While? && !e.DoWhile? && !e.Case? && !e.Scope?
    ensures e.Const? || e.Str? || e.Var? || e.Ref? || e.Skip? || e.Lambda?
  {
  }

  lemma YieldsLeaves(e: Expr, k: nat)
    requires Yields(e, k)
    ensures Leaves(e, k)
  {
  }

  /** Compiled code, entered anywhere at any depth: every edge into a label finds the same
      depth there, and the code leaves just the values that the expression stands for, at its
      end or by jumps to its target label as its flag says. */
  lemma {:induction false} CodeLeads(st: Names, li: nat, l: nat, n: nat, e: Expr, k: nat, t: Depths)
    returns (t': Depths)
    requires Yields(e, k) && Ready(t, l, t.depth + k, n, Compile(st, li, l, n, e).next)
    ensures var c := Compile(st, li, l, n, e); Leads(t, c.insns, c.flag, l, t.depth + k, n, c.next, t')
    decreases Size(e), 3
  {
    hide DRun, DStep, Compile, CompileOperands, CompileList, Leads, Ready, Leaves, Yields, BranchesYield, Sealed, Size,
      SizeList, After, Sum;
    YieldsLeaves(e, k);
    if Labels.IsPair(e) {
      var es, ks := PairYields(st, li, l, n, e, k);
      t' := ListLeads(st, li, l, n, es, ks, t);
    } else if e.If? {
      IfYields(e, k);
      t' := IfLeads(st, li, l, n, e.cond, e.thn, e.els, k, t);
    } else if e.While? {
      LoopYields(e, k);
      t' := WhileLeads(st, li, l, n, e.cond, e.body, t);
    } else if e.DoWhile? {
      LoopYields(e, k);
      t' := DoWhileLeads(st, li, l, n, e.cond, e.body, t);
    } else if e.Case? {
      CaseYields(e, k);
      t' := CaseLeads(st, li, l, n, e.scrutinee, e.branches, e.valued, k, t);
    } else if e.Scope? {
      t' := ScopeLeads(st, li, l, n, e.decls, e.body, k, t);
    } else if Labels.IsSingle(e) {
      var x, i := SingleYields(st, li, l, n, e, k, t.depth);
      t' := SingleLeads(st, li, l, n, x, i, t.depth + k, t);
    } else if Labels.IsJoined(e) {
      JoinedOne(e, k);
      var es, ks, i := JoinedYields(st, li, l, n, e);
      ConsumesOne(i, Sum(ks), t.depth);
      t' := OperandsLead(st, li, l, n, es, ks, i, t.depth + k, t);
    } else {
      OtherYields(e, k);
      t' := SimpleLeads(st, li, l, n, e, k, t);
    }
  }

  // Whole programs

  const START := Depths(0, false, map[], map[])

  /** Labels from `lo` on have not been met. */
  ghost predicate UnseenFrom(t: Depths, lo: nat) {
    forall x: nat :: x >= lo ==> x !in t.jumped && x !in t.placed
  }

  /** A main program runs through, and its END finds exactly one value. */
  lemma ProgramDepths(e: Expr) returns (t: Depths)
    requires Yields(e, 1)
    ensures DRun(START, CompileProgram(e)) == Some(t) && !t.barrier && t.depth == 0
    ensures UnseenFrom(t, Compile(NoNames, 0, 0, 1, e).next)
  {
    var c := Compile(NoNames, 0, 0, 1, e);
    hide Compile, Yields, DRun, DStep, Leads;
    Ranged(NoNames, 0, 0, 1, e);
    var t1 := CodeLeads(NoNames, 0, 0, 1, e, 1, START);
    t := MainRuns(c, t1);
  }

  lemma MainRuns(c: Code, t1: Depths) returns (t: Depths)
    requires Leads(START, c.insns, c.flag, 0, 1, 1, c.next, t1)
    requires 1 <= c.next
    ensures DRun(START, [BEGIN(c.locals)] + c.insns + Landing(c.flag, 0) + [END]) == Some(t) && !t.barrier &&
      t.depth == 0
    ensures UnseenFrom(t, c.next)
  {
    hide DRun, DStep, Leads, Landing;
    var body := c.insns + Landing(c.flag, 0);
    DRunOne(START, BEGIN(c.locals));
    DStepStraight(START, BEGIN(c.locals));
    var t2 := Landed(START, c.insns, c.flag, 0, 1, 1, c.next, t1);
    DRunConcat(START, [BEGIN(c.locals)], body);
    DSnoc(START, [BEGIN(c.locals)] + body, END);
    DStepStraight(t2, END);
    assert [BEGIN(c.locals)] + body + [END] == [BEGIN(c.locals)] + c.insns + Landing(c.flag, 0) + [END];
    t := t2.(depth := 0);
    forall x: nat | x >= c.next ensures x !in t.jumped && x !in t.placed {
      assert Still(START, t2, x);
    }
  }

  // Functions

  /** A function of the program: the names it sees, its first slot, its first label, its body. */
  datatype Routine = Routine(names: Names, base: nat, first: nat, body: Expr)

  function RoutineBody(r: Routine): Code {
    Compile(r.names, r.base, r.first + 2, r.first + 3, r.body)
  }

  /** `compile_fundef`: the end label stands there whether or not it is jumped to. */
  function RoutineCode(r: Routine): Prg {
    var c := RoutineBody(r);
    [BEGIN(c.locals), SLABEL(r.first)] + c.insns + [LABEL(r.first + 2), SLABEL(r.first + 1), END]
  }

  lemma RoutineRanged(r: Routine)
    ensures r.first + 3 <= RoutineBody(r).next
  {
    hide Compile;
    Ranged(r.names, r.base, r.first + 2, r.first + 3, r.body);
  }

  /** A function runs through from an empty stack, and its END finds exactly one value. */
  lemma RoutineDepths(r: Routine, t: Depths) returns (t': Depths)
    requires Yields(r.body, 1) && !t.barrier && t.depth == 0 && UnseenFrom(t, r.first)
    ensures DRun(t, RoutineCode(r)) == Some(t') && !t'.barrier && t'.depth == 0 && UnseenFrom(t', RoutineBody(r).next)
  {
    hide Compile, Yields, DRun, DStep, Leads;
    var c := RoutineBody(r);
    RoutineRanged(r);
    RoutineStart(r, t);
    var t1 := CodeLeads(r.names, r.base, r.first + 2, r.first + 3, r.body, 1, t);
    t' := RoutineEnd(r, c, t, t1);
  }

  lemma RoutineStart(r: Routine, t: Depths)
    requires !t.barrier && t.depth == 0 && UnseenFrom(t, r.first)
    ensures DRun(t, [BEGIN(RoutineBody(r).locals), SLABEL(r.first)]) == Some(t)
    ensures Ready(t, r.first + 2, 1, r.first + 3, RoutineBody(r).next)
  {
    hide Compile, DRun, DStep;
    RoutineRanged(r);
    var b := BEGIN(RoutineBody(r).locals);
    DRunOne(t, b);
    DStepStraight(t, b);
    DSnoc(t, [b], SLABEL(r.first));
    DStepStraight(t, SLABEL(r.first));
    assert [b] + [SLABEL(r.first)] == [b, SLABEL(r.first)];
  }

  lemma RoutineEnd(r: Routine, c: Code, t: Depths, t1: Depths) returns (t': Depths)
    requires c == RoutineBody(r) && DRun(t, [BEGIN(c.locals), SLABEL(r.first)]) == Some(t) && UnseenFrom(t, r.first)
    requires Leads(t, c.insns, c.flag, r.first + 2, 1, r.first + 3, c.next, t1) && r.first + 3 <= c.next
    ensures DRun(t, RoutineCode(r)) == Some(t') && !t'.barrier && t'.depth == 0 && UnseenFrom(t', c.next)
  {
    hide Compile, DRun, DStep, Leads;
    var l := r.first + 2;
    var t2 := LabelAlways(t, c.insns, c.flag, l, 1, r.first + 3, c.next, t1);
    var s := [BEGIN(c.locals), SLABEL(r.first)];
    DRunConcat(t, s, c.insns + [LABEL(l)]);
    DSnoc(t, s + (c.insns + [LABEL(l)]), SLABEL(r.first + 1));
    DStepStraight(t2, SLABEL(r.first + 1));
    DSnoc(t, s + (c.insns + [LABEL(l)]) + [SLABEL(r.first + 1)], END);
    DStepStraight(t2, END);
    assert s + (c.insns + [LABEL(l)]) + [SLABEL(r.first + 1)] + [END] == RoutineCode(r);
    t' := t2.(depth := 0);
    forall x: nat | x >= c.next ensures x !in t'.jumped && x !in t'.placed {
      assert Still(t, t2, x);
    }
  }

  function RoutinesCode(rs: seq<Routine>): Prg {
    if rs == [] then [] else RoutineCode(rs[0]) + RoutinesCode(rs[1..])
  }

  /** Functions take their labels one after the other, from `lo` on. */
  predicate Spaced(rs: seq<Routine>, lo: nat) {
    rs == [] || (lo <= rs[0].first && Spaced(rs[1..], RoutineBody(rs[0]).next))
  }

  /** The code of the main program and of all functions. */
  function WholeProgram(e: Expr, rs: seq<Routine>): Prg {
    CompileProgram(e) + RoutinesCode(rs)
  }

  lemma {:induction false} RoutinesDepths(rs: seq<Routine>, lo: nat, t: Depths) returns (t': Depths)
    requires !t.barrier && t.depth == 0 && UnseenFrom(t, lo) && Spaced(rs, lo) &&
      forall r :: r in rs ==> Yields(r.body, 1)
    ensures DRun(t, RoutinesCode(rs)) == Some(t') && !t'.barrier && t'.depth == 0
    decreases |rs|
  {
    hide DRun, DStep, RoutineCode, RoutineBody, Yields;
    if rs == [] {
      DNothing(t);
      t' := t;
    } else {
      var t1 := RoutineDepths(rs[0], t);
      t' := RoutinesDepths(rs[1..], RoutineBody(rs[0]).next, t1);
      DRunConcat(t, RoutineCode(rs[0]), RoutinesCode(rs[1..]));
    }
  }

  /** The whole code runs through: all functions find the depths that they expect. */
  lemma WholeDepths(e: Expr, rs: seq<Routine>) returns (t: Depths)
    requires Yields(e, 1) && (forall r :: r in rs ==> Yields(r.body, 1)) &&
      Spaced(rs, Compile(NoNames, 0, 0, 1, e).next)
    ensures DRun(START, WholeProgram(e, rs)) == Some(t) && !t.barrier && t.depth == 0
  {
    hide DRun, Compile, CompileProgram, RoutinesCode, Yields, Spaced;
    var t1 := ProgramDepths(e);
    t := RoutinesDepths(rs, Compile(NoNames, 0, 0, 1, e).next, t1);
    DRunConcat(START, CompileProgram(e), RoutinesCode(rs));
  }

  // Edges

  /** The depth with which control passes from instruction `i` of `p` to the label `l`: by a
      jump, or by reaching the label. */
  function Edge(t: Depths, p: Prg, i: nat, l: nat): Option<nat>
    requires i < |p|
  {
    match DRun(t, p[..i])
    case None => None
    case Some(t1) => EdgeOf(t1, p[i], l)
  }

  function EdgeOf(t: Depths, i: Insn, l: nat): Option<nat> {
    if i == JMP(l) && !t.barrier then Some(t.depth)
    else if i.CJMP? && i.l == l && !t.barrier && t.depth >= 1 then Some(t.depth - 1)
    else if i == LABEL(l) || i == FLABEL(l) then
      match DStep(t, i)
      case Some(t2) => if t2.barrier then None else Some(t2.depth)
      case None => None
    else None
  }

  /** Jumps to a label and the label itself agree. */
  ghost predicate Agreed(t: Depths) {
    forall l :: l in t.jumped && l in t.placed ==> t.jumped[l] == t.placed[l]
  }

  ghost predicate Noted(t: Depths, l: nat, d: nat) {
    Aims(t, l, d) && (l in t.jumped || l in t.placed)
  }

  lemma DStepNotes(t: Depths, i: Insn, t': Depths)
    requires DStep(t, i) == Some(t') && Agreed(t)
    ensures Agreed(t') && forall l, d :: Noted(t, l, d) ==> Noted(t', l, d)
  {
    hide After;
    if i.JMP? || i.CJMP? || i.LABEL? || i.FLABEL? {
    } else {
      assert t'.jumped == t.jumped && t'.placed == t.placed;
    }
  }

  lemma EdgeNoted(t: Depths, p: Prg, i: nat, l: nat)
    requires i < |p| && Edge(t, p, i, l).Some? && DRun(t, p[..i + 1]).Some? && Agreed(DRun(t, p[..i]).value)
    ensures Noted(DRun(t, p[..i + 1]).value, l, Edge(t, p, i, l).value)
  {
    assert p[..i + 1][..i] == p[..i] && p[..i + 1][i] == p[i];
  }

  lemma {:induction false} Remembered(t: Depths, p: Prg, i: nat, l: nat)
    requires i < |p| && DRun(t, p).Some? && Agreed(t)
    ensures Agreed(DRun(t, p).value) && (Edge(t, p, i, l).Some? ==> Noted(DRun(t, p).value, l, Edge(t, p, i, l).value))
    decreases |p|
  {
    var q := p[..|p| - 1];
    hide DStep, Noted, Edge, Agreed;
    if q == [] {
      assert DRun(t, q) == Some(t);
    } else {
      Remembered(t, q, if i < |q| then i else 0, l);
    }
    DStepNotes(DRun(t, q).value, p[|q|], DRun(t, p).value);
    if i < |q| {
      assert Edge(t, q, i, l) == Edge(t, p, i, l) by { EdgePrefix(t, p, i, l); }
    } else if Edge(t, p, i, l).Some? {
      assert p[..i] == q && p[..i + 1] == p;
      EdgeNoted(t, p, i, l);
    }
  }

  lemma EdgePrefix(t: Depths, p: Prg, i: nat, l: nat)
    requires i + 1 < |p|
    ensures Edge(t, p[..|p| - 1], i, l) == Edge(t, p, i, l)
  {
    hide DRun, DStep;
    assert p[..|p| - 1][..i] == p[..i];
  }

  /** Where a run goes through, all edges into a label have the same depth. */
  lemma RunEdges(p: Prg, i: nat, j: nat, l: nat)
    requires DRun(START, p).Some? && i < |p| && j < |p| && Edge(START, p, i, l).Some? && Edge(START, p, j, l).Some?
    ensures Edge(START, p, i, l) == Edge(START, p, j, l)
  {
    hide DRun, Edge;
    Remembered(START, p, i, l);
    Remembered(START, p, j, l);
  }

  /** In a compiled program, main program and functions, all edges into a label have the same
      depth. */
  lemma EdgesAgree(e: Expr, rs: seq<Routine>, i: nat, j: nat, l: nat)
    requires Yields(e, 1) && (forall r :: r in rs ==> Yields(r.body, 1)) &&
      Spaced(rs, Compile(NoNames, 0, 0, 1, e).next)
    requires i < |WholeProgram(e, rs)| && j < |WholeProgram(e, rs)|
    requires Edge(START, WholeProgram(e, rs), i, l).Some? && Edge(START, WholeProgram(e, rs), j, l).Some?
    ensures Edge(START, WholeProgram(e, rs), i, l) == Edge(START, WholeProgram(e, rs), j, l)
  {
    hide WholeProgram, DRun, Edge, Yields, Compile, Spaced;
    var t := WholeDepths(e, rs);
    RunEdges(WholeProgram(e, rs), i, j, l);
  }
}
