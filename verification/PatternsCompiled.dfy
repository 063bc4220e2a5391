/** Compiled patterns: the code falls through exactly on the values the machine's tests accept,
    consumes exactly one copy either way, and accepts what the reference matcher matches
    unless `#box` meets a value that is neither an integer nor an object. */
module PatternsCompiled {
  import opened Wrappers
  import opened Syntax
  import opened Reference
  import opened StackMachine
  import opened Compiler
  import opened Correspondence
  import opened PatternTests

  predicate Matches(p: Pattern, v: Value, store: Store) {
    MatchPattern(p, v, store, Some(map[])).Some?
  }

  // The matcher's success does not depend on what it has bound so far

  lemma {:induction false} MatchAnyway(p: Pattern, v: Value, store: Store, found: Option<map<string, Value>>)
    ensures MatchPattern(p, v, store, found).Some? <==> found.Some? && Matches(p, v, store)
    decreases p
  {
    match p
    case Named(_, q) =>
      MatchAnyway(q, v, store, found);
      MatchAnyway(q, v, store, Some(map[]));
    case PSexp(t, ps) =>
      if v.Obj? && v.loc < |store| && store[v.loc].Sx? && |store[v.loc].items| == |ps| {
        MatchListAnyway(ps, store[v.loc].items, store, found);
        MatchListAnyway(ps, store[v.loc].items, store, Some(map[]));
      }
    case PArray(ps) =>
      if v.Obj? && v.loc < |store| && store[v.loc].Arr? && |store[v.loc].items| == |ps| {
        MatchListAnyway(ps, store[v.loc].items, store, found);
        MatchListAnyway(ps, store[v.loc].items, store, Some(map[]));
      }
    case _ =>
  }

  predicate MatchesList(ps: seq<Pattern>, vs: seq<Value>, store: Store)
    requires |ps| == |vs|
  {
    forall i :: 0 <= i < |ps| ==> Matches(ps[i], vs[i], store)
  }

  lemma {:induction false} MatchListAnyway(ps: seq<Pattern>, vs: seq<Value>, store: Store,
      found: Option<map<string, Value>>)
    requires |ps| == |vs|
    ensures MatchList(ps, vs, store, found).Some? <==> found.Some? && MatchesList(ps, vs, store)
    decreases ps
  {
    if ps != [] {
      MatchAnyway(ps[0], vs[0], store, found);
      MatchListAnyway(ps[1..], vs[1..], store, MatchPattern(ps[0], vs[0], store, found));
      assert MatchesList(ps, vs, store) <==> Matches(ps[0], vs[0], store) && MatchesList(ps[1..], vs[1..], store) by {
        hide Matches;
        MatchesListStep(ps, vs, store);
      }
    }
  }

  lemma MatchesListStep(ps: seq<Pattern>, vs: seq<Value>, store: Store)
    requires |ps| == |vs| > 0
    ensures MatchesList(ps, vs, store) <==> Matches(ps[0], vs[0], store) && MatchesList(ps[1..], vs[1..], store)
  {
    hide Matches;
    if Matches(ps[0], vs[0], store) && MatchesList(ps[1..], vs[1..], store) {
      forall i | 0 <= i < |ps| ensures Matches(ps[i], vs[i], store) {
        if i > 0 {
          assert Matches(ps[1..][i - 1], vs[1..][i - 1], store);
        }
      }
    }
    if MatchesList(ps, vs, store) {
      forall i | 0 <= i < |ps| - 1 ensures Matches(ps[1..][i], vs[1..][i], store) {
        assert Matches(ps[i + 1], vs[i + 1], store);
      }
    }
  }

  /** The machine accepts everything the matcher matches; what it accepts beyond that are
      exactly the matches spoilt by `#box` on a value that is neither integer nor object. */
  lemma {:induction false} AcceptsMatches(p: Pattern, v: Value, store: Store)
    ensures Matches(p, v, store) <==> Accepts(p, v, store) && !BoxOnOther(p, v, store)
    decreases p
  {
    match p
    case Named(_, q) => AcceptsMatches(q, v, store);
    case PSexp(t, ps) =>
      if v.Obj? && v.loc < |store| && store[v.loc].Sx? && store[v.loc].tag == t && |store[v.loc].items| == |ps| {
        MatchListAnyway(ps, store[v.loc].items, store, Some(map[]));
        AcceptsMatchesList(ps, store[v.loc].items, store);
      }
    case PArray(ps) =>
      if v.Obj? && v.loc < |store| && store[v.loc].Arr? && |store[v.loc].items| == |ps| {
        MatchListAnyway(ps, store[v.loc].items, store, Some(map[]));
        AcceptsMatchesList(ps, store[v.loc].items, store);
      }
    case _ =>
  }

  /** `#box` against the empty value, which `write` returns: the machine takes the branch, the
      reference does not. */
  lemma BoxOnEmpty(store: Store)
    ensures Accepts(Boxed, Empty, store) && !Matches(Boxed, Empty, store) && BoxOnOther(Boxed, Empty, store)
  {
  }

  lemma {:induction false} AcceptsMatchesList(ps: seq<Pattern>, vs: seq<Value>, store: Store)
    requires |ps| == |vs|
    ensures MatchesList(ps, vs, store) <==> AcceptsList(ps, vs, store) && !BoxOnOtherList(ps, vs, store)
    decreases ps
  {
    hide Matches, Accepts, BoxOnOther;
    if ps != [] {
      AcceptsMatches(ps[0], vs[0], store);
      AcceptsMatchesList(ps[1..], vs[1..], store);
      MatchesListStep(ps, vs, store);
    }
  }

  lemma {:induction false} BoxFreeNever(p: Pattern, v: Value, store: Store)
    requires BoxFree(p)
    ensures !BoxOnOther(p, v, store)
    decreases p
  {
    match p
    case Named(_, q) => BoxFreeNever(q, v, store);
    case PSexp(_, ps) =>
      if v.Obj? && v.loc < |store| && store[v.loc].Sx? && |store[v.loc].items| == |ps| {
        BoxFreeNeverList(ps, store[v.loc].items, store);
      }
    case PArray(ps) =>
      if v.Obj? && v.loc < |store| && store[v.loc].Arr? && |store[v.loc].items| == |ps| {
        BoxFreeNeverList(ps, store[v.loc].items, store);
      }
    case _ =>
  }

  lemma {:induction false} BoxFreeNeverList(ps: seq<Pattern>, vs: seq<Value>, store: Store)
    requires |ps| == |vs| && forall q :: q in ps ==> BoxFree(q)
    ensures !BoxOnOtherList(ps, vs, store)
    decreases ps
  {
    if ps != [] {
      BoxFreeNever(ps[0], vs[0], store);
      BoxFreeNeverList(ps[1..], vs[1..], store);
    }
  }

  // The code

  /** The pattern code has run: it fell through exactly if the value is accepted, and one
      copy of the value is gone. */
  ghost predicate Tested(P: Prg, a: Machine, exit: nat, lfalse: nat, accepted: bool, f: Renaming, ws: Store,
                         d: Data, s: seq<Value>, d': Data)
  {
    && d' == d.(stack := s, store := d'.store)
    && Stores(f, ws, d'.store)
    && (!accepted ==> HasLabel(P, lfalse))
    && Goes(P, a, Machine(if accepted then exit else Labeled(P, lfalse), d'))
  }

  /** A test instruction followed by the conditional jump to the failure label. */
  lemma TestAndJump(P: Prg, a: Machine, pc: nat, i: Insn, lfalse: nat, hit: bool, f: Renaming, ws: Store,
                    d: Data, s: seq<Value>)
    requires Goes(P, a, Machine(pc, d)) && CodeAt(P, pc, [i, CJMP(false, lfalse)]) && HasLabel(P, lfalse)
    requires Run(i, d) == Some(d.(stack := [Bool(hit)] + s)) && Stores(f, ws, d.store)
    ensures Tested(P, a, pc + 2, lfalse, hit, f, ws, d, s, d.(stack := s))
  {
    hide Run, Goes, Stores;
    var d1 := d.(stack := [Bool(hit)] + s);
    assert [i, CJMP(false, lfalse)] == [i] + [CJMP(false, lfalse)];
    CodeHead(P, pc, i, [CJMP(false, lfalse)]);
    Advance(P, a, pc, i, d, d1);
    CondJump(P, pc + 1, false, lfalse, d1, Truth(hit), s);
    GoesTrans(P, a, Machine(pc + 1, d1), Machine(if hit then pc + 2 else Labeled(P, lfalse), d.(stack := s)));
  }

  /** The instruction that a simple test starts with, after its operand is in place. */
  lemma SimpleTest(p: Pattern, i: Patt, f: Renaming, ws: Store, v: Value, d: Data, s: seq<Value>)
    requires !p.Named? && PatternCode(p, 0, 0).2[0] == PATT(i) && i != StrCmp
    requires Stores(f, ws, d.store) && Known(f, v) && d.stack == [Rename(f, v)] + s
    ensures Run(PATT(i), d) == Some(d.(stack := [Bool(Accepts(p, v, ws))] + s))
  {
    assert d.stack[1..] == s;
    if v.Obj? {
      assert SameObject(f, ws, d.store, v.loc);
    }
  }

  /** `CONST c; BINOP "=="` and `STRING t; PATT StrCmp`. */
  lemma GroundTest(p: Pattern, f: Renaming, ws: Store, v: Value, d: Data, s: seq<Value>) returns (d1: Data, d2: Data)
    requires p.PConst? || p.PString?
    requires Stores(f, ws, d.store) && Known(f, v) && d.stack == [Rename(f, v)] + s
    ensures Run(if p.PConst? then CONST(p.n) else STRING(p.text), d) == Some(d1)
    ensures Run(if p.PConst? then BINOP("==") else PATT(StrCmp), d1) == Some(d2)
    ensures d1 == d.(store := d1.store, stack := d1.stack) && Stores(f, ws, d1.store)
    ensures d2 == d1.(stack := [Bool(Accepts(p, v, ws))] + s)
  {
    if p.PConst? {
      d1 := d.(stack := [Int(p.n)] + d.stack);
    } else {
      StoresGarbage(f, ws, d.store, Bytes(p.text));
      d1 := d.(store := d.store + [Bytes(p.text)], stack := [Obj(|d.store|)] + d.stack);
    }
    d2 := d.(store := d1.store, stack := [Bool(Accepts(p, v, ws))] + s);
    assert d1.stack[1] == Rename(f, v) && d1.stack[2..] == s;
    if v.Obj? {
      assert SameObject(f, ws, d.store, v.loc);
    }
  }

  /** `DUP; CONST i; ELEM`: the i-th component on top of the value. */
  lemma TakeComponent(P: Prg, a: Machine, pc: nat, f: Renaming, ws: Store, v: Value, i: nat, item: Value,
                      d: Data, s: seq<Value>) returns (d': Data)
    requires Goes(P, a, Machine(pc, d)) && CodeAt(P, pc, [DUP, CONST(i), ELEM])
    requires Stores(f, ws, d.store) && d.stack == [Rename(f, v)] + s && ElemOf(ws, v, i) == Some(item)
    ensures Known(f, item)
    ensures d' == d.(stack := [Rename(f, item), Rename(f, v)] + s)
    ensures Goes(P, a, Machine(pc + 3, d'))
  {
    hide Goes, Stores;
    ElemCorresponds(f, ws, d.store, v, i);
    assert [DUP, CONST(i), ELEM] == [DUP] + ([CONST(i)] + [ELEM]);
    CodeHead(P, pc, DUP, [CONST(i)] + [ELEM]);
    CodeHead(P, pc + 1, CONST(i), [ELEM]);
    var v' := Rename(f, v);
    var d1 := d.(stack := [v'] + d.stack);
    var d2 := d.(stack := [Int(i)] + d1.stack);
    d' := d.(stack := [Rename(f, item), v'] + s);
    Advance(P, a, pc, DUP, d, d1);
    Advance(P, a, pc + 1, CONST(i), d1, d2);
    assert d2.stack[1] == v' && d2.stack[2..] == [v'] + s;
    assert [Rename(f, item)] + ([v'] + s) == [Rename(f, item), v'] + s;
    Advance(P, a, pc + 2, ELEM, d2, d');
  }

  /** Compiled pattern code, on any value and in any position. */
  lemma {:induction false} PatternRuns(P: Prg, a: Machine, pc: nat, p: Pattern, lfalse: nat, n: nat,
                                       f: Renaming, ws: Store, v: Value, d: Data, s: seq<Value>) returns (d': Data)
    requires LabelsUnique(P) && CodeAt(P, pc, PatternCode(p, lfalse, n).2) && Goes(P, a, Machine(pc, d))
    requires PatternCode(p, lfalse, n).1 ==> HasLabel(P, lfalse)
    requires Stores(f, ws, d.store) && Known(f, v) && d.stack == [Rename(f, v)] + s
    ensures Tested(P, a, pc + |PatternCode(p, lfalse, n).2|, lfalse, Accepts(p, v, ws), f, ws, d, s, d')
    ensures !PatternCode(p, lfalse, n).1 ==> Accepts(p, v, ws)
    decreases p
  {
    match p
    case Wildcard =>
      d' := d.(stack := s);
      assert d.stack[1..] == s;
      Advance(P, a, pc, DROP, d, d');
    case Named(_, q) =>
      d' := PatternRuns(P, a, pc, q, lfalse, n, f, ws, v, d, s);
    case PSexp(t, ps) =>
      d' := StructureRuns(P, a, pc, p, ps, lfalse, n, f, ws, v, d, s);
    case PArray(ps) =>
      d' := StructureRuns(P, a, pc, p, ps, lfalse, n, f, ws, v, d, s);
    case _ =>
      hide Goes, Stores, Run, Accepts;
      d' := TestRuns(P, a, pc, p, lfalse, n, f, ws, v, d, s);
  }

  lemma TestRuns(P: Prg, a: Machine, pc: nat, p: Pattern, lfalse: nat, n: nat,
                 f: Renaming, ws: Store, v: Value, d: Data, s: seq<Value>) returns (d': Data)
    requires !p.Wildcard? && !p.Named? && !p.PSexp? && !p.PArray?
    requires CodeAt(P, pc, PatternCode(p, lfalse, n).2) && Goes(P, a, Machine(pc, d)) && HasLabel(P, lfalse)
    requires Stores(f, ws, d.store) && Known(f, v) && d.stack == [Rename(f, v)] + s
    ensures Tested(P, a, pc + |PatternCode(p, lfalse, n).2|, lfalse, Accepts(p, v, ws), f, ws, d, s, d')
  {
    hide Goes, Stores, Run, Accepts, CodeAt, HasLabel;
    var code := PatternCode(p, lfalse, n).2;
    if p.PConst? || p.PString? {
      var d1, d2 := GroundTest(p, f, ws, v, d, s);
      var i0, i1 := code[0], code[1];
      assert code == [i0] + [i1, CJMP(false, lfalse)];
      CodeHead(P, pc, i0, [i1, CJMP(false, lfalse)]);
      Advance(P, a, pc, i0, d, d1);
      TestAndJump(P, a, pc + 1, i1, lfalse, Accepts(p, v, ws), f, ws, d1, s);
      d' := d1.(stack := s);
    } else {
      SimpleTest(p, code[0].p, f, ws, v, d, s);
      assert code == [code[0], CJMP(false, lfalse)];
      TestAndJump(P, a, pc, code[0], lfalse, Accepts(p, v, ws), f, ws, d, s);
      d' := d.(stack := s);
    }
  }

  /** The value is of the right kind, tag and length; its components are tested afterwards. */
  predicate RightHead(p: Pattern, v: Value, store: Store)
    requires p.PSexp? || p.PArray?
  {
    && v.Obj? && v.loc < |store|
    && (if p.PSexp? then store[v.loc].Sx? && store[v.loc].tag == p.tag else store[v.loc].Arr?)
    && |store[v.loc].items| == |p.ps|
  }

  lemma HeadTest(p: Pattern, f: Renaming, ws: Store, v: Value, d: Data, s: seq<Value>)
    requires p.PSexp? || p.PArray?
    requires Stores(f, ws, d.store) && Known(f, v) && d.stack == [Rename(f, v), Rename(f, v)] + s
    ensures Run(if p.PSexp? then TAG(p.tag, |p.ps|) else ARRAY(|p.ps|), d) ==
      Some(d.(stack := [Bool(RightHead(p, v, ws))] + ([Rename(f, v)] + s)))
  {
    assert d.stack[1..] == [Rename(f, v)] + s;
    if v.Obj? {
      assert SameObject(f, ws, d.store, v.loc);
    }
  }

  /** The common failure exit of the components: drop the value and fail. */
  lemma DropAndFail(P: Prg, a: Machine, pc: nat, ldrop: nat, lfalse: nat, d: Data, v: Value, s: seq<Value>)
    requires CodeAt(P, pc, [DROP, JMP(lfalse)]) && HasLabel(P, lfalse)
    requires Goes(P, a, Machine(pc, d)) && d.stack == [v] + s
    ensures Goes(P, a, Machine(Labeled(P, lfalse), d.(stack := s)))
  {
    hide Goes, HasLabel;
    assert [DROP, JMP(lfalse)] == [DROP] + [JMP(lfalse)];
    CodeHead(P, pc, DROP, [JMP(lfalse)]);
    var d' := d.(stack := s);
    assert d.stack[1..] == s;
    Advance(P, a, pc, DROP, d, d');
    Jump(P, pc + 1, lfalse, d');
    GoesTrans(P, a, Machine(pc + 1, d'), Machine(Labeled(P, lfalse), d'));
  }

  /** Positions in the head of a structured pattern. */
  lemma HeadPlaces(P: Prg, pc: nat, test: Insn, lhead: nat, ldrop: nat, lfalse: nat, code: Prg)
    requires LabelsUnique(P) && CodeAt(P, pc, Head(test, lhead, ldrop, lfalse) + code + [DROP])
    ensures CodeAt(P, pc, [DUP]) && CodeAt(P, pc + 1, [test]) && CodeAt(P, pc + 2, [CJMP(true, lhead)])
    ensures CodeAt(P, pc + 3, [LABEL(ldrop)]) && CodeAt(P, pc + 4, [DROP, JMP(lfalse)])
    ensures CodeAt(P, pc + 7, code) && CodeAt(P, pc + 7 + |code|, [DROP])
    ensures HasLabel(P, lhead) && Labeled(P, lhead) == pc + 7
    ensures HasLabel(P, ldrop) && Labeled(P, ldrop) == pc + 4
  {
    hide CodeAt, HasLabel, LabelsUnique;
    var head := Head(test, lhead, ldrop, lfalse);
    CodeSplit(P, pc, head + code, [DROP]);
    CodeSplit(P, pc, head, code);
    var r6 := [LABEL(lhead)];
    var r4 := [DROP, JMP(lfalse)] + r6;
    var r3 := [LABEL(ldrop)] + r4;
    var r2 := [CJMP(true, lhead)] + r3;
    var r1 := [test] + r2;
    assert head == [DUP] + r1;
    CodeHead(P, pc, DUP, r1);
    CodeHead(P, pc + 1, test, r2);
    CodeHead(P, pc + 2, CJMP(true, lhead), r3);
    CodeHead(P, pc + 3, LABEL(ldrop), r4);
    CodeSplit(P, pc + 4, [DROP, JMP(lfalse)], r6);
    LabelHere(P, pc + 6, LABEL(lhead), lhead);
    LabelHere(P, pc + 3, LABEL(ldrop), ldrop);
  }

  /** `DUP`, the test, and the jump over the failure exit. */
  lemma HeadRuns(P: Prg, a: Machine, pc: nat, p: Pattern, lhead: nat, ldrop: nat, lfalse: nat, code: Prg,
                 f: Renaming, ws: Store, v: Value, d: Data, s: seq<Value>)
    requires p.PSexp? || p.PArray?
    requires LabelsUnique(P) && HasLabel(P, lfalse) && Goes(P, a, Machine(pc, d))
    requires CodeAt(P, pc, Head(if p.PSexp? then TAG(p.tag, |p.ps|) else ARRAY(|p.ps|), lhead, ldrop, lfalse) + code
      + [DROP])
    requires Stores(f, ws, d.store) && Known(f, v) && d.stack == [Rename(f, v)] + s
    ensures RightHead(p, v, ws) ==> Goes(P, a, Machine(pc + 7, d))
    ensures !RightHead(p, v, ws) ==> Goes(P, a, Machine(Labeled(P, lfalse), d.(stack := s)))
  {
    hide Goes, Stores, CodeAt, HasLabel, LabelsUnique, RightHead;
    var test := if p.PSexp? then TAG(p.tag, |p.ps|) else ARRAY(|p.ps|);
    HeadPlaces(P, pc, test, lhead, ldrop, lfalse, code);
    var v', hit := Rename(f, v), RightHead(p, v, ws);
    var d1 := d.(stack := [v', v'] + s);
    assert [v'] + d.stack == d1.stack;
    var d2 := d.(stack := [Bool(hit)] + d.stack);
    Advance(P, a, pc, DUP, d, d1);
    HeadTest(p, f, ws, v, d1, s);
    hide Run;
    Advance(P, a, pc + 1, test, d1, d2);
    CondJump(P, pc + 2, true, lhead, d2, Truth(hit), d.stack);
    GoesTrans(P, a, Machine(pc + 2, d2), Machine(if hit then pc + 7 else pc + 3, d));
    if !hit {
      SkipLabel(P, a, pc + 3, LABEL(ldrop), d);
      DropAndFail(P, a, pc + 4, ldrop, lfalse, d, v', s);
    }
  }

  lemma {:induction false} StructureRuns(P: Prg, a: Machine, pc: nat, p: Pattern, ps: seq<Pattern>, lfalse: nat, n: nat,
                                         f: Renaming, ws: Store, v: Value, d: Data, s: seq<Value>) returns (d': Data)
    requires (p.PSexp? || p.PArray?) && p.ps == ps
    requires LabelsUnique(P) && CodeAt(P, pc, PatternCode(p, lfalse, n).2) && Goes(P, a, Machine(pc, d)) &&
      HasLabel(P, lfalse)
    requires Stores(f, ws, d.store) && Known(f, v) && d.stack == [Rename(f, v)] + s
    ensures Tested(P, a, pc + |PatternCode(p, lfalse, n).2|, lfalse, Accepts(p, v, ws), f, ws, d, s, d')
    decreases ps, 1
  {
    hide Goes, Stores, Run, CodeAt, HasLabel, LabelsUnique, AcceptsList, PatternListCode, ElemOf;
    var code := PatternListCode(ps, 0, n + 1, n + 2).1;
    var test := if p.PSexp? then TAG(p.tag, |p.ps|) else ARRAY(|p.ps|);
    assert PatternCode(p, lfalse, n).2 == Head(test, n, n + 1, lfalse) + code + [DROP];
    HeadRuns(P, a, pc, p, n, n + 1, lfalse, code, f, ws, v, d, s);
    HeadPlaces(P, pc, test, n, n + 1, lfalse, code);
    if !RightHead(p, v, ws) {
      d' := d.(stack := s);
    } else {
      var items := ws[v.loc].items;
      ComponentsAt(ws, v);
      var d1 := ListRuns(P, a, pc + 7, ps, 0, n + 1, n + 2, f, ws, v, items, d, s);
      d' := d1.(stack := s);
      if AcceptsList(ps, items, ws) {
        DropTop(P, a, pc + 7 + |code|, d1, Rename(f, v), s);
      } else {
        DropAndFail(P, a, pc + 4, n + 1, lfalse, d1, Rename(f, v), s);
      }
    }
  }

  lemma ComponentsAt(ws: Store, v: Value)
    requires v.Obj? && v.loc < |ws| && !ws[v.loc].Bytes?
    ensures forall j :: 0 <= j < |ws[v.loc].items| ==> ElemOf(ws, v, 0 + j) == Some(ws[v.loc].items[j])
  {
  }

  lemma {:induction false} ListRuns(P: Prg, a: Machine, pc: nat, ps: seq<Pattern>, i: nat, ldrop: nat, n: nat,
      f: Renaming, ws: Store, v: Value, items: seq<Value>, d: Data, s: seq<Value>) returns (d': Data)
    requires LabelsUnique(P) && CodeAt(P, pc, PatternListCode(ps, i, ldrop, n).1) && Goes(P, a, Machine(pc, d)) &&
      HasLabel(P, ldrop)
    requires Stores(f, ws, d.store) && d.stack == [Rename(f, v)] + s && |items| == |ps|
    requires forall j :: 0 <= j < |items| ==> ElemOf(ws, v, i + j) == Some(items[j])
    ensures Tested(P, a, pc + |PatternListCode(ps, i, ldrop, n).1|, ldrop, AcceptsList(ps, items, ws), f, ws, d,
      d.stack, d')
    decreases ps, 0
  {
    hide Goes, Stores, Run, CodeAt, HasLabel, ElemOf, Accepts, PatternCode;
    if ps == [] {
      d' := d;
    } else {
      var (n1, flag, code) := PatternCode(ps[0], ldrop, n);
      var (n2, rest) := PatternListCode(ps[1..], i + 1, ldrop, n1);
      var head := [DUP, CONST(i), ELEM];
      CodeSplit(P, pc, head + code, rest);
      CodeSplit(P, pc, head, code);
      assert ElemOf(ws, v, i + 0) == Some(items[0]);
      var d1 := TakeComponent(P, a, pc, f, ws, v, i, items[0], d, s);
      assert d1.stack == [Rename(f, items[0])] + d.stack;
      var d2 := PatternRuns(P, a, pc + 3, ps[0], ldrop, n, f, ws, items[0], d1, d.stack);
      if Accepts(ps[0], items[0], ws) {
        d' := ListRuns(P, a, pc + 3 + |code|, ps[1..], i + 1, ldrop, n1, f, ws, v, items[1..], d2, s);
      } else {
        d' := d2;
      }
    }
  }
}
