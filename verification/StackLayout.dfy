/** How the interpreter lays activations out: words of the stack from its top up to the
    globals, the words of the call stack, and the registers, all determined by the frames. */
module StackLayout {
  import opened Wrappers
  import opened InterpreterFrames

  function Enc(v: Value): Word {
    match v
    case Empty => Num(0)
    case Int(n) => Num(n)
    case Clo(id) => Ref(id)
  }

  function EncAll(vs: seq<Value>): (ws: seq<Word>)
    ensures |ws| == |vs| && forall i :: 0 <= i < |vs| ==> ws[i] == Enc(vs[i])
  {
    seq(|vs|, i requires 0 <= i < |vs| => Enc(vs[i]))
  }

  function EncObjs(os: seq<Closed<Value>>): (cs: seq<Closed<Word>>)
    ensures |cs| == |os| && forall i :: 0 <= i < |os| ==> cs[i] == Closed(os[i].code, EncAll(os[i].captured))
  {
    seq(|os|, i requires 0 <= i < |os| => Closed(os[i].code, EncAll(os[i].captured)))
  }

  function ClosureWord(closure: Option<nat>): seq<Word> {
    match closure
    case None => []
    case Some(id) => [Ref(id)]
  }

  /** Locals, arguments and the closure: the fixed part of a frame. */
  function Fixed(loc: Activation): seq<Word> {
    EncAll(Reverse(loc.locals)) + EncAll(Reverse(loc.args)) + ClosureWord(loc.closure)
  }

  function FrameWords(f: Frame): seq<Word> {
    EncAll(f.ops) + Fixed(f.loc)
  }

  /** Upwards from the word above the top of the stack. */
  function Layout(fs: seq<Frame>): seq<Word> {
    if fs == [] then [] else FrameWords(fs[0]) + Layout(fs[1..])
  }

  // Registers

  function ArgsOf(fs: seq<Frame>): nat {
    if fs == [] then 0 else if |fs| == 1 then MAIN_ARGS else |fs[0].loc.args|
  }

  function LocalsOf(fs: seq<Frame>): nat {
    if fs == [] then 0 else |fs[0].loc.locals|
  }

  /** Where the first local of the current frame is, for a stack that ends at `g`. */
  function FrameAt(fs: seq<Frame>, g: int): int {
    if fs == [] then 0 else g - |Layout(fs[1..])| - |ClosureWord(fs[0].loc.closure)| - |fs[0].loc.args| - 1
  }

  function Flag(b: bool): int {
    if b then 1 else 0
  }

  /** The words that a call leaves: where to go on. */
  function Returns(fs: seq<Frame>, g: int): seq<int>
    decreases |fs|, 0
  {
    if |fs| <= 1 then [] else [fs[0].ret] + Saved(fs[1..], g)
  }

  /** The words that BEGIN leaves: the registers of the caller. */
  function Saved(fs: seq<Frame>, g: int): seq<int>
    decreases |fs|, 1
  {
    if fs == [] then []
    else [Flag(fs[0].loc.closure.Some?), LocalsOf(fs[1..]), ArgsOf(fs[1..]), FrameAt(fs[1..], g)] + Returns(fs, g)
  }

  // What steps do to the layout

  lemma {:induction false} Replaced(fs: seq<Frame>, f: Frame)
    requires fs != []
    ensures Layout([f] + fs[1..]) == FrameWords(f) + Layout(fs[1..])
    ensures Layout(fs) == FrameWords(fs[0]) + Layout(fs[1..])
  {
    assert ([f] + fs[1..])[1..] == fs[1..];
  }

  lemma EncCons(v: Value, vs: seq<Value>)
    ensures EncAll([v] + vs) == [Enc(v)] + EncAll(vs)
  {
  }

  lemma EncSplit(vs: seq<Value>, n: nat)
    requires n <= |vs|
    ensures EncAll(vs) == EncAll(vs[..n]) + EncAll(vs[n..])
  {
  }

  lemma Joined<T>(a: seq<T>, b: seq<T>, c: seq<T>)
    ensures (a + b) + c == a + (b + c)
  {
  }

  lemma FramePush(f: Frame, v: Value, rest: seq<Word>)
    ensures FrameWords(f.(ops := [v] + f.ops)) + rest == [Enc(v)] + (FrameWords(f) + rest)
  {
    EncCons(v, f.ops);
    hide EncAll, Fixed;
    Joined([Enc(v)], EncAll(f.ops), Fixed(f.loc));
    Joined([Enc(v)], FrameWords(f), rest);
  }

  lemma {:induction false} LayoutPush(fs: seq<Frame>, v: Value)
    requires fs != []
    ensures Layout([fs[0].(ops := [v] + fs[0].ops)] + fs[1..]) == [Enc(v)] + Layout(fs)
  {
    Replaced(fs, fs[0].(ops := [v] + fs[0].ops));
    hide Layout, FrameWords;
    FramePush(fs[0], v, Layout(fs[1..]));
  }

  lemma {:induction false} LayoutPop(fs: seq<Frame>)
    requires fs != [] && fs[0].ops != []
    ensures Layout(fs) == [Enc(fs[0].ops[0])] + Layout([fs[0].(ops := fs[0].ops[1..])] + fs[1..])
  {
    var f := fs[0].(ops := fs[0].ops[1..]);
    Replaced(fs, f);
    hide Layout, FrameWords;
    assert [fs[0].ops[0]] + f.ops == fs[0].ops;
    FramePush(f, fs[0].ops[0], Layout(fs[1..]));
  }

  /** The words of a new activation are those of its arguments on the stack of its caller. */
  lemma CalleeWords(ops: seq<Value>, n: nat, k: nat, closure: Option<nat>, ret: nat)
    requires n <= k <= |ops| && k == n + |ClosureWord(closure)| && (closure.Some? ==> ops[n] == Clo(closure.value))
    ensures FrameWords(Frame(Activation(Reverse(ops[..n]), [], closure), [], ret)) == EncAll(ops[..k])
  {
    ReverseTwice(ops[..n]);
    EncSplit(ops[..k], n);
    assert ops[..k][..n] == ops[..n];
    assert EncAll(ops[..k][n..]) == ClosureWord(closure);
    NewWords(Reverse(ops[..n]), closure, ret);
    hide EncAll, Reverse, FrameWords, ClosureWord;
  }

  lemma NewWords(args: seq<Value>, closure: Option<nat>, ret: nat)
    ensures FrameWords(Frame(Activation(args, [], closure), [], ret)) == EncAll(Reverse(args)) + ClosureWord(closure)
  {
    assert EncAll(Reverse<Value>([])) == [] && EncAll([]) == [];
    hide EncAll, Reverse, ClosureWord;
  }

  /** A call moves no words: the operands of the caller become the arguments. */
  lemma {:induction false} LayoutCall(s: State, n: nat, k: nat, closure: Option<nat>, l: nat)
    requires s.frames != [] && n <= k <= |s.frames[0].ops|
    requires k == n + |ClosureWord(closure)| && (closure.Some? ==> s.frames[0].ops[n] == Clo(closure.value))
    ensures Layout(Called(s, n, k, closure, l).frames) == Layout(s.frames)
  {
    var f, rest := s.frames[0], Layout(s.frames[1..]);
    var caller := f.(ops := f.ops[k..]);
    var callee := Frame(Activation(Reverse(f.ops[..n]), [], closure), [], s.pc + 1);
    var fs := Called(s, n, k, closure, l).frames;
    assert fs[0] == callee && fs[1..] == [caller] + s.frames[1..];
    Replaced(s.frames, caller);
    Replaced(fs, callee);
    CalleeWords(f.ops, n, k, closure, s.pc + 1);
    EncSplit(f.ops, k);
    hide Layout, Fixed, EncAll, Called;
    Joined(EncAll(f.ops[..k]), EncAll(f.ops[k..]), Fixed(f.loc));
    Joined(EncAll(f.ops[..k]), FrameWords(caller), rest);
  }

  lemma {:induction false} LayoutReturn(s: State)
    requires |s.frames| >= 2 && |s.frames[0].ops| == 1
    ensures var f := s.frames[0]; var below := Layout(s.frames[1..]);
      Layout(s.frames) == [Enc(f.ops[0])] + Fixed(f.loc) + below &&
        Layout(Returned(s).frames) == [Enc(f.ops[0])] + below
  {
    var f := s.frames[0];
    assert f.ops == [f.ops[0]];
    assert EncAll(f.ops) == [Enc(f.ops[0])];
    LayoutPush(s.frames[1..], f.ops[0]);
    assert s.frames[1..][1..] == s.frames[2..];
    assert Returned(s).frames == [s.frames[1].(ops := [f.ops[0]] + s.frames[1].ops)] + s.frames[1..][1..];
  }

  /** BEGIN makes room for the locals. */
  lemma {:induction false} LayoutBegin(fs: seq<Frame>, m: nat)
    requires fs != [] && fs[0].ops == [] && fs[0].loc.locals == []
    ensures Layout([fs[0].(loc := fs[0].loc.(locals := Fresh(m)))] + fs[1..]) == Blank(m) + Layout(fs)
  {
    var f := fs[0].(loc := fs[0].loc.(locals := Fresh(m)));
    Replaced(fs, f);
    hide Layout;
    assert EncAll([]) == [] && EncAll(Reverse<Value>([])) == [];
    assert EncAll(Reverse(Fresh(m))) == Blank(m);
    assert FrameWords(f) == Blank(m) + FrameWords(fs[0]);
  }

  function Blank(m: nat): (ws: seq<Word>)
    ensures |ws| == m && forall i :: 0 <= i < m ==> ws[i] == Num(0)
  {
    seq(m, _ => Num(0))
  }

  // Where variables are

  /** The place of a local or an argument, counted from the top of the stack. */
  function Place(f: Frame, d: Location): int
    requires d.Local? || d.Arg?
  {
    if d.Local? then |f.ops| + |f.loc.locals| - 1 - d.i else |f.ops| + |f.loc.locals| + |f.loc.args| - 1 - d.i
  }

  /** The place of the closure. */
  function ClosurePlace(f: Frame): nat {
    |f.ops| + |f.loc.locals| + |f.loc.args|
  }

  lemma FixedSize(loc: Activation)
    ensures |Fixed(loc)| == |loc.locals| + |loc.args| + |ClosureWord(loc.closure)|
  {
  }

  lemma {:induction false} LayoutFetch(fs: seq<Frame>, d: Location, glob: seq<Value>, objs: seq<Closed<Value>>)
    requires fs != [] && (d.Local? || d.Arg?) && Fetch(d, fs[0].loc, glob, objs).Some?
    ensures 0 <= Place(fs[0], d) < |Layout(fs)| &&
      Layout(fs)[Place(fs[0], d)] == Enc(Fetch(d, fs[0].loc, glob, objs).value)
  {
    var f := fs[0];
    Replaced(fs, f);
    hide Layout;
    FixedSize(f.loc);
    var k := Place(f, d);
    assert FrameWords(f)[k] == Fixed(f.loc)[k - |f.ops|];
  }

  lemma {:induction false} LayoutClosure(fs: seq<Frame>)
    requires fs != [] && fs[0].loc.closure.Some?
    ensures ClosurePlace(fs[0]) < |Layout(fs)| && Layout(fs)[ClosurePlace(fs[0])] == Ref(fs[0].loc.closure.value)
  {
    var f := fs[0];
    Replaced(fs, f);
    hide Layout;
    FixedSize(f.loc);
    assert FrameWords(f)[ClosurePlace(f)] == Fixed(f.loc)[|f.loc.locals| + |f.loc.args|];
  }

  lemma FixedPut(d: Location, v: Value, loc: Activation, glob: seq<Value>, objs: seq<Closed<Value>>)
    requires (d.Local? || d.Arg?) && Fetch(d, loc, glob, objs).Some?
    ensures var k := if d.Local? then |loc.locals| - 1 - d.i else |loc.locals| + |loc.args| - 1 - d.i;
      0 <= k < |Fixed(loc)| && Fixed(Put(d, v, loc, glob, objs).0) == Fixed(loc)[k := Enc(v)]
  {
    var loc' := Put(d, v, loc, glob, objs).0;
    if d.Local? {
      assert EncAll(Reverse(loc'.locals)) == EncAll(Reverse(loc.locals))[|loc.locals| - 1 - d.i := Enc(v)];
    } else {
      assert EncAll(Reverse(loc'.args)) == EncAll(Reverse(loc.args))[|loc.args| - 1 - d.i := Enc(v)];
    }
  }

  lemma PutInside<T>(a: seq<T>, b: seq<T>, c: seq<T>, k: nat, w: T)
    requires k < |b|
    ensures (a + b[k := w]) + c == ((a + b) + c)[|a| + k := w]
  {
  }

  lemma {:induction false} LayoutPut(fs: seq<Frame>, d: Location, v: Value, glob: seq<Value>, objs: seq<Closed<Value>>)
    requires fs != [] && (d.Local? || d.Arg?) && Fetch(d, fs[0].loc, glob, objs).Some?
    ensures 0 <= Place(fs[0], d) < |Layout(fs)|
    ensures Layout([fs[0].(loc := Put(d, v, fs[0].loc, glob, objs).0)] + fs[1..])
      == Layout(fs)[Place(fs[0], d) := Enc(v)]
  {
    var f := fs[0];
    Replaced(fs, f.(loc := Put(d, v, f.loc, glob, objs).0));
    FixedPut(d, v, f.loc, glob, objs);
    hide Layout, Fixed, EncAll, Put, Fetch;
    PutInside(EncAll(f.ops), Fixed(f.loc), Layout(fs[1..]), Place(f, d) - |f.ops|, Enc(v));
  }

  /** The frame pointer, seen from the top of the stack. */
  lemma {:induction false} FrameFromTop(fs: seq<Frame>, g: int)
    requires fs != []
    ensures FrameAt(fs, g) == g - |Layout(fs)| - 1 + |fs[0].ops| + |fs[0].loc.locals|
  {
    FixedSize(fs[0].loc);
  }

  lemma {:induction false} LayoutOperand(fs: seq<Frame>, k: nat)
    requires fs != [] && k < |fs[0].ops|
    ensures k < |Layout(fs)| && Layout(fs)[k] == Enc(fs[0].ops[k])
  {
    Replaced(fs, fs[0]);
    hide Layout, Fixed;
    assert FrameWords(fs[0])[k] == EncAll(fs[0].ops)[k];
  }

  // What registers and saved words depend on

  /** As many locals and arguments, the same closure and the same way back. */
  predicate SameShape(f: Frame, f': Frame) {
    f'.ret == f.ret && |f'.loc.args| == |f.loc.args| && |f'.loc.locals| == |f.loc.locals| &&
      f'.loc.closure == f.loc.closure
  }

  lemma {:induction false} ShapeKept(fs: seq<Frame>, f: Frame, g: int)
    requires fs != [] && SameShape(fs[0], f)
    ensures var gs := [f] + fs[1..];
      && FrameAt(gs, g) == FrameAt(fs, g) && ArgsOf(gs) == ArgsOf(fs) && LocalsOf(gs) == LocalsOf(fs)
      && Saved(gs, g) == Saved(fs, g) && Returns(gs, g) == Returns(fs, g)
  {
    assert ([f] + fs[1..])[1..] == fs[1..];
    hide Layout, ClosureWord;
  }

  /** The caller is back: frame pointer, numbers of arguments and locals and the call stack
      are those of before, and one word has replaced `k` of them. */
  predicate CallerBack(fs: seq<Frame>, gs: seq<Frame>, k: nat, g: int) {
    && FrameAt(gs, g) == FrameAt(fs, g) && ArgsOf(gs) == ArgsOf(fs) && LocalsOf(gs) == LocalsOf(fs)
    && Saved(gs, g) == Saved(fs, g)
    && k <= |Layout(fs)| && 1 <= |Layout(gs)| && Layout(gs)[1..] == Layout(fs)[k..]
  }

  /** From a call to the END of the activation that it has started, however long that takes:
      the caller is back, and one value has replaced the arguments (and the closure). */
  lemma {:induction false} Restored(p: Prg, s: State, s1: State, n: nat, t: State, u: State, g: int)
    requires s.entered && Step(p, s) == Some(s1) && (p[s.pc].CALL? || p[s.pc].CALLC?)
    requires Deeper(p, s1, n, |s.frames|) && Run(p, s1, n) == Some(t) && Step(p, t) == Some(u) &&
      |u.frames| <= |s.frames|
    ensures CallerBack(s.frames, u.frames, p[s.pc].n + (if p[s.pc].CALLC? then 1 else 0), g) && u.pc == s.pc + 1
  {
    CallReturns(p, s, n);
    var fs, gs := s.frames, u.frames;
    hide Step, Run, Deeper;
    assert gs == [gs[0]] + fs[1..];
    ShapeKept(fs, gs[0], g);
    SameBelow(fs, gs, p[s.pc].n + (if p[s.pc].CALLC? then 1 else 0));
  }

  lemma {:induction false} SameBelow(fs: seq<Frame>, gs: seq<Frame>, k: nat)
    requires fs != [] && gs != [] && gs[1..] == fs[1..] && gs[0].loc == fs[0].loc
    requires k <= |fs[0].ops| && |gs[0].ops| == |fs[0].ops| - k + 1 && gs[0].ops[1..] == fs[0].ops[k..]
    ensures k <= |Layout(fs)| && 1 <= |Layout(gs)| && Layout(gs)[1..] == Layout(fs)[k..]
  {
    LayoutDrop(fs, k);
    LayoutDrop(gs, 1);
  }

  lemma {:induction false} LayoutDrop(fs: seq<Frame>, k: nat)
    requires fs != [] && k <= |fs[0].ops|
    ensures k <= |Layout(fs)| && Layout(fs)[k..] == (EncAll(fs[0].ops[k..]) + Fixed(fs[0].loc)) + Layout(fs[1..])
  {
    Replaced(fs, fs[0]);
    EncSplit(fs[0].ops, k);
    hide Layout, Fixed, EncAll;
    var a, b := EncAll(fs[0].ops[..k]), EncAll(fs[0].ops[k..]);
    Joined(a, b, Fixed(fs[0].loc));
    Joined(a, b + Fixed(fs[0].loc), Layout(fs[1..]));
  }
}
