/** The frames of the bytecode interpreter: one downward stack for arguments, locals and
    operands of all activations, and a stack of saved registers, against the control stack of
    the stack machine's own evaluator. */
module InterpreterFrames {
  import opened Wrappers

  // Values and code

  /** Values of the evaluator; a closure is known by the identity of its captured variables. */
  datatype Value = Empty | Int(n: int) | Clo(id: nat)

  /** Words of the interpreter: tagged integers and pointers to closures. */
  datatype Word = Num(n: int) | Ref(id: nat)

  datatype Location = Global(i: nat) | Local(i: nat) | Arg(i: nat) | Access(i: nat)

  /** Decoded instructions; labels are positions. */
  datatype Insn =
    | CONST(c: int) | DROP | DUP | LD(d: Location) | ST(d: Location) | JMP(l: nat) | CJMP(nonzero: bool, l: nat)
    | CALL(l: nat, n: nat) | CALLC(n: nat) | CLOSURE(l: nat, ds: seq<Location>) | BEGIN(nargs: nat, nlocals: nat) | END

  type Prg = seq<Insn>

  /** A closure: its code and what it has captured. */
  datatype Closed<T> = Closed(code: nat, captured: seq<T>)

  /** What `main` declares, although nobody pushes arguments for it. */
  const MAIN_ARGS: nat := 2

  // The evaluator

  datatype Activation = Activation(args: seq<Value>, locals: seq<Value>, closure: Option<nat>)

  datatype Config = Config(control: seq<(nat, Activation)>, stack: seq<Value>, glob: seq<Value>, loc: Activation,
                           pc: nat, objs: seq<Closed<Value>>)

  function At<T>(s: seq<T>, i: nat): Option<T> {
    if i < |s| then Some(s[i]) else None
  }

  /** The value at a location. */
  function Fetch(d: Location, loc: Activation, glob: seq<Value>, objs: seq<Closed<Value>>): Option<Value> {
    match d
    case Global(i) => At(glob, i)
    case Local(i) => At(loc.locals, i)
    case Arg(i) => At(loc.args, i)
    case Access(i) =>
      if loc.closure.Some? && loc.closure.value < |objs| then At(objs[loc.closure.value].captured, i) else None
  }

  function Put(d: Location, v: Value, loc: Activation, glob: seq<Value>, objs: seq<Closed<Value>>)
    : (Activation, seq<Value>, seq<Closed<Value>>)
    requires Fetch(d, loc, glob, objs).Some?
  {
    match d
    case Global(i) => (loc, glob[i := v], objs)
    case Local(i) => (loc.(locals := loc.locals[i := v]), glob, objs)
    case Arg(i) => (loc.(args := loc.args[i := v]), glob, objs)
    case Access(i) =>
      var id := loc.closure.value;
      (loc, glob, objs[id := objs[id].(captured := objs[id].captured[i := v])])
  }

  /** Captured variables never come from the globals. */
  function Capture(ds: seq<Location>, loc: Activation, glob: seq<Value>, objs: seq<Closed<Value>>): Option<seq<Value>> {
    if ds == [] then Some([])
    else if ds[0].Global? then None
    else match Fetch(ds[0], loc, glob, objs)
      case None => None
      case Some(v) => (match Capture(ds[1..], loc, glob, objs) case None => None case Some(vs) => Some([v] + vs))
  }

  function Fresh(m: nat): (s: seq<Value>)
    ensures |s| == m && forall i :: 0 <= i < m ==> s[i] == Empty
  {
    seq(m, _ => Empty)
  }

  predicate Holds(nonzero: bool, v: Value)
    requires v.Int?
  {
    if nonzero then v.n != 0 else v.n == 0
  }

  /** One step of the evaluator; `None` where it fails or stops. */
  function Eval(p: Prg, c: Config): Option<Config> {
    if c.pc >= |p| then None
    else
      match p[c.pc]
      case CONST(n) => Some(c.(stack := [Int(n)] + c.stack, pc := c.pc + 1))
      case DROP => if c.stack == [] then None else Some(c.(stack := c.stack[1..], pc := c.pc + 1))
      case DUP => if c.stack == [] then None else Some(c.(stack := [c.stack[0]] + c.stack, pc := c.pc + 1))
      case LD(d) =>
        (match Fetch(d, c.loc, c.glob, c.objs)
         case Some(v) => Some(c.(stack := [v] + c.stack, pc := c.pc + 1))
         case None => None)
      case ST(d) =>
        if c.stack == [] || Fetch(d, c.loc, c.glob, c.objs).None? then None
        else
          var (loc, glob, objs) := Put(d, c.stack[0], c.loc, c.glob, c.objs);
          Some(c.(loc := loc, glob := glob, objs := objs, pc := c.pc + 1))
      case JMP(l) => Some(c.(pc := l))
      case CJMP(nonzero, l) =>
        if c.stack == [] || !c.stack[0].Int? then None
        else Some(c.(stack := c.stack[1..], pc := if Holds(nonzero, c.stack[0]) then l else c.pc + 1))
      case CALL(l, n) =>
        if |c.stack| < n then None
        else Some(c.(control := [(c.pc + 1, c.loc)] + c.control, stack := c.stack[n..],
                     loc := Activation(Reverse(c.stack[..n]), [], None), pc := l))
      case CALLC(n) =>
        if |c.stack| < n + 1 || !c.stack[n].Clo? || c.stack[n].id >= |c.objs| then None
        else Some(c.(control := [(c.pc + 1, c.loc)] + c.control, stack := c.stack[n + 1..],
                     loc := Activation(Reverse(c.stack[..n]), [], Some(c.stack[n].id)),
                       pc := c.objs[c.stack[n].id].code))
      case CLOSURE(l, ds) =>
        (match Capture(ds, c.loc, c.glob, c.objs)
         case Some(vs) => Some(c.(stack := [Clo(|c.objs|)] + c.stack, objs := c.objs + [Closed(l, vs)], pc := c.pc + 1))
         case None => None)
      case BEGIN(_, m) => Some(c.(loc := c.loc.(locals := Fresh(m)), pc := c.pc + 1))
      case END =>
        if c.control == [] then None
        else Some(c.(control := c.control[1..], loc := c.control[0].1, pc := c.control[0].0))
  }

  // Activations with operands of their own

  datatype Frame = Frame(loc: Activation, ops: seq<Value>, ret: nat)

  /** The current activation first. `entered` is false between a call and its BEGIN. */
  datatype State = State(frames: seq<Frame>, entered: bool, glob: seq<Value>, pc: nat, objs: seq<Closed<Value>>)

  function Top(s: State, f: Frame): State
    requires s.frames != []
  {
    s.(frames := [f] + s.frames[1..], pc := s.pc + 1)
  }

  function Pushed(s: State, v: Value): State
    requires s.frames != []
  {
    Top(s, s.frames[0].(ops := [v] + s.frames[0].ops))
  }

  /** Calls and returns are defined only where every activation keeps to its own operands:
      arguments are the caller's, they are as many as BEGIN declares, and END finds exactly
      one value. `main` never ends. */
  function Step(p: Prg, s: State): Option<State> {
    if s.pc >= |p| || s.frames == [] then None
    else if !s.entered then
      match p[s.pc]
      case BEGIN(a, m) =>
        var f := s.frames[0];
        if a != (if |s.frames| == 1 then MAIN_ARGS else |f.loc.args|) then None
        else Some(Begun(s, m))
      case _ => None
    else
      var f := s.frames[0];
      match p[s.pc]
      case CONST(n) => Some(Pushed(s, Int(n)))
      case DROP => if f.ops == [] then None else Some(Top(s, f.(ops := f.ops[1..])))
      case DUP => if f.ops == [] then None else Some(Pushed(s, f.ops[0]))
      case LD(d) => (match Fetch(d, f.loc, s.glob, s.objs) case Some(v) => Some(Pushed(s, v)) case None => None)
      case ST(d) =>
        if f.ops == [] || Fetch(d, f.loc, s.glob, s.objs).None? then None else Some(Assigned(s, d, f.ops[0]))
      case JMP(l) => Some(s.(pc := l))
      case CJMP(nonzero, l) =>
        if f.ops == [] || !f.ops[0].Int? then None
        else Some(Top(s, f.(ops := f.ops[1..])).(pc := if Holds(nonzero, f.ops[0]) then l else s.pc + 1))
      case CALL(l, n) => if |f.ops| < n then None else Some(Called(s, n, n, None, l))
      case CALLC(n) =>
        if |f.ops| < n + 1 || !f.ops[n].Clo? || f.ops[n].id >= |s.objs| then None
        else Some(Called(s, n, n + 1, Some(f.ops[n].id), s.objs[f.ops[n].id].code))
      case CLOSURE(l, ds) =>
        (match Capture(ds, f.loc, s.glob, s.objs)
         case Some(vs) => Some(Pushed(s, Clo(|s.objs|)).(objs := s.objs + [Closed(l, vs)]))
         case None => None)
      case BEGIN(_, _) => None
      case END => if |s.frames| < 2 || |f.ops| != 1 then None else Some(Returned(s))
  }

  function Begun(s: State, m: nat): State
    requires s.frames != []
  {
    Top(s, s.frames[0].(loc := s.frames[0].loc.(locals := Fresh(m)))).(entered := true)
  }

  function Assigned(s: State, d: Location, v: Value): State
    requires s.frames != [] && Fetch(d, s.frames[0].loc, s.glob, s.objs).Some?
  {
    var (loc, glob, objs) := Put(d, v, s.frames[0].loc, s.glob, s.objs);
    Top(s, s.frames[0].(loc := loc)).(glob := glob, objs := objs)
  }

  /** `n` arguments, `k` words in all. */
  function Called(s: State, n: nat, k: nat, closure: Option<nat>, l: nat): State
    requires s.frames != [] && n <= k <= |s.frames[0].ops|
  {
    var f := s.frames[0];
    s.(frames := [Frame(Activation(Reverse(f.ops[..n]), [], closure), [], s.pc + 1), f.(ops := f.ops[k..])]
      + s.frames[1..],
       entered := false, pc := l)
  }

  function Returned(s: State): State
    requires |s.frames| >= 2 && |s.frames[0].ops| == 1
  {
    s.(frames := [s.frames[1].(ops := s.frames[0].ops + s.frames[1].ops)] + s.frames[2..], pc := s.frames[0].ret)
  }

  // Such states are states of the evaluator

  function Control(fs: seq<Frame>): seq<(nat, Activation)> {
    if |fs| <= 1 then [] else [(fs[0].ret, fs[1].loc)] + Control(fs[1..])
  }

  function Operands(fs: seq<Frame>): seq<Value> {
    if fs == [] then [] else fs[0].ops + Operands(fs[1..])
  }

  function Flat(s: State): Config
    requires s.frames != []
  {
    Config(Control(s.frames), Operands(s.frames), s.glob, s.frames[0].loc, s.pc, s.objs)
  }

  lemma FlatTop(s: State, f: Frame)
    requires s.frames != [] && f.ret == s.frames[0].ret
    ensures Control(Top(s, f).frames) == Control(s.frames) &&
      Operands(Top(s, f).frames) == f.ops + Operands(s.frames[1..])
  {
    assert ([f] + s.frames[1..])[1..] == s.frames[1..];
  }

  lemma FlatCalled(s: State, n: nat, k: nat, closure: Option<nat>, l: nat)
    requires s.frames != [] && n <= k <= |s.frames[0].ops|
    ensures var c, fs := Flat(s), Called(s, n, k, closure, l).frames;
      && Control(fs) == [(s.pc + 1, c.loc)] + c.control && Operands(fs) == c.stack[k..]
      && c.stack[..n] == s.frames[0].ops[..n] && (k < |s.frames[0].ops| ==> c.stack[k] == s.frames[0].ops[k])
  {
    var fs := Called(s, n, k, closure, l).frames;
    var caller := s.frames[0].(ops := s.frames[0].ops[k..]);
    assert fs[1..] == [caller] + s.frames[1..] && fs[1..][1..] == s.frames[1..];
    assert Operands(fs[1..]) == s.frames[0].ops[k..] + Operands(s.frames[1..]);
    assert Control(fs[1..]) == Control(s.frames);
  }

  lemma FlatReturned(s: State)
    requires |s.frames| >= 2 && |s.frames[0].ops| == 1
    ensures Control(Returned(s).frames) == Control(s.frames)[1..] && Operands(Returned(s).frames) == Operands(s.frames)
    ensures Control(s.frames)[0] == (s.frames[0].ret, s.frames[1].loc)
  {
    var fs := s.frames;
    var gs := Returned(s).frames;
    assert gs[1..] == fs[2..] && fs[1..][1..] == fs[2..];
    assert Operands(fs) == fs[0].ops + (fs[1].ops + Operands(fs[2..]));
  }

  lemma CalledConfig(s: State, n: nat, k: nat, closure: Option<nat>, l: nat)
    requires s.frames != [] && n <= k <= |s.frames[0].ops|
    ensures var c := Flat(s);
      && Called(s, n, k, closure, l).frames != [] && |c.stack| >= k
      && (k < |s.frames[0].ops| ==> |c.stack| > k && c.stack[k] == s.frames[0].ops[k])
      && Flat(Called(s, n, k, closure, l)) == c.(control := [(s.pc + 1, c.loc)] + c.control, stack := c.stack[k..],
           loc := Activation(Reverse(c.stack[..n]), [], closure), pc := l)
  {
    FlatCalled(s, n, k, closure, l);
    assert |Operands(s.frames)| >= |s.frames[0].ops|;
    hide Operands, Control, Reverse;
  }

  lemma ReturnedConfig(s: State)
    requires |s.frames| >= 2 && |s.frames[0].ops| == 1
    ensures var c := Flat(s);
      c.control != [] && Flat(Returned(s)) == c.(control := c.control[1..], loc := c.control[0].1, pc := c.control[0].0)
  {
    FlatReturned(s);
    assert Control(s.frames) != [];
    hide Operands, Control;
  }

  /** Calls and returns are those of the evaluator. */
  lemma CallEvaluates(p: Prg, s: State)
    requires Step(p, s).Some? && s.entered && (p[s.pc].CALL? || p[s.pc].CALLC? || p[s.pc].END?)
    ensures Eval(p, Flat(s)) == Some(Flat(Step(p, s).value))
  {
    var f, i := s.frames[0], p[s.pc];
    if i.CALL? {
      CalledConfig(s, i.n, i.n, None, i.l);
      hide Operands, Control, Called, Reverse;
    } else if i.CALLC? {
      assert i.n < |f.ops| && f.ops[i.n].Clo? && f.ops[i.n].id < |s.objs|;
      CallcEvaluates(p, s);
    } else {
      ReturnedConfig(s);
      hide Operands, Control, Returned, Reverse;
    }
  }

  lemma CallcEvaluates(p: Prg, s: State)
    requires Step(p, s).Some? && s.entered && p[s.pc].CALLC?
    requires p[s.pc].n < |s.frames[0].ops| && s.frames[0].ops[p[s.pc].n].Clo? &&
      s.frames[0].ops[p[s.pc].n].id < |s.objs|
    ensures Eval(p, Flat(s)) == Some(Flat(Step(p, s).value))
  {
    var n := p[s.pc].n;
    var id := s.frames[0].ops[n].id;
    CalledConfig(s, n, n, Some(id), s.objs[id].code);
    CalledConfig(s, n, n + 1, Some(id), s.objs[id].code);
    hide Operands, Control, Called, Reverse;
  }

  lemma FlatPushed(s: State, v: Value)
    requires s.frames != []
    ensures Pushed(s, v).frames != [] && Flat(Pushed(s, v)) == Flat(s).(stack := [v] + Flat(s).stack, pc := s.pc + 1)
  {
    FlatTop(s, Pushed(s, v).frames[0]);
    assert ([v] + s.frames[0].ops) + Operands(s.frames[1..]) == [v] + (s.frames[0].ops + Operands(s.frames[1..]));
  }

  lemma FlatPopped(s: State)
    requires s.frames != [] && s.frames[0].ops != []
    ensures var t := Top(s, s.frames[0].(ops := s.frames[0].ops[1..]));
      t.frames != [] && Flat(t) == Flat(s).(stack := Flat(s).stack[1..], pc := s.pc + 1) &&
        t.frames[0].loc == s.frames[0].loc
    ensures Flat(s).stack != [] && Flat(s).stack[0] == s.frames[0].ops[0]
  {
    FlatTop(s, s.frames[0].(ops := s.frames[0].ops[1..]));
    assert s.frames[0].ops[1..] + Operands(s.frames[1..]) == Operands(s.frames)[1..];
  }

  lemma FlatAssigned(s: State, loc: Activation)
    requires s.frames != []
    ensures var t := Top(s, s.frames[0].(loc := loc)); t.frames != [] && Flat(t) == Flat(s).(loc := loc, pc := s.pc + 1)
    ensures s.frames[0].ops != [] ==> Flat(s).stack != [] && Flat(s).stack[0] == s.frames[0].ops[0]
  {
    FlatTop(s, s.frames[0].(loc := loc));
  }

  /** Every step that is defined here is the step of the evaluator. */
  lemma StepEvaluates(p: Prg, s: State)
    requires Step(p, s).Some?
    ensures Step(p, s).value.frames != [] && Eval(p, Flat(s)) == Some(Flat(Step(p, s).value))
  {
    var f, i := s.frames[0], p[s.pc];
    if s.entered && (i.CALL? || i.CALLC? || i.END?) {
      CallEvaluates(p, s);
    } else {
      hide Operands, Control, Called, Returned, Holds, Pushed, Top;
      if i.DROP? || i.CJMP? {
        FlatPopped(s);
      } else if i.ST? {
        FlatAssigned(s, Put(i.d, f.ops[0], f.loc, s.glob, s.objs).0);
        hide Fetch, Put;
      } else if i.BEGIN? {
        FlatAssigned(s, f.loc.(locals := Fresh(i.nlocals)));
      } else if !i.JMP? {
        PushEvaluates(p, s);
      }
    }
  }

  lemma PushEvaluates(p: Prg, s: State)
    requires Step(p, s).Some? && s.entered && (p[s.pc].CONST? || p[s.pc].DUP? || p[s.pc].LD? || p[s.pc].CLOSURE?)
    ensures Step(p, s).value.frames != [] && Eval(p, Flat(s)) == Some(Flat(Step(p, s).value))
  {
    var f, i := s.frames[0], p[s.pc];
    hide Operands, Control, Pushed, Fetch, Capture;
    if i.CONST? {
      FlatPushed(s, Int(i.c));
    } else if i.DUP? {
      FlatAssigned(s, f.loc);
      FlatPushed(s, f.ops[0]);
    } else if i.LD? {
      FlatPushed(s, Fetch(i.d, f.loc, s.glob, s.objs).value);
    } else {
      FlatPushed(s, Clo(|s.objs|));
    }
  }

  // Runs

  function Run(p: Prg, s: State, n: nat): Option<State>
    decreases n
  {
    if n == 0 then Some(s)
    else match Step(p, s)
      case Some(t) => Run(p, t, n - 1)
      case None => None
  }

  function EvalRun(p: Prg, c: Config, n: nat): Option<Config>
    decreases n
  {
    if n == 0 then Some(c)
    else match Eval(p, c)
      case Some(c') => EvalRun(p, c', n - 1)
      case None => None
  }

  lemma RunStep(p: Prg, s: State, n: nat)
    requires n > 0 && Run(p, s, n).Some?
    ensures Step(p, s).Some? && Run(p, s, n) == Run(p, Step(p, s).value, n - 1)
  {
    hide Step;
  }

  lemma RunNone(p: Prg, s: State)
    ensures Run(p, s, 0) == Some(s)
  {
  }

  /** A run over frames is a run of the evaluator. */
  lemma {:induction false} RunEvaluates(p: Prg, s: State, n: nat)
    requires s.frames != [] && Run(p, s, n).Some?
    ensures Run(p, s, n).value.frames != [] && EvalRun(p, Flat(s), n) == Some(Flat(Run(p, s, n).value))
    decreases n
  {
    hide Step, Eval, Flat;
    if n > 0 {
      StepEvaluates(p, s);
      RunEvaluates(p, Step(p, s).value, n - 1);
    }
  }

  /** More than `d` activations all along the run. */
  ghost predicate Deeper(p: Prg, s: State, n: nat, d: nat)
    decreases n
  {
    |s.frames| > d && (n > 0 ==> Step(p, s).Some? && Deeper(p, Step(p, s).value, n - 1, d))
  }

  /** A step works on the current frame, puts one on it, or gives its operand to the next. */
  ghost predicate Neighbours(fs: seq<Frame>, gs: seq<Frame>) {
    || (fs != [] && |gs| == |fs| && gs[1..] == fs[1..] && gs[0].ret == fs[0].ret)
    || (fs != [] && |gs| == |fs| + 1 && gs[2..] == fs[1..] && gs[1].ret == fs[0].ret)
    || (|fs| >= 2 && |gs| == |fs| - 1 && gs[1..] == fs[2..] && gs[0].ret == fs[1].ret)
  }

  lemma StepNeighbours(p: Prg, s: State)
    requires Step(p, s).Some?
    ensures Neighbours(s.frames, Step(p, s).value.frames)
  {
    hide Fetch, Put, Capture, Reverse, Holds;
    var fs, gs := s.frames, Step(p, s).value.frames;
    if s.entered && (p[s.pc].CALL? || p[s.pc].CALLC? || p[s.pc].END?) {
    } else {
      assert gs == [gs[0]] + fs[1..] && gs[0].ret == fs[0].ret by {
        assert fs == [fs[0]] + fs[1..];
      }
      hide Step;
    }
  }

  lemma NeighboursBelow(fs: seq<Frame>, gs: seq<Frame>, d: nat)
    requires Neighbours(fs, gs) && |fs| > d && |gs| > d
    ensures gs[|gs| - d..] == fs[|fs| - d..] && gs[|gs| - d - 1].ret == fs[|fs| - d - 1].ret
  {
    var k := if |gs| > |fs| then 2 else 1;
    var j := if |gs| < |fs| then 2 else 1;
    assert gs[k..] == fs[j..];
    if d <= |gs| - k {
      assert gs[|gs| - d..] == gs[k..][|gs| - d - k..];
      assert fs[|fs| - d..] == fs[j..][|fs| - d - j..];
    }
    if d + 1 <= |gs| - k {
      assert gs[|gs| - d - 1] == gs[k..][|gs| - d - 1 - k] && fs[|fs| - d - 1] == fs[j..][|fs| - d - 1 - j];
    }
  }

  lemma StepLeavesBelow(p: Prg, s: State, d: nat)
    requires Step(p, s).Some? && |s.frames| > d && |Step(p, s).value.frames| > d
    ensures var fs, gs := s.frames, Step(p, s).value.frames;
      gs[|gs| - d..] == fs[|fs| - d..] && gs[|gs| - d - 1].ret == fs[|fs| - d - 1].ret
  {
    hide Step, Neighbours;
    StepNeighbours(p, s);
    NeighboursBelow(s.frames, Step(p, s).value.frames, d);
  }

  /** Activations below the running one do not change. */
  lemma {:induction false} CallersWait(p: Prg, s: State, n: nat, d: nat)
    requires Run(p, s, n).Some? && Deeper(p, s, n, d)
    ensures var fs, gs := s.frames, Run(p, s, n).value.frames;
      |gs| > d && gs[|gs| - d..] == fs[|fs| - d..] && gs[|gs| - d - 1].ret == fs[|fs| - d - 1].ret
    decreases n
  {
    hide Step;
    if n > 0 {
      StepLeavesBelow(p, s, d);
      CallersWait(p, Step(p, s).value, n - 1, d);
    }
  }

  /** From a call to the END of the activation that it has started: the caller gets its frame
      back with one value in the place of the arguments, and goes on after the call. */
  lemma CallReturns(p: Prg, s: State, n: nat)
    requires Step(p, s).Some? && s.entered && (p[s.pc].CALL? || p[s.pc].CALLC?)
    requires Deeper(p, Step(p, s).value, n, |s.frames|) && Run(p, Step(p, s).value, n).Some?
    requires var t := Run(p, Step(p, s).value, n).value; Step(p, t).Some? && |Step(p, t).value.frames| <= |s.frames|
    ensures var u := Step(p, Run(p, Step(p, s).value, n).value).value;
      var k := p[s.pc].n + (if p[s.pc].CALLC? then 1 else 0);
      && |u.frames| == |s.frames| && u.frames[1..] == s.frames[1..] && u.pc == s.pc + 1 && u.entered
      && |u.frames[0].ops| == |s.frames[0].ops| - k + 1 && u.frames[0].ops[1..] == s.frames[0].ops[k..]
      && u.frames[0].loc == s.frames[0].loc && u.frames[0].ret == s.frames[0].ret
  {
    var s1 := Step(p, s).value;
    var d, k := |s.frames|, p[s.pc].n + (if p[s.pc].CALLC? then 1 else 0);
    CalledFrames(p, s);
    hide Run, Deeper;
    CallersWait(p, s1, n, d);
    var t := Run(p, s1, n).value;
    ReturnFrames(p, t, d);
    assert t.frames[1..] == s1.frames[1..];
    hide Step;
    var u := Step(p, t).value;
    assert u.frames[1..] == t.frames[1..][1..] && s1.frames[1..][1..] == s.frames[1..];
    assert t.frames[1] == t.frames[1..][0] && s1.frames[1] == s1.frames[1..][0];
  }

  lemma CalledFrames(p: Prg, s: State)
    requires Step(p, s).Some? && s.entered && (p[s.pc].CALL? || p[s.pc].CALLC?)
    ensures var t := Step(p, s).value; var k := p[s.pc].n + (if p[s.pc].CALLC? then 1 else 0);
      && |t.frames| == |s.frames| + 1 && t.frames[0].ret == s.pc + 1 && t.frames[2..] == s.frames[1..] &&
        t.frames[1..][1..] == s.frames[1..]
      && k <= |s.frames[0].ops| && t.frames[1] == s.frames[0].(ops := s.frames[0].ops[k..])
  {
  }

  lemma ReturnFrames(p: Prg, t: State, d: nat)
    requires Step(p, t).Some? && |t.frames| > d && |Step(p, t).value.frames| <= d
    ensures var u := Step(p, t).value;
      && |t.frames| == d + 1 && |t.frames| >= 2 && |t.frames[0].ops| == 1 && u.pc == t.frames[0].ret && u.entered
      && u.frames == [t.frames[1].(ops := t.frames[0].ops + t.frames[1].ops)] + t.frames[2..]
      && u.frames[1..] == t.frames[1..][1..]
  {
    hide Fetch, Put, Capture, Reverse, Holds;
  }
}
