/** The bytecode interpreter: registers and the two stacks, changed in place by every
    instruction, against the evaluator's activations. */
module BytecodeInterpreter {
  import opened Wrappers
  import opened InterpreterFrames
  import opened StackLayout

  /** What `get_addr` computes. */
  datatype Address = InMemory(i: int) | InClosure(id: nat, k: nat) | Wrong

  class Interpreter {
    const code: Prg
    /** `gc_handled_memory`: the stack, which grows downwards, and the globals above it. */
    const mem: array<Word>
    const globals: nat
    /** `call_stack`, which grows downwards too. */
    const calls: array<int>
    var sp: int
    var top: int
    var fp: int
    var nArgs: int
    var nLocals: int
    var isClosure: bool
    var ip: nat
    var objs: seq<Closed<Word>>
    /** The evaluator's activations that all of this stands for. */
    ghost var s: State

    // The representation

    ghost predicate StackHolds(t: State)
      reads this, mem
    {
      && 0 < sp < globals <= mem.Length && mem[globals..] == EncAll(t.glob)
      && mem[sp + 1..globals] == Layout(t.frames) && objs == EncObjs(t.objs)
    }

    ghost predicate CallsHold(t: State)
      reads this, calls
    {
      0 < top < calls.Length && calls[top + 1..]
        == (if t.entered then Saved(t.frames, globals) else Returns(t.frames, globals))
    }

    ghost predicate RegistersHold(t: State)
      reads this
    {
      && t.frames != []
      && var fs := if t.entered then t.frames else t.frames[1..];
         fp == FrameAt(fs, globals) && nArgs == ArgsOf(fs) && nLocals == LocalsOf(fs)
    }

    /** A new activation has no locals and operands, and the call has said what it is. */
    ghost predicate NewHolds(t: State)
      reads this
    {
      t.frames != [] && !t.entered ==>
        var f := t.frames[0]; f.ops == [] && f.loc.locals == [] && isClosure == f.loc.closure.Some?
    }

    ghost predicate Stands(t: State)
      reads this, mem, calls
    {
      StackHolds(t) && CallsHold(t) && RegistersHold(t) && NewHolds(t) && MainPlain(t.frames)
    }

    ghost predicate Valid()
      reads this, mem, calls
    {
      Stands(s)
    }

    /** No room: the interpreter stops with an overflow message. */
    predicate Full()
      reads this
    {
      sp == 0 || top == 0
    }

    // Stack access

    method PushOp(w: Word) returns (ok: bool)
      requires 0 < sp < mem.Length
      modifies this`sp, mem
      ensures sp == old(sp) - 1 && mem[..] == old(mem[..])[old(sp) := w] && ok == (sp != 0)
    {
      mem[sp] := w;
      sp := sp - 1;
      ok := sp != 0;
    }

    method PopOp() returns (w: Option<Word>)
      requires 0 <= sp < mem.Length
      modifies this`sp
      ensures if old(sp) == mem.Length - 1 then w == None && sp == old(sp) else sp == old(sp) + 1 && w == Some(mem[sp])
    {
      if sp == mem.Length - 1 {
        return None;
      }
      sp := sp + 1;
      w := Some(mem[sp]);
    }

    method PushCall(v: int) returns (ok: bool)
      requires 0 < top < calls.Length
      modifies this`top, calls
      ensures top == old(top) - 1 && calls[top + 1..] == [v] + old(calls[top + 1..]) && ok == (top != 0)
    {
      calls[top] := v;
      top := top - 1;
      ok := top != 0;
    }

    method PopCall() returns (v: Option<int>)
      requires 0 <= top < calls.Length
      modifies this`top
      ensures if old(top) == calls.Length - 1 then v == None && top == old(top)
        else top == old(top) + 1 && v == Some(calls[top])
    {
      if top == calls.Length - 1 {
        return None;
      }
      top := top + 1;
      v := Some(calls[top]);
    }

    /** One more operand. */
    method Push(w: Word, ghost v: Value) returns (ok: bool)
      requires Valid() && s.entered && w == Enc(v)
      modifies this`sp, this`s, mem
      ensures s == Pushed(old(s), v).(pc := old(s.pc)) && (ok ==> Valid()) && (!ok ==> Full())
    {
      hide Layout, Saved, Returns, FrameAt, ArgsOf, LocalsOf, EncAll, EncObjs, Enc, MainPlain;
      var before := mem[..];
      ok := PushOp(w);
      ghost var t := Pushed(s, v).(pc := s.pc);
      PushWords(before, mem[..], sp + 1, globals, w);
      LayoutPush(s.frames, v);
      ShapeKept(s.frames, t.frames[0], globals);
      TopPlain(s.frames, t.frames[0]);
      s := t;
    }

    /** One operand less. */
    method Pop() returns (w: Word)
      requires Valid() && s.entered && s.frames[0].ops != []
      modifies this`sp, this`s
      ensures Valid() && w == Enc(old(s.frames[0].ops[0]))
      ensures s == Top(old(s), old(s.frames[0]).(ops := old(s.frames[0].ops[1..]))).(pc := old(s.pc))
    {
      hide Layout, Saved, Returns, FrameAt, ArgsOf, LocalsOf, EncAll, EncObjs, Enc, MainPlain;
      ghost var t := Top(s, s.frames[0].(ops := s.frames[0].ops[1..])).(pc := s.pc);
      LayoutPop(s.frames);
      PopWords(mem[..], sp + 1, globals, Enc(s.frames[0].ops[0]), Layout(t.frames));
      var o := PopOp();
      w := o.value;
      ShapeKept(s.frames, t.frames[0], globals);
      TopPlain(s.frames, t.frames[0]);
      s := t;
    }

    // Variables

    /** The word above the arguments. */
    method ClosureWordAt() returns (p: Word)
      requires Valid() && s.entered && s.frames[0].loc.closure.Some?
      ensures p == Ref(s.frames[0].loc.closure.value)
    {
      hide Layout, Saved, Returns, FrameAt, EncObjs;
      FrameFromTop(s.frames, globals);
      LayoutClosure(s.frames);
      assert mem[sp + 1..globals][ClosurePlace(s.frames[0])] == mem[fp + nArgs + 1];
      p := mem[fp + nArgs + 1];
    }

    /** `get_addr`: never fails on a location that the evaluator knows. */
    method GetAddr(d: Location) returns (a: Address)
      requires Valid() && s.entered && Fetch(d, s.frames[0].loc, s.glob, s.objs).Some?
      ensures a == Target(s, d, sp + 1, globals)
    {
      hide Layout, Saved, Returns, FrameAt, EncObjs;
      FrameFromTop(s.frames, globals);
      match d
      case Global(i) =>
        if globals + i >= mem.Length { return Wrong; }
        a := InMemory(globals + i);
      case Local(i) =>
        if i >= nLocals { return Wrong; }
        a := InMemory(fp - i);
      case Arg(i) =>
        if i >= nArgs { return Wrong; }
        a := InMemory(fp + nArgs - i);
      case Access(i) =>
        var p := ClosureWordAt();
        if !p.Ref? { return Wrong; }
        a := InClosure(p.id, i);
    }

    /** The word at an address. */
    method Load(d: Location, a: Address) returns (w: Word)
      requires Valid() && s.entered && Fetch(d, s.frames[0].loc, s.glob, s.objs).Some? &&
        a == Target(s, d, sp + 1, globals)
      ensures w == Enc(Fetch(d, s.frames[0].loc, s.glob, s.objs).value)
    {
      hide Layout, Saved, Returns, FrameAt, MainPlain;
      if d.Local? || d.Arg? {
        LayoutFetch(s.frames, d, s.glob, s.objs);
        assert mem[sp + 1..globals][Place(s.frames[0], d)] == mem[a.i];
      } else if d.Global? {
        assert mem[globals..][d.i] == mem[a.i];
      }
      match a
      case InMemory(i) => w := mem[i];
      case InClosure(id, k) => w := objs[id].captured[k];
    }

    /** The word of a variable. */
    method Variable(d: Location) returns (w: Word)
      requires Valid() && s.entered && Fetch(d, s.frames[0].loc, s.glob, s.objs).Some?
      ensures w == Enc(Fetch(d, s.frames[0].loc, s.glob, s.objs).value)
    {
      hide Stands, Fetch, Enc, Target;
      var a := GetAddr(d);
      w := Load(d, a);
    }

    method Ld(d: Location) returns (ok: bool)
      requires Valid() && s.entered && Fetch(d, s.frames[0].loc, s.glob, s.objs).Some?
      modifies this`sp, this`s, mem
      ensures s == Pushed(old(s), Fetch(d, old(s).frames[0].loc, old(s).glob, old(s).objs).value).(pc := old(s.pc))
      ensures (ok ==> Valid()) && (!ok ==> Full())
    {
      ghost var v := Fetch(d, s.frames[0].loc, s.glob, s.objs).value;
      hide Stands, Fetch, Enc;
      var w := Variable(d);
      ok := Push(w, v);
    }

    method Peek() returns (w: Word)
      requires Valid() && s.entered && s.frames[0].ops != []
      ensures w == Enc(s.frames[0].ops[0])
    {
      hide Layout, Saved, Returns, FrameAt, EncAll, EncObjs, MainPlain;
      LayoutOperand(s.frames, 0);
      assert mem[sp + 1..globals][0] == mem[sp + 1];
      w := mem[sp + 1];
    }

    method Store(a: Address, w: Word)
      requires Writable(a, |mem[..]|, objs)
      modifies this`objs, mem
      ensures mem[..] == StoredWords(old(mem[..]), a, w) && objs == StoredObjs(old(objs), a, w)
    {
      match a
      case InMemory(i) => mem[i] := w;
      case InClosure(id, k) => objs := objs[id := objs[id].(captured := objs[id].captured[k := w])];
      case Wrong =>
    }

    method St(d: Location)
      requires Valid() && s.entered && s.frames[0].ops != [] && Fetch(d, s.frames[0].loc, s.glob, s.objs).Some?
      modifies this`objs, this`s, mem
      ensures Valid() && s == Assigned(old(s), d, old(s).frames[0].ops[0]).(pc := old(s.pc))
    {
      hide Layout, Saved, Returns, FrameAt, ArgsOf, LocalsOf, EncAll, EncObjs, Enc, MainPlain, Assigned, Fetch, Target,
        Writable, StoredWords, StoredObjs;
      ghost var v := s.frames[0].ops[0];
      ghost var t := Assigned(s, d, v).(pc := s.pc);
      var w := Peek();
      var a := GetAddr(d);
      AssignedWords(s, d, v, mem[..], globals, sp + 1, w);
      AssignedRest(s, d, v, globals);
      Store(a, w);
      s := t;
    }

    // Calls

    /** `push_call` of the way back, and the jump; the arguments stay where they are. */
    method Enter(l: nat, ghost n: nat, ghost k: nat, ghost closure: Option<nat>) returns (ok: bool)
      requires Valid() && s.entered && n <= k <= |s.frames[0].ops| && k == n + |ClosureWord(closure)|
      requires (closure.Some? ==> s.frames[0].ops[n] == Clo(closure.value)) && ip == s.pc + 1 &&
        isClosure == closure.Some?
      modifies this`top, this`ip, this`s, calls
      ensures s == Called(old(s), n, k, closure, l) && ip == l && ip == s.pc && (ok ==> Valid()) && (!ok ==> Full())
    {
      hide Layout, Saved, Returns, FrameAt, ArgsOf, LocalsOf, EncAll, EncObjs, MainPlain, ClosureWord;
      LayoutCall(s, n, k, closure, l);
      CalledRest(s, n, k, closure, l, globals);
      ok := PushCall(ip);
      ip := l;
      s := Called(s, n, k, closure, l);
    }

    method Call(l: nat, n: nat) returns (ok: bool)
      requires Valid() && s.entered && n <= |s.frames[0].ops| && ip == s.pc + 1
      modifies this`top, this`ip, this`s, this`isClosure, calls
      ensures s == Called(old(s), n, n, None, l) && ip == l && ip == s.pc && (ok ==> Valid()) && (!ok ==> Full())
    {
      isClosure := false;
      ok := Enter(l, n, n, None);
    }

    /** The closure under `n` arguments and its code. */
    method ClosureUnder(n: nat) returns (id: nat, l: nat)
      requires Valid() && s.entered && n < |s.frames[0].ops|
      requires s.frames[0].ops[n].Clo? && s.frames[0].ops[n].id < |s.objs|
      ensures id == s.frames[0].ops[n].id && l == s.objs[id].code
    {
      hide Layout, Saved, Returns, FrameAt, ArgsOf, LocalsOf, MainPlain;
      LayoutOperand(s.frames, n);
      assert mem[sp + 1..globals][n] == mem[sp + n + 1];
      id := mem[sp + n + 1].id;
      l := objs[id].code;
    }

    /** `execute_closure`: the closure lies under the arguments. */
    method ExecuteClosure(n: nat) returns (ok: bool)
      requires Valid() && s.entered && n < |s.frames[0].ops| && ip == s.pc + 1
      requires s.frames[0].ops[n].Clo? && s.frames[0].ops[n].id < |s.objs|
      modifies this`top, this`ip, this`s, this`isClosure, calls
      ensures var id := old(s).frames[0].ops[n].id;
        s == Called(old(s), n, n + 1, Some(id), old(s).objs[id].code) && ip == old(s).objs[id].code
      ensures ip == s.pc && (ok ==> Valid()) && (!ok ==> Full())
    {
      hide Layout, Saved, Returns, FrameAt, ArgsOf, LocalsOf, EncAll, EncObjs, Enc, MainPlain, Called;
      var id, l := ClosureUnder(n);
      isClosure := true;
      ok := Enter(l, n, n + 1, Some(id));
    }

    /** `begin`: the registers of the caller are saved and the locals are cleared. */
    method Begin(m: nat, a: nat) returns (ok: bool)
      requires Valid() && !s.entered && a == (if |s.frames| == 1 then MAIN_ARGS else |s.frames[0].loc.args|)
      modifies this`sp, this`top, this`fp, this`nArgs, this`nLocals, this`s, mem, calls
      ensures s == Begun(old(s), m).(pc := old(s.pc)) && (ok ==> Valid()) && (!ok ==> Full())
    {
      hide Layout, Saved, Returns, FrameAt, ArgsOf, LocalsOf, EncAll, EncObjs, MainPlain, Blank, Fresh;
      ghost var s0 := s;
      s := Begun(s, m).(pc := s.pc);
      BegunRest(s0, m, globals);
      ok := SaveRegisters();
      if !ok { return; }
      fp := sp;
      nArgs := a;
      nLocals := m;
      ok := Clear(m, Layout(s0.frames));
    }

    method SaveRegisters() returns (ok: bool)
      requires 0 < top < calls.Length
      modifies this`top, calls
      ensures !ok ==> top == 0
      ensures ok ==>
        0 < top < calls.Length &&
        calls[top + 1..] == [Flag(isClosure), nLocals, nArgs, fp] + old(calls[top + 1..])
    {
      ghost var rest := calls[top + 1..];
      ok := PushCall(fp);
      if !ok { return; }
      ok := PushCall(nArgs);
      if !ok { return; }
      ok := PushCall(nLocals);
      if !ok { return; }
      ok := PushCall(Flag(isClosure));
      FourWords(Flag(isClosure), nLocals, nArgs, fp, rest);
    }

    /** Locals start as zeros. */
    method Clear(m: nat, ghost rest: seq<Word>) returns (ok: bool)
      requires 0 < sp < globals <= mem.Length && mem[sp + 1..globals] == rest
      modifies this`sp, mem
      ensures !ok ==> sp == 0
      ensures ok ==> 0 < sp < globals && mem[sp + 1..globals] == Blank(m) + rest
      ensures mem[globals..] == old(mem[globals..])
    {
      hide Blank;
      var i := 0;
      ok := true;
      NoBlank(rest);
      while i < m
        invariant 0 <= i <= m && 0 < sp < globals && mem[sp + 1..globals] == Blank(i) + rest && ok
        invariant mem[globals..] == old(mem[globals..])
      {
        ghost var before := mem[..];
        ok := PushOp(Num(0));
        PushWords(before, mem[..], sp + 1, globals, Num(0));
        if !ok { return; }
        BlankMore(i, rest);
        i := i + 1;
      }
    }

    /** `finalize_function`, for an activation that was called. */
    method FinalizeFunction()
      requires Valid() && s.entered && |s.frames| >= 2 && |s.frames[0].ops| == 1
      modifies this`sp, this`top, this`fp, this`nArgs, this`nLocals, this`ip, this`s, mem, calls
      ensures Valid() && s == Returned(old(s)) && ip == s.pc
    {
      hide Layout, Saved, Returns, FrameAt, EncAll, EncObjs, MainPlain, Fixed;
      LayoutReturn(s);
      SavedWords(s.frames, globals);
      ReturnedRest(s, globals);
      FixedSize(s.frames[0].loc);
      ghost var f := s.frames[0];
      FiveWords(calls[..], top + 1, Saved(s.frames, globals), f.ret, Saved(s.frames[1..], globals));
      hide LocalsOf, Enc;
      DropFrame(Enc(f.ops[0]), Fixed(f.loc), Layout(s.frames[1..]));
      RestoreRegisters();
      s := Returned(s);
    }

    /** The result takes the place of the frame. */
    method DropFrame(ghost w: Word, ghost fixed: seq<Word>, ghost below: seq<Word>)
      requires 0 < sp < globals <= mem.Length && mem[sp + 1..globals] == [w] + fixed + below
      requires 0 < top && top + 1 < calls.Length && 0 <= nArgs && 0 <= nLocals
      requires |fixed| == nArgs + nLocals + (if calls[top + 1] != 0 then 1 else 0)
      modifies this`sp, this`top, mem
      ensures 0 < sp < globals && mem[sp + 1..globals] == [w] + below && mem[globals..] == old(mem[globals..]) &&
        top == old(top) + 1
    {
      SkipWords(mem[..], sp + 1, globals, w, fixed, below);
      var v := PopOp();
      sp := sp + nArgs + nLocals;
      var wasClosure := PopCall();
      if wasClosure.value != 0 {
        var _ := PopOp();
      }
      ghost var before := mem[..];
      var ok := PushOp(v.value);
      PushWords(before, mem[..], sp + 1, globals, v.value);
    }

    /** The registers of the caller and the way back. */
    method RestoreRegisters()
      requires 0 < top && top + 4 < calls.Length && calls[top + 4] >= 0
      modifies this`top, this`fp, this`nArgs, this`nLocals, this`ip
      ensures top == old(top) + 4 && nLocals == calls[old(top) + 1] && nArgs == calls[old(top) + 2] &&
        fp == calls[old(top) + 3]
      ensures ip == calls[old(top) + 4]
    {
      var w := PopCall();
      nLocals := w.value;
      w := PopCall();
      nArgs := w.value;
      w := PopCall();
      fp := w.value;
      if top != calls.Length - 1 {
        w := PopCall();
        ip := w.value;
      }
    }

    /** Why `main` is left out: it declares arguments that nobody has pushed, and the result
        that its END stores goes over the second global, or past the end of the stack area when
        there are fewer than two. */
    lemma MainResult()
      requires Valid() && s.entered && |s.frames| == 1 && |s.frames[0].ops| == 1
      ensures sp + 1 + nArgs + nLocals == globals + 1
      ensures globals + 1 < mem.Length <==> |s.glob| >= 2
    {
      hide Saved, Returns, EncObjs;
      FrameFromTop(s.frames, globals);
      FixedSize(s.frames[0].loc);
      assert s.frames[1..] == [];
      assert |mem[globals..]| == |s.glob|;
    }

    // Closures and jumps

    /** The values of the captured variables. */
    method CaptureWords(ds: seq<Location>) returns (ws: seq<Word>)
      requires Valid() && s.entered && Capture(ds, s.frames[0].loc, s.glob, s.objs).Some?
      ensures ws == EncAll(Capture(ds, s.frames[0].loc, s.glob, s.objs).value)
    {
      ghost var vs := Capture(ds, s.frames[0].loc, s.glob, s.objs).value;
      CaptureEach(ds, s.frames[0].loc, s.glob, s.objs);
      assert s.frames != [];
      hide Stands, Enc, Fetch, Capture, Target, EncAll, Layout, Saved, Returns, FrameAt, EncObjs, MainPlain;
      ws := [];
      var i := 0;
      EncNone(vs);
      while i < |ds|
        invariant 0 <= i <= |ds| && ws == EncAll(vs[..i])
      {
        var w := Variable(ds[i]);
        EncSnoc(vs, i);
        ws := ws + [w];
        i := i + 1;
      }
      assert vs[..i] == vs;
    }

    method Closure(l: nat, ds: seq<Location>) returns (ok: bool)
      requires Valid() && s.entered && Capture(ds, s.frames[0].loc, s.glob, s.objs).Some?
      modifies this`sp, this`objs, this`s, mem
      ensures var vs := Capture(ds, old(s).frames[0].loc, old(s).glob, old(s).objs).value;
        s == Pushed(old(s), Clo(|old(s).objs|)).(objs := old(s).objs + [Closed(l, vs)], pc := old(s.pc))
      ensures (ok ==> Valid()) && (!ok ==> Full())
    {
      hide Layout, Saved, Returns, FrameAt, ArgsOf, LocalsOf, EncAll, MainPlain, Capture;
      var ws := CaptureWords(ds);
      ghost var vs := Capture(ds, s.frames[0].loc, s.glob, s.objs).value;
      ghost var id := |s.objs|;
      ObjsSnoc(s.objs, Closed(l, vs));
      var w := Ref(|objs|);
      hide EncObjs;
      objs := objs + [Closed(l, ws)];
      s := s.(objs := s.objs + [Closed(l, vs)]);
      ok := Push(w, Clo(id));
    }

    method CondJump(nonzero: bool, l: nat)
      requires Valid() && s.entered && s.frames[0].ops != [] && s.frames[0].ops[0].Int?
      modifies this`sp, this`ip, this`s
      ensures Valid() && ip == (if Holds(nonzero, old(s).frames[0].ops[0]) then l else old(ip))
      ensures s == Top(old(s), old(s.frames[0]).(ops := old(s.frames[0].ops[1..]))).(pc := old(s.pc))
    {
      hide Layout, Saved, Returns, FrameAt, ArgsOf, LocalsOf, EncAll, EncObjs, MainPlain;
      var w := Pop();
      if (w.n != 0) == nonzero {
        ip := l;
      }
    }

    // Runs

    /** `init_interpreter`: zeroed globals and empty stacks; control is before BEGIN of `main`. */
    constructor (code: Prg, globalAreaSize: nat, memSize: nat, stackSize: nat)
      requires globalAreaSize + 1 < memSize && 1 < stackSize
      ensures Valid() && fresh(mem) && fresh(calls) && this.code == code && ip == s.pc
      ensures s == State([Frame(Activation([], [], None), [], 0)], false, Fresh(globalAreaSize), 0, [])
    {
      this.code := code;
      mem := new Word[memSize](_ => Num(0));
      globals := memSize - globalAreaSize;
      calls := new int[stackSize](_ => 0);
      sp := memSize - globalAreaSize - 1;
      top := stackSize - 1;
      fp := 0;
      nArgs := 0;
      nLocals := 0;
      isClosure := false;
      ip := 0;
      objs := [];
      s := State([Frame(Activation([], [], None), [], 0)], false, Fresh(globalAreaSize), 0, []);
      new;
      ghost var f := s.frames[0];
      assert s.frames[1..] == [];
      assert mem[globals..] == EncAll(Fresh(globalAreaSize));
      assert Layout(s.frames) == [];
      assert EncObjs([]) == [];
      assert calls[top + 1..] == [];
    }

    /** One instruction. In the evaluator's terms: its step, or an overflow of a stack. */
    method Execute() returns (ok: bool)
      requires Valid() && ip == s.pc && Step(code, s).Some?
      modifies this, mem, calls
      ensures ok ==> Valid() && ip == s.pc && Some(s) == Step(code, old(s))
      ensures !ok ==> Full()
    {
      hide Stands, Fetch, Capture, Called, Returned, Put, Holds;
      ghost var s0 := s;
      var i := code[ip];
      Next(ip + 1);
      ok := true;
      match i {
        case CONST(c) => ok := Push(Num(c), Int(c));
        case DROP => var _ := Pop();
        case DUP =>
          var w := Peek();
          ok := Push(w, s.frames[0].ops[0]);
        case LD(d) => ok := Ld(d);
        case ST(d) => St(d);
        case JMP(l) => Next(l);
        case CJMP(nonzero, l) => CondJump(nonzero, l);
        case CALL(l, n) => ok := Call(l, n);
        case CALLC(n) => ok := ExecuteClosure(n);
        case CLOSURE(l, ds) => ok := Closure(l, ds);
        case BEGIN(a, m) => ok := Begin(m, a);
        case END => FinalizeFunction();
      }
      Arrive();
    }

    method Next(l: nat)
      modifies this`ip
      ensures ip == l && (old(Valid()) ==> Valid())
    {
      hide Layout, Saved, Returns, FrameAt, ArgsOf, LocalsOf, EncAll, EncObjs, MainPlain;
      ip := l;
    }

    ghost method Arrive()
      modifies this`s
      ensures s == old(s).(pc := ip) && (old(Valid()) ==> Valid())
    {
      hide Layout, Saved, Returns, FrameAt, ArgsOf, LocalsOf, EncAll, EncObjs, MainPlain;
      s := s.(pc := ip);
    }

    method ExecuteMany(n: nat) returns (ok: bool)
      requires Valid() && ip == s.pc && Run(code, s, n).Some?
      modifies this, mem, calls
      ensures ok ==> Valid() && ip == s.pc && Some(s) == Run(code, old(s), n)
      ensures !ok ==> Full()
    {
      hide Stands, Step, Run;
      ghost var goal := Run(code, s, n);
      var k := n;
      ok := true;
      while k > 0
        invariant 0 <= k <= n && ok && Valid() && ip == s.pc && Run(code, s, k) == goal
      {
        RunStep(code, s, k);
        ok := Execute();
        if !ok { return; }
        k := k - 1;
      }
      RunNone(code, s);
    }

    /** `interpret`, for a number of instructions: it ends where the evaluator ends, with the
        same operands, variables and way back, or in an overflow of a stack. */
    method Interpret(n: nat) returns (ok: bool)
      requires Valid() && ip == s.pc && Run(code, s, n).Some?
      modifies this, mem, calls
      ensures ok ==> Valid() && ip == s.pc && Some(s) == Run(code, old(s), n)
      ensures ok ==> s.frames != [] && EvalRun(code, Flat(old(s)), n) == Some(Flat(s))
      ensures !ok ==> Full()
    {
      hide Run, EvalRun, Flat, Layout, Saved, Returns, FrameAt, ArgsOf, LocalsOf, EncAll, EncObjs, MainPlain;
      RunEvaluates(code, s, n);
      ok := ExecuteMany(n);
    }
  }

  lemma SavedWords(fs: seq<Frame>, g: int)
    requires |fs| >= 2
    ensures Saved(fs, g) == [Flag(fs[0].loc.closure.Some?), LocalsOf(fs[1..]), ArgsOf(fs[1..]), FrameAt(fs[1..], g)]
                            + ([fs[0].ret] + Saved(fs[1..], g))
  {
    hide LocalsOf, ArgsOf, FrameAt;
  }

  lemma ReturnedRest(s: State, g: int)
    requires |s.frames| >= 2 && |s.frames[0].ops| == 1 && MainPlain(s.frames)
    ensures var fs, gs := s.frames[1..], Returned(s).frames;
      && gs != [] && MainPlain(gs) && Saved(gs, g) == Saved(fs, g)
      && FrameAt(gs, g) == FrameAt(fs, g) && ArgsOf(gs) == ArgsOf(fs) && LocalsOf(gs) == LocalsOf(fs)
  {
    hide LocalsOf, ArgsOf, FrameAt, Saved;
    var fs, gs := s.frames[1..], Returned(s).frames;
    assert fs[|fs| - 1] == s.frames[|s.frames| - 1];
    assert gs == [gs[0]] + fs[1..];
    ShapeKept(fs, gs[0], g);
    TopPlain(fs, gs[0]);
  }

  lemma SkipWords(m: seq<Word>, k: nat, g: nat, w: Word, skipped: seq<Word>, below: seq<Word>)
    requires k <= g <= |m| && m[k..g] == [w] + skipped + below
    ensures k + 1 + |skipped| <= g && m[k] == w && m[k + 1 + |skipped|..g] == below
  {
    assert m[k..g][0] == w && m[k..g][1 + |skipped|..] == below;
  }

  lemma FiveWords(m: seq<int>, k: nat, words: seq<int>, ret: int, below: seq<int>)
    requires k <= |m| && m[k..] == words && |words| >= 5 && words[4..] == [ret] + below
    ensures k + 5 <= |m| && m[k] == words[0] && m[k + 1] == words[1] && m[k + 2] == words[2] && m[k + 3] == words[3]
    ensures m[k + 4] == ret && m[k + 5..] == below
  {
    assert m[k + 4..] == words[4..] && m[k + 5..] == words[4..][1..];
  }

  lemma {:induction false} CaptureEach(ds: seq<Location>, loc: Activation, glob: seq<Value>, objs: seq<Closed<Value>>)
    requires Capture(ds, loc, glob, objs).Some?
    ensures |Capture(ds, loc, glob, objs).value| == |ds|
    ensures forall j :: 0 <= j < |ds| ==> Fetch(ds[j], loc, glob, objs) == Some(Capture(ds, loc, glob, objs).value[j])
    decreases |ds|
  {
    hide Fetch;
    if ds != [] {
      CaptureEach(ds[1..], loc, glob, objs);
      forall j | 0 <= j < |ds| ensures Fetch(ds[j], loc, glob, objs) == Some(Capture(ds, loc, glob, objs).value[j]) {
        assert j > 0 ==> ds[j] == ds[1..][j - 1];
      }
    }
  }

  lemma ObjsSnoc(os: seq<Closed<Value>>, o: Closed<Value>)
    ensures EncObjs(os + [o]) == EncObjs(os) + [Closed(o.code, EncAll(o.captured))]
  {
  }

  lemma EncNone(vs: seq<Value>)
    ensures EncAll(vs[..0]) == []
  {
  }

  lemma EncSnoc(vs: seq<Value>, i: nat)
    requires i < |vs|
    ensures EncAll(vs[..i + 1]) == EncAll(vs[..i]) + [Enc(vs[i])]
  {
  }

  lemma NoBlank(rest: seq<Word>)
    ensures Blank(0) + rest == rest
  {
  }

  lemma BlankMore(m: nat, rest: seq<Word>)
    ensures [Num(0)] + (Blank(m) + rest) == Blank(m + 1) + rest
  {
  }

  lemma FourWords(a: int, b: int, c: int, d: int, rest: seq<int>)
    ensures [a] + ([b] + ([c] + ([d] + rest))) == [a, b, c, d] + rest
  {
  }

  /** A call leaves the registers alone, and its way back is all that is saved. */
  lemma CalledRest(s: State, n: nat, k: nat, closure: Option<nat>, l: nat, g: int)
    requires s.frames != [] && n <= k <= |s.frames[0].ops| && MainPlain(s.frames)
    ensures var fs, gs := s.frames, Called(s, n, k, closure, l).frames;
      && gs != [] && MainPlain(gs) && Returns(gs, g) == [s.pc + 1] + Saved(fs, g)
      && FrameAt(gs[1..], g) == FrameAt(fs, g) && ArgsOf(gs[1..]) == ArgsOf(fs) && LocalsOf(gs[1..]) == LocalsOf(fs)
      && gs[0].ops == [] && gs[0].loc.locals == [] && gs[0].loc.closure == closure
  {
    hide FrameAt, ArgsOf, LocalsOf, Saved, Reverse;
    var caller := s.frames[0].(ops := s.frames[0].ops[k..]);
    ShapeKept(s.frames, caller, g);
    var gs := Called(s, n, k, closure, l).frames;
    assert gs[1..] == [caller] + s.frames[1..];
    TopPlain(s.frames, caller);
    assert gs[|gs| - 1] == gs[1..][|gs| - 2];
  }

  lemma BegunRest(s: State, m: nat, g: int)
    requires s.frames != [] && s.frames[0].ops == [] && s.frames[0].loc.locals == [] && MainPlain(s.frames)
    ensures var fs, gs := s.frames, Begun(s, m).frames;
      && gs != [] && MainPlain(gs)
      && Saved(gs, g) == [Flag(fs[0].loc.closure.Some?), LocalsOf(fs[1..]), ArgsOf(fs[1..]), FrameAt(fs[1..], g)]
        + Returns(fs, g)
      && Layout(gs) == Blank(m) + Layout(fs) && FrameAt(gs, g) == g - |Layout(fs)| - 1 && LocalsOf(gs) == m
      && ArgsOf(gs) == (if |fs| == 1 then MAIN_ARGS else |fs[0].loc.args|)
  {
    var gs := Begun(s, m).frames;
    assert gs[1..] == s.frames[1..];
    LayoutBegin(s.frames, m);
    FrameFromTop(s.frames, g);
    hide Layout, ClosureWord;
  }

  /** Where the evaluator's location is, for a stack from `lo` to the globals at `g`. */
  ghost function Target(s: State, d: Location, lo: int, g: int): Address
    requires s.frames != [] && Fetch(d, s.frames[0].loc, s.glob, s.objs).Some?
  {
    match d
    case Global(i) => InMemory(g + i)
    case Access(i) => InClosure(s.frames[0].loc.closure.value, i)
    case _ => InMemory(lo + Place(s.frames[0], d))
  }

  predicate Writable(a: Address, size: nat, objs: seq<Closed<Word>>) {
    match a
    case InMemory(i) => 0 <= i < size
    case InClosure(id, k) => id < |objs| && k < |objs[id].captured|
    case Wrong => true
  }

  function StoredWords(m: seq<Word>, a: Address, w: Word): seq<Word>
    requires a.InMemory? ==> 0 <= a.i < |m|
  {
    if a.InMemory? then m[a.i := w] else m
  }

  function StoredObjs(objs: seq<Closed<Word>>, a: Address, w: Word): seq<Closed<Word>>
    requires a.InClosure? ==> a.id < |objs| && a.k < |objs[a.id].captured|
  {
    if a.InClosure? then objs[a.id := objs[a.id].(captured := objs[a.id].captured[a.k := w])] else objs
  }

  /** What an assignment does to the words of the stack, of the globals and of the closures. */
  lemma AssignedWords(s: State, d: Location, v: Value, m: seq<Word>, g: nat, lo: nat, w: Word)
    requires s.frames != [] && Fetch(d, s.frames[0].loc, s.glob, s.objs).Some? && w == Enc(v)
    requires lo <= g <= |m| && m[lo..g] == Layout(s.frames) && m[g..] == EncAll(s.glob)
    ensures Writable(Target(s, d, lo, g), |m|, EncObjs(s.objs))
    ensures var a, t := Target(s, d, lo, g), Assigned(s, d, v); var m' := StoredWords(m, a, w);
      |m'| == |m| && m'[lo..g] == Layout(t.frames) && m'[g..] == EncAll(t.glob) &&
        StoredObjs(EncObjs(s.objs), a, w) == EncObjs(t.objs)
  {
    var m' := StoredWords(m, Target(s, d, lo, g), w) by {
      if d.Local? || d.Arg? {
        LayoutFetch(s.frames, d, s.glob, s.objs);
      }
    }
    hide Layout, Enc;
    if d.Local? || d.Arg? {
      LayoutPut(s.frames, d, v, s.glob, s.objs);
      hide EncAll, EncObjs;
      InsideBelow(m, m', lo, g, Place(s.frames[0], d), w);
    } else if d.Global? {
      InsideAbove(m, m', lo, g, d.i, w);
      GlobalPut(s.glob, d.i, v);
      hide EncAll, EncObjs;
      SameLoc(s.frames);
    } else {
      ClosurePut(s.objs, s.frames[0].loc.closure.value, d.i, v);
      hide EncAll;
      SameLoc(s.frames);
    }
  }

  /** An assignment leaves registers and saved words alone. */
  lemma AssignedRest(s: State, d: Location, v: Value, g: int)
    requires s.frames != [] && Fetch(d, s.frames[0].loc, s.glob, s.objs).Some? && MainPlain(s.frames)
    ensures var fs, gs := s.frames, Assigned(s, d, v).frames;
      && gs != [] && Assigned(s, d, v).entered == s.entered && MainPlain(gs)
      && FrameAt(gs, g) == FrameAt(fs, g) && ArgsOf(gs) == ArgsOf(fs) && LocalsOf(gs) == LocalsOf(fs)
      && Saved(gs, g) == Saved(fs, g) && Returns(gs, g) == Returns(fs, g)
  {
    var f := Assigned(s, d, v).frames[0];
    PutShape(d, v, s.frames[0], s.glob, s.objs);
    hide Put, Fetch, MainPlain;
    ShapeKept(s.frames, f, g);
    TopPlain(s.frames, f);
  }

  lemma PutShape(d: Location, v: Value, f: Frame, glob: seq<Value>, objs: seq<Closed<Value>>)
    requires Fetch(d, f.loc, glob, objs).Some?
    ensures SameShape(f, f.(loc := Put(d, v, f.loc, glob, objs).0))
  {
  }

  lemma SameLoc(fs: seq<Frame>)
    requires fs != []
    ensures [fs[0].(loc := fs[0].loc)] + fs[1..] == fs
  {
  }

  lemma InsideBelow(m: seq<Word>, m': seq<Word>, lo: nat, g: nat, k: nat, w: Word)
    requires lo + k < g <= |m| && m' == m[lo + k := w]
    ensures m'[lo..g] == m[lo..g][k := w] && m'[g..] == m[g..]
  {
  }

  lemma InsideAbove(m: seq<Word>, m': seq<Word>, lo: nat, g: nat, k: nat, w: Word)
    requires lo <= g && g + k < |m| && m' == m[g + k := w]
    ensures m'[lo..g] == m[lo..g] && m'[g..] == m[g..][k := w]
  {
  }

  lemma GlobalPut(glob: seq<Value>, i: nat, v: Value)
    requires i < |glob|
    ensures EncAll(glob[i := v]) == EncAll(glob)[i := Enc(v)]
  {
  }

  lemma ClosurePut(os: seq<Closed<Value>>, id: nat, k: nat, v: Value)
    requires id < |os| && k < |os[id].captured|
    ensures var cs := EncObjs(os);
      EncObjs(os[id := os[id].(captured := os[id].captured[k := v])])
        == cs[id := cs[id].(captured := cs[id].captured[k := Enc(v)])]
  {
    GlobalPut(os[id].captured, k, v);
  }

  /** `main` has no arguments and is no closure. */
  ghost predicate MainPlain(fs: seq<Frame>) {
    fs != [] ==> fs[|fs| - 1].loc.args == [] && fs[|fs| - 1].loc.closure == None
  }

  lemma TopPlain(fs: seq<Frame>, f: Frame)
    requires fs != [] && SameShape(fs[0], f) && MainPlain(fs)
    ensures MainPlain([f] + fs[1..])
  {
  }

  lemma PushWords(m: seq<Word>, m': seq<Word>, k: nat, g: nat, w: Word)
    requires k <= g <= |m| && 0 < g && k < g && m' == m[k := w]
    ensures m'[k..g] == [w] + m[k + 1..g] && m'[g..] == m[g..]
  {
  }

  lemma PopWords(m: seq<Word>, k: nat, g: nat, w: Word, rest: seq<Word>)
    requires k <= g <= |m| && m[k..g] == [w] + rest
    ensures k < g && m[k] == w && m[k + 1..g] == rest
  {
    assert m[k..g][0] == w && m[k..g][1..] == rest;
  }
}
