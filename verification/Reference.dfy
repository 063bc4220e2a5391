/** The reference evaluator: states, pattern matching and the continuation-passing `eval`. */
module Reference {
  import opened Wrappers
  import opened Syntax

  datatype Kind = Mut | Unmut | FVal

  datatype State =
    | Initial
    | Global(names: map<string, Kind>, vals: map<string, Value>)
    | Local(names: map<string, Kind>, vals: map<string, Value>, up: State)

  function Get<T>(m: map<string, T>, x: string): Option<T> {
    if x in m then Some(m[x]) else None
  }

  /** `State.eval`. */
  function Lookup(st: State, x: string): Option<Value> {
    match st
    case Initial => None
    case Global(_, vals) => Get(vals, x)
    case Local(names, vals, up) => if x in names then Get(vals, x) else Lookup(up, x)
  }

  /** `State.update`: only variables can be assigned. */
  function Update(st: State, x: string, v: Value): Option<State> {
    match st
    case Initial => None
    case Global(names, vals) =>
      if x in names && names[x] == Mut then Some(Global(names, vals[x := v])) else None
    case Local(names, vals, up) =>
      if x in names then
        if names[x] == Mut then Some(Local(names, vals[x := v], up)) else None
      else
        match Update(up, x, v)
        case Some(up') => Some(Local(names, vals, up'))
        case None => None
  }

  /** `State.push`; the outermost scope also declares the builtins. */
  function Push(st: State, vals: map<string, Value>, names: map<string, Kind>): State {
    if st.Initial? then
      Global((map f | f in BUILTINS :: FVal) + names, vals + (map f | f in BUILTINS :: BuiltinValue(f)))
    else
      Local(names, vals, st)
  }

  function PopScope(st: State): Option<State> {
    match st
    case Initial => None
    case Global(_, _) => Some(Initial)
    case Local(_, _, up) => Some(up)
  }

  // Pattern matching

  /** `match_patt`, with the bindings collected so far; a failed part makes the whole fail. */
  function MatchPattern(p: Pattern, v: Value, store: Store,
      found: Option<map<string, Value>>): Option<map<string, Value>>
    decreases p
  {
    match p
    case Named(x, q) =>
      (match MatchPattern(q, v, store, found)
       case Some(m) => Some(m[x := v])
       case None => None)
    case Wildcard => found
    case PSexp(t, ps) =>
      if v.Obj? && v.loc < |store| && store[v.loc].Sx? && store[v.loc].tag == t && |store[v.loc].items| == |ps|
      then MatchList(ps, store[v.loc].items, store, found) else None
    case PArray(ps) =>
      if v.Obj? && v.loc < |store| && store[v.loc].Arr? && |store[v.loc].items| == |ps|
      then MatchList(ps, store[v.loc].items, store, found) else None
    case PConst(n) => if v == Int(n) then found else None
    case PString(text) => if v.Obj? && v.loc < |store| && store[v.loc] == Bytes(text) then found else None
    case Boxed => if v.Obj? && v.loc < |store| then found else None
    case UnBoxed => if v.Int? then found else None
    case StringTag => if v.Obj? && v.loc < |store| && store[v.loc].Bytes? then found else None
    case SexpTag => if v.Obj? && v.loc < |store| && store[v.loc].Sx? then found else None
    case ArrayTag => if v.Obj? && v.loc < |store| && store[v.loc].Arr? then found else None
    case ClosureTag => None
  }

  function MatchList(ps: seq<Pattern>, vs: seq<Value>, store: Store,
      found: Option<map<string, Value>>): Option<map<string, Value>>
    requires |ps| == |vs|
    decreases ps
  {
    if ps == [] then found
    else MatchList(ps[1..], vs[1..], store, MatchPattern(ps[0], vs[0], store, found))
  }

  /** `Pattern.vars`. */
  function PatternVars(p: Pattern): set<string>
    decreases p
  {
    match p
    case Named(x, q) => {x} + PatternVars(q)
    case PSexp(_, ps) => PatternListVars(ps)
    case PArray(ps) => PatternListVars(ps)
    case _ => {}
  }

  function PatternListVars(ps: seq<Pattern>): set<string>
    decreases ps
  {
    if ps == [] then {} else PatternVars(ps[0]) + PatternListVars(ps[1..])
  }

  /** The first branch whose pattern matches: the state to push for it, and its body. */
  function Select(branches: seq<(Pattern, Expr)>, v: Value, store: Store)
    : Option<(map<string, Value>, map<string, Kind>, Expr)>
  {
    if branches == [] then None
    else
      var (p, body) := branches[0];
      match MatchPattern(p, v, store, Some(map[]))
      case Some(m) => Some((m, map x | x in PatternVars(p) :: Unmut, body))
      case None => Select(branches[1..], v, store)
  }

  // The evaluator

  /** State, store, streams, and the stack of values with its top first. */
  datatype Config = Config(st: State, store: Store, input: seq<int>, output: seq<int>, vs: seq<Value>)

  /** `seq`: sequencing with an absent continuation. */
  function Then(s: Expr, k: Expr): Expr {
    if k.Skip? then s else Seq(s, k)
  }

  /** `schedule_list`, on a non-empty list. */
  function Schedule(es: seq<Expr>): Expr
    requires es != []
  {
    if |es| == 1 then es[0] else Then(Schedule(es[..|es| - 1]), es[|es| - 1])
  }

  /** The intrinsics that do not call the evaluator back. */
  function RunStep(s: Step, c: Config): Option<Config> {
    match s
    case Discard =>
      if |c.vs| < 1 then None else Some(c.(vs := c.vs[1..]))
    case MakeArray(n) =>
      if |c.vs| < n then None
      else
        var (store, v) := Allocate(c.store, Arr(Reverse(c.vs[..n])));
        Some(c.(store := store, vs := [v] + c.vs[n..]))
    case MakeSexp(t, n) =>
      if |c.vs| < n then None
      else
        var (store, v) := Allocate(c.store, Sx(t, Reverse(c.vs[..n])));
        Some(c.(store := store, vs := [v] + c.vs[n..]))
    case Apply(op) =>
      if |c.vs| < 2 || !c.vs[0].Int? || !c.vs[1].Int? then None
      else (match Operate(op, c.vs[1].n, c.vs[0].n)
        case Some(z) => Some(c.(vs := [Int(z)] + c.vs[2..]))
        case None => None)
    case TakeElem =>
      if |c.vs| < 2 || !c.vs[0].Int? then None
      else (match ElemOf(c.store, c.vs[1], c.vs[0].n)
        case Some(v) => Some(c.(vs := [v] + c.vs[2..]))
        case None => None)
    case TakeElemRef =>
      if |c.vs| < 2 || !c.vs[0].Int? then None
      else Some(c.(vs := [RefElem(c.vs[1], c.vs[0].n)] + c.vs[2..]))
    case Invoke(n) =>
      if |c.vs| < n + 1 || !c.vs[n].BuiltinValue? then None
      else (match RunBuiltin(c.vs[n].name, Reverse(c.vs[..n]), c.store, c.input, c.output)
        case Some((store, input, output, v)) => Some(Config(c.st, store, input, output, [v] + c.vs[n + 1..]))
        case None => None)
    case Write =>
      if |c.vs| < 2 then None
      else (match c.vs[1]
        case RefVar(x) =>
          (match Update(c.st, x, c.vs[0])
           case Some(st) => Some(c.(st := st, vs := [c.vs[0]] + c.vs[2..]))
           case None => None)
        case RefElem(b, i) =>
          (match SetElem(c.store, b, i, c.vs[0])
           case Some(store) => Some(c.(store := store, vs := [c.vs[0]] + c.vs[2..]))
           case None => None)
        case _ => None)
    case Match(_, _) => None
  }

  /** The value of a variable; names of builtins denote builtins. */
  function Deref(c: Config, x: string): Option<Config> {
    match Lookup(c.st, x)
    case Some(v) => Some(c.(vs := [v] + c.vs))
    case None => None
  }

  /** Initialisers of declared variables run first, in order. */
  function WithInits(decls: seq<(string, Option<Expr>)>, body: Expr): Expr {
    if decls == [] then body
    else
      var rest := WithInits(decls[1..], body);
      match decls[0].1
      case Some(e) => Seq(Ignore(Assign(Ref(decls[0].0), e)), rest)
      case None => rest
  }

  function Declared(decls: seq<(string, Option<Expr>)>): set<string> {
    set d | d in decls :: d.0
  }

  /** `eval conf k expr`. `None` is an exception, or `fuel` nested calls were not enough. */
  function Eval(c: Config, k: Expr, e: Expr, fuel: nat): Option<Config>
    decreases fuel
  {
    if fuel == 0 then None
    else match e
      case Const(n) => Eval(c.(vs := [Int(n)] + c.vs), Skip, k, fuel - 1)
      case Str(text) =>
        var (store, v) := Allocate(c.store, Bytes(text));
        Eval(c.(store := store, vs := [v] + c.vs), Skip, k, fuel - 1)
      case Var(x) =>
        (match Deref(c, x)
         case Some(c') => Eval(c', Skip, k, fuel - 1)
         case None => None)
      case Ref(x) => Eval(c.(vs := [RefVar(x)] + c.vs), Skip, k, fuel - 1)
      case Binop(op, x, y) => Eval(c, k, Schedule([x, y, Intrinsic(Apply(op))]), fuel - 1)
      case Elem(b, i) => Eval(c, k, Schedule([b, i, Intrinsic(TakeElem)]), fuel - 1)
      case ElemRef(b, i) => Eval(c, k, Schedule([b, i, Intrinsic(TakeElemRef)]), fuel - 1)
      case Array(es) => Eval(c, k, Schedule(es + [Intrinsic(MakeArray(|es|))]), fuel - 1)
      case Sexp(t, es) => Eval(c, k, Schedule(es + [Intrinsic(MakeSexp(t, |es|))]), fuel - 1)
      case Call(f, es) => Eval(c, k, Schedule([f] + es + [Intrinsic(Invoke(|es|))]), fuel - 1)
      case Assign(x, y) => Eval(c, k, Schedule([x, y, Intrinsic(Write)]), fuel - 1)
      case Seq(s1, s2) => Eval(c, Then(s2, k), s1, fuel - 1)
      case Skip => if k.Skip? then Some(c) else Eval(c, Skip, k, fuel - 1)
      case Ignore(s) => Eval(c, k, Schedule([s, Intrinsic(Discard)]), fuel - 1)
      case If(x, s1, s2) => Eval(c, k, Schedule([x, Control(Branch(s1, s2))]), fuel - 1)
      case While(x, s) => Eval(c, k, Schedule([x, Control(Loop(x, s))]), fuel - 1)
      case DoWhile(s, x) => Eval(c, Then(While(x, s), k), s, fuel - 1)
      case Case(x, brs, valued) => Eval(c, Skip, Schedule([x, Intrinsic(Match(brs, k))]), fuel - 1)
      case Scope(ds, body) =>
        Eval(c.(st := Push(c.st, map[], map x | x in Declared(ds) :: Mut)), k, Seq(WithInits(ds, body), Leave),
          fuel - 1)
      case Lambda(_, _) => None // closures are not among the values here
      case Leave =>
        (match PopScope(c.st)
         case Some(st) => Eval(c.(st := st), Skip, k, fuel - 1)
         case None => None)
      case Control(choice) =>
        if |c.vs| < 1 || !c.vs[0].Int? then None
        else
          var c' := c.(vs := c.vs[1..]);
          (match choice
           case Branch(s1, s2) => Eval(c', k, if c.vs[0].n != 0 then s1 else s2, fuel - 1)
           case Loop(x, s) => Eval(c', k, if c.vs[0].n != 0 then Then(s, While(x, s)) else Skip, fuel - 1))
      case Intrinsic(Match(brs, k')) =>
        if |c.vs| < 1 then None
        else
          (match Select(brs, c.vs[0], c.store)
           case None => None
           case Some((m, names, body)) =>
             match Eval(c.(st := Push(c.st, m, names), vs := c.vs[1..]), k', Seq(body, Leave), fuel - 1)
             case Some(c') => Eval(c', Skip, k, fuel - 1)
             case None => None)
      case Intrinsic(s) =>
        (match RunStep(s, c)
         case Some(c') => Eval(c', Skip, k, fuel - 1)
         case None => None)
  }
}
