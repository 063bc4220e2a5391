/** The tests that the machine makes for a pattern, and where `#box` makes a difference. */
module PatternTests {
  import opened Syntax

  /** What the tests of the machine accept. */
  predicate Accepts(p: Pattern, v: Value, store: Store)
    decreases p
  {
    match p
    case Named(_, q) => Accepts(q, v, store)
    case Wildcard => true
    case PSexp(t, ps) =>
      && v.Obj? && v.loc < |store| && store[v.loc].Sx? && store[v.loc].tag == t && |store[v.loc].items| == |ps|
      && AcceptsList(ps, store[v.loc].items, store)
    case PArray(ps) =>
      && v.Obj? && v.loc < |store| && store[v.loc].Arr? && |store[v.loc].items| == |ps|
      && AcceptsList(ps, store[v.loc].items, store)
    case PConst(n) => v == Int(n)
    case PString(text) => v.Obj? && v.loc < |store| && store[v.loc] == Bytes(text)
    case Boxed => !v.Int?
    case UnBoxed => v.Int?
    case StringTag => v.Obj? && v.loc < |store| && store[v.loc].Bytes?
    case SexpTag => v.Obj? && v.loc < |store| && store[v.loc].Sx?
    case ArrayTag => v.Obj? && v.loc < |store| && store[v.loc].Arr?
    case ClosureTag => false
  }

  predicate AcceptsList(ps: seq<Pattern>, vs: seq<Value>, store: Store)
    requires |ps| == |vs|
    decreases ps
  {
    ps == [] || (Accepts(ps[0], vs[0], store) && AcceptsList(ps[1..], vs[1..], store))
  }

  /** Somewhere a `#box` pattern is laid against a value that is no integer and no object. */
  predicate BoxOnOther(p: Pattern, v: Value, store: Store)
    decreases p
  {
    match p
    case Boxed => !v.Int? && !(v.Obj? && v.loc < |store|)
    case Named(_, q) => BoxOnOther(q, v, store)
    case PSexp(_, ps) =>
      v.Obj? && v.loc < |store| && store[v.loc].Sx? && |store[v.loc].items| == |ps| &&
        BoxOnOtherList(ps, store[v.loc].items, store)
    case PArray(ps) =>
      v.Obj? && v.loc < |store| && store[v.loc].Arr? && |store[v.loc].items| == |ps| &&
        BoxOnOtherList(ps, store[v.loc].items, store)
    case _ => false
  }

  predicate BoxOnOtherList(ps: seq<Pattern>, vs: seq<Value>, store: Store)
    requires |ps| == |vs|
    decreases ps
  {
    ps != [] && (BoxOnOther(ps[0], vs[0], store) || BoxOnOtherList(ps[1..], vs[1..], store))
  }

  predicate BoxFree(p: Pattern)
    decreases p
  {
    match p
    case Boxed => false
    case Named(_, q) => BoxFree(q)
    case PSexp(_, ps) => forall q :: q in ps ==> BoxFree(q)
    case PArray(ps) => forall q :: q in ps ==> BoxFree(q)
    case _ => true
  }
}
