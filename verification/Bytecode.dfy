/** The bytecode: instructions, their encoding, and the decoder of the disassembler. */
module Bytecode {
  import opened Wrappers

  type byte = x: int | 0 <= x < 256

  type Bytes = seq<byte>

  type Label = string

  // 32-bit integers, little-endian

  const WORD: int := 0x1_0000_0000

  predicate Fits(n: int) {
    -0x8000_0000 <= n < 0x8000_0000
  }

  /** `Int32.of_int` keeps the low 32 bits. */
  function Int32(n: int): (b: Bytes)
    ensures |b| == 4
  {
    var m := n % WORD;
    [m % 256, m / 0x100 % 256, m / 0x1_0000 % 256, m / 0x100_0000 % 256]
  }

  function Signed(m: int): int {
    if m >= 0x8000_0000 then m - WORD else m
  }

  /** The integer at the front, and what follows it. */
  function ReadInt(b: Bytes): (r: Option<(int, Bytes)>)
    ensures r.Some? ==> |r.value.1| < |b|
  {
    if |b| < 4 then None
    else
      var b0: int, b1: int, b2: int, b3: int := b[0], b[1], b[2], b[3];
      Some((Signed(b0 + 0x100 * b1 + 0x1_0000 * b2 + 0x100_0000 * b3), b[4..]))
  }

  lemma Int32Read(n: int, rest: Bytes)
    requires Fits(n)
    ensures ReadInt(Int32(n) + rest) == Some((n, rest))
  {
    var m := n % WORD;
    var q1 := m / 0x100;
    var q2 := m / 0x1_0000;
    var q3 := m / 0x100_0000;
    assert q2 == q1 / 256 && q3 == q2 / 256;
    assert q3 % 256 == q3;
    assert m == m % 256 + 0x100 * (q1 % 256) + 0x1_0000 * (q2 % 256) + 0x100_0000 * q3;
    assert Signed(m) == n;
    assert (Int32(n) + rest)[4..] == rest;
  }

  // Instructions

  datatype Designation =
    | Global(name: string) | Local(index: int) | Arg(index: int) | Access(index: int) | Fun(name: string)

  datatype Patt = StrCmp | String | Array | Sexp | Boxed | UnBoxed | Closure

  datatype Insn =
    | BINOP(op: string)
    | CONST(n: int)
    | STRING(text: Bytes)
    | SEXP(tag: Bytes, n: int)
    | STI
    | STA
    | LABEL(l: Label)
    | FLABEL(l: Label)
    | SLABEL(l: Label)
    | JMP(l: Label)
    | END
    | RET
    | DROP
    | DUP
    | SWAP
    | ELEM
    | LD(d: Designation)
    | LDA(d: Designation)
    | ST(d: Designation)
    | CJMP(cond: string, l: Label)
    | CALL(f: Label, n: int, tail: bool)
    | BEGIN(name: string, nargs: int, nlocals: int, closure: seq<Designation>)
    | CLOSURE(f: Label, ds: seq<Designation>)
    | PROTO(f: Label, c: Label)
    | PPROTO(f: Label, c: Label)
    | PCALLC(n: int, tail: bool)
    | CALLC(n: int, tail: bool)
    | TAG(tag: Bytes, n: int)
    | ARRAY(n: int)
    | PATT(p: Patt)
    | FAIL(line: int, col: int, value: bool)
    | EXTERN(name: Label)
    | PUBLIC(name: Label)
    | IMPORT(name: Label)
    | LINE(n: int)

  const OPS: seq<string> := ["+", "-", "*", "/", "%", "<", "<=", ">", ">=", "==", "!=", "&&", "!!"]

  /** `opnum`, counted from 1; 0 for an unknown operator. */
  function OpNum(op: string, i: nat): (k: nat)
    requires i <= |OPS|
    ensures k <= 13 && (k > 0 ==> i < k && OPS[k - 1] == op)
    decreases |OPS| - i
  {
    if i == |OPS| then 0 else if OPS[i] == op then i + 1 else OpNum(op, i + 1)
  }

  /** The builtins that have opcodes of their own. */
  function BuiltinCode(f: Label): (r: Option<byte>)
    ensures r.Some? ==> r.value < 4
  {
    if f == "Lread" then Some(0) else if f == "Lwrite" then Some(1)
    else if f == "Llength" then Some(2) else if f == "Lstring" then Some(3) else None
  }

  /** The number of a pattern, as its type declares them. */
  function PattNum(p: Patt): (k: byte)
    ensures k <= 6
  {
    match p
    case StrCmp => 0
    case String => 1
    case Array => 2
    case Sexp => 3
    case Boxed => 4
    case UnBoxed => 5
    case Closure => 6
  }

  // What the encoding refers to

  /** Offsets of strings, indices of globals, offsets of labels. A label that is not defined
      yet is encoded as 0. */
  datatype Tables = Tables(strings: map<Bytes, nat>, globals: map<string, nat>, labels: map<Label, nat>)

  function LabelField(t: Tables, l: Label): int {
    if l in t.labels then t.labels[l] else 0
  }

  function StringField(t: Tables, s: Bytes): int {
    if s in t.strings then t.strings[s] else 0
  }

  predicate Placeable(d: Designation) {
    !d.Fun?
  }

  function Place(t: Tables, b: int, d: Designation): (r: Bytes)
    requires Placeable(d) && 0 <= b < 16
    ensures |r| == 5
  {
    match d
    case Global(x) => [16 * b] + Int32(if x in t.globals then t.globals[x] else 0)
    case Local(n) => [16 * b + 1] + Int32(n)
    case Arg(n) => [16 * b + 2] + Int32(n)
    case Access(n) => [16 * b + 3] + Int32(n)
  }

  function Places(t: Tables, ds: seq<Designation>): Bytes
    requires forall d :: d in ds ==> Placeable(d)
  {
    if ds == [] then [] else Places(t, ds[..|ds| - 1]) + Place(t, 0, ds[|ds| - 1])
  }

  /** Instructions that the encoder knows. */
  predicate Encodable(i: Insn) {
    match i
    case BINOP(op) => OpNum(op, 0) > 0
    case LD(d) => Placeable(d)
    case LDA(d) => Placeable(d)
    case ST(d) => Placeable(d)
    case CJMP(c, _) => c == "z" || c == "nz"
    case CLOSURE(_, ds) => forall d :: d in ds ==> Placeable(d)
    case PROTO(_, _) => false
    case PPROTO(_, _) => false
    case PCALLC(_, _) => false
    case _ => true
  }

  lemma {:induction false} OpNumFinds(op: string, i: nat)
    requires i <= |OPS|
    ensures OpNum(op, i) > 0 <==> op in OPS[i..]
    decreases |OPS| - i
  {
    if i < |OPS| {
      OpNumFinds(op, i + 1);
      assert OPS[i..] == [OPS[i]] + OPS[i + 1..];
    }
  }

  /** What the encoder refuses: unknown operators and conditions, functions in the place of
      variables, and instructions that only exist before closures are known. */
  lemma Refused(i: Insn)
    ensures !Encodable(i) <==>
      || i.PROTO? || i.PPROTO? || i.PCALLC?
      || (i.BINOP? && i.op !in ["+", "-", "*", "/", "%", "<", "<=", ">", ">=", "==", "!=", "&&", "!!"])
      || (i.CJMP? && i.cond != "z" && i.cond != "nz")
      || ((i.LD? || i.LDA? || i.ST?) && i.d.Fun?)
      || (i.CLOSURE? && exists d :: d in i.ds && d.Fun?)
  {
    if i.BINOP? {
      OpNumFinds(i.op, 0);
      assert OPS[0..] == OPS;
    }
  }

  /** The bytes of an instruction. */
  function Encode(t: Tables, i: Insn): Bytes
    requires Encodable(i)
  {
    match i
    case BINOP(op) => [OpNum(op, 0)]
    case CONST(n) => [0x10] + Int32(n)
    case STRING(s) => [0x11] + Int32(StringField(t, s))
    case SEXP(s, n) => [0x12] + Int32(StringField(t, s)) + Int32(n)
    case STI => [0x13]
    case STA => [0x14]
    case LABEL(_) => []
    case FLABEL(_) => []
    case SLABEL(_) => []
    case JMP(l) => [0x15] + Int32(LabelField(t, l))
    case END => [0x16]
    case RET => [0x17]
    case DROP => [0x18]
    case DUP => [0x19]
    case SWAP => [0x1a]
    case ELEM => [0x1b]
    case LD(d) => Place(t, 2, d)
    case LDA(d) => Place(t, 3, d)
    case ST(d) => Place(t, 4, d)
    case CJMP(c, l) => [if c == "z" then 0x50 else 0x51] + Int32(LabelField(t, l))
    case BEGIN(_, a, l, c) => [if c == [] then 0x52 else 0x53] + Int32(a) + Int32(l)
    case CLOSURE(l, ds) => [0x54] + Int32(LabelField(t, l)) + Int32(|ds|) + Places(t, ds)
    case CALLC(n, _) => [0x55] + Int32(n)
    case CALL(f, n, _) =>
      if BuiltinCode(f).Some? then [0x70 + BuiltinCode(f).value]
      else if f == ".array" then [0x74] + Int32(n)
      else [0x56] + Int32(LabelField(t, f)) + Int32(n)
    case TAG(s, n) => [0x57] + Int32(StringField(t, s)) + Int32(n)
    case ARRAY(n) => [0x58] + Int32(n)
    case FAIL(l, c, _) => [0x59] + Int32(l) + Int32(c)
    case LINE(n) => [0x5a] + Int32(n)
    case PATT(p) => [0x60 + PattNum(p)]
    case EXTERN(_) => []
    case PUBLIC(_) => []
    case IMPORT(_) => []
  }

  predicate AllEncodable(p: seq<Insn>) {
    forall i :: i in p ==> Encodable(i)
  }

  function EncodeAll(t: Tables, p: seq<Insn>): Bytes
    requires AllEncodable(p)
  {
    if p == [] then [] else EncodeAll(t, p[..|p| - 1]) + Encode(t, p[|p| - 1])
  }

  // What the decoder shows

  datatype Slot = G(i: int) | L(i: int) | A(i: int) | C(i: int)

  datatype Shown =
    | Binop(op: string)
    | Const(n: int)
    | Str(text: Bytes)
    | MakeSexp(tag: Bytes, n: int)
    | Simple(name: string)
    | Jmp(to: int)
    | Move(name: string, slot: Slot)
    | CondJmp(nonzero: bool, to: int)
    | Begin(closed: bool, nargs: int, nlocals: int)
    | MakeClosure(f: int, ps: seq<Slot>)
    | CallClosure(n: int)
    | Call(f: int, n: int)
    | TestTag(tag: Bytes, n: int)
    | TestArray(n: int)
    | Fail(line: int, col: int)
    | Line(n: int)
    | Test(pattern: string)
    | CallBuiltin(name: string)
    | MakeArray(n: int)

  // The decoder's own names

  const BINOPS: seq<string> := ["+", "-", "*", "/", "%", "<", "<=", ">", ">=", "==", "!=", "&&", "!!"]

  const PATTERNS: seq<string> := ["=str", "#string", "#array", "#sexp", "#ref", "#val", "#fun"]

  const MOVES: seq<string> := ["LD", "LDA", "ST"]

  const BUILTINS: seq<string> := ["Lread", "Lwrite", "Llength", "Lstring"]

  function SimpleName(l: int): Option<string> {
    if l == 3 then Some("STI") else if l == 4 then Some("STA") else if l == 6 then Some("END")
    else if l == 7 then Some("RET") else if l == 8 then Some("DROP") else if l == 9 then Some("DUP")
    else if l == 10 then Some("SWAP") else if l == 11 then Some("ELEM") else None
  }

  /** `get_string`: the characters from an offset to the first zero. */
  function GetString(table: Bytes, pos: int): Option<Bytes>
    decreases |table| - pos
  {
    if !(0 <= pos < |table|) then None
    else if table[pos] == 0 then Some([])
    else match GetString(table, pos + 1)
      case Some(s) => Some([table[pos]] + s)
      case None => None
  }

  function ReadString(table: Bytes, b: Bytes): (r: Option<(Bytes, Bytes)>)
    ensures r.Some? ==> |r.value.1| < |b|
  {
    match ReadInt(b)
    case Some((pos, rest)) =>
      (match GetString(table, pos)
       case Some(s) => Some((s, rest))
       case None => None)
    case None => None
  }

  function ReadTwo(b: Bytes): (r: Option<(int, int, Bytes)>)
    ensures r.Some? ==> |r.value.2| < |b|
  {
    match ReadInt(b)
    case Some((x, b1)) =>
      (match ReadInt(b1)
       case Some((y, b2)) => Some((x, y, b2))
       case None => None)
    case None => None
  }

  function ReadStringInt(table: Bytes, b: Bytes): (r: Option<(Bytes, int, Bytes)>)
    ensures r.Some? ==> |r.value.2| < |b|
  {
    match ReadString(table, b)
    case Some((s, b1)) =>
      (match ReadInt(b1)
       case Some((y, b2)) => Some((s, y, b2))
       case None => None)
    case None => None
  }

  /** A designation whose kind has been read. */
  function ReadPlace(kind: int, b: Bytes): (r: Option<(Slot, Bytes)>)
    ensures r.Some? ==> |r.value.1| < |b|
  {
    match ReadInt(b)
    case None => None
    case Some((n, rest)) =>
      if kind == 0 then Some((G(n), rest)) else if kind == 1 then Some((L(n), rest))
      else if kind == 2 then Some((A(n), rest)) else if kind == 3 then Some((C(n), rest)) else None
  }

  function ReadPlaces(k: int, b: Bytes): (r: Option<(seq<Slot>, Bytes)>)
    ensures r.Some? ==> |r.value.1| <= |b|
    decreases k
  {
    if k <= 0 then Some(([], b))
    else if b == [] then None
    else match ReadPlace(b[0], b[1..])
      case None => None
      case Some((p, rest)) =>
        match ReadPlaces(k - 1, rest)
        case Some((ps, rest')) => Some(([p] + ps, rest'))
        case None => None
  }

  /** The instruction at the front and what follows it; `None` at an invalid opcode or at the
      end of the buffer. The high half of the first byte is the class of the instruction. */
  function Decode(table: Bytes, b: Bytes): (r: Option<(Shown, Bytes)>)
    ensures r.Some? ==> |r.value.1| < |b|
  {
    if b == [] then None
    else
      var h, l, q := b[0] / 16, b[0] % 16, b[1..];
      if h == 0 then
        if 1 <= l <= 13 then Some((Binop(BINOPS[l - 1]), q)) else None
      else if h == 1 then
        if l == 0 then (match ReadInt(q) case Some((n, z)) => Some((Const(n), z)) case None => None)
        else if l == 1 then (match ReadString(table, q) case Some((s, z)) => Some((Str(s), z)) case None => None)
        else if l == 2 then (match ReadStringInt(table, q) case Some((s, n, z)) => Some((MakeSexp(s, n), z))
          case None => None)
        else if l == 5 then (match ReadInt(q) case Some((n, z)) => Some((Jmp(n), z)) case None => None)
        else (match SimpleName(l) case Some(name) => Some((Simple(name), q)) case None => None)
      else if 2 <= h <= 4 then
        (match ReadPlace(l, q) case Some((p, z)) => Some((Move(MOVES[h - 2], p), z)) case None => None)
      else if h == 5 then DecodeFive(table, l, q)
      else if h == 6 then
        if l <= 6 then Some((Test(PATTERNS[l]), q)) else None
      else if h == 7 then
        if l <= 3 then Some((CallBuiltin(BUILTINS[l]), q))
        else if l == 4 then (match ReadInt(q) case Some((n, z)) => Some((MakeArray(n), z)) case None => None)
        else None
      else None
  }

  function DecodeFive(table: Bytes, l: int, b: Bytes): (r: Option<(Shown, Bytes)>)
    ensures r.Some? ==> |r.value.1| <= |b|
  {
    if l == 0 || l == 1 then
      (match ReadInt(b) case Some((n, q)) => Some((CondJmp(l == 1, n), q)) case None => None)
    else if l == 2 || l == 3 then
      (match ReadTwo(b) case Some((x, y, q)) => Some((Begin(l == 3, x, y), q)) case None => None)
    else if l == 4 then
      (match ReadTwo(b)
       case Some((f, n, q)) =>
         (match ReadPlaces(n, q) case Some((ps, q')) => Some((MakeClosure(f, ps), q')) case None => None)
       case None => None)
    else if l == 5 then (match ReadInt(b) case Some((n, q)) => Some((CallClosure(n), q)) case None => None)
    else if l == 6 then (match ReadTwo(b) case Some((x, y, q)) => Some((Call(x, y), q)) case None => None)
    else if l == 7 then (match ReadStringInt(table, b) case Some((s, n, q)) => Some((TestTag(s, n), q))
      case None => None)
    else if l == 8 then (match ReadInt(b) case Some((n, q)) => Some((TestArray(n), q)) case None => None)
    else if l == 9 then (match ReadTwo(b) case Some((x, y, q)) => Some((Fail(x, y), q)) case None => None)
    else if l == 10 then (match ReadInt(b) case Some((n, q)) => Some((Line(n), q)) case None => None)
    else None
  }

  // What an instruction should be shown as

  function ShowPlace(t: Tables, d: Designation): Slot
    requires Placeable(d)
  {
    match d
    case Global(x) => G(if x in t.globals then t.globals[x] else 0)
    case Local(n) => L(n)
    case Arg(n) => A(n)
    case Access(n) => C(n)
  }

  function ShowPlaces(t: Tables, ds: seq<Designation>): seq<Slot>
    requires forall d :: d in ds ==> Placeable(d)
  {
    seq(|ds|, i requires 0 <= i < |ds| => ShowPlace(t, ds[i]))
  }

  /** Operators, builtins and patterns are named, tail flags and the names of other functions are
      gone, labels are offsets, strings are themselves; pseudo-instructions are not shown. */
  function Show(t: Tables, i: Insn): Option<Shown>
    requires Encodable(i)
  {
    match i
    case BINOP(op) => Some(Binop(op))
    case CONST(n) => Some(Const(n))
    case STRING(s) => Some(Str(s))
    case SEXP(s, n) => Some(MakeSexp(s, n))
    case STI => Some(Simple("STI"))
    case STA => Some(Simple("STA"))
    case JMP(l) => Some(Jmp(LabelField(t, l)))
    case END => Some(Simple("END"))
    case RET => Some(Simple("RET"))
    case DROP => Some(Simple("DROP"))
    case DUP => Some(Simple("DUP"))
    case SWAP => Some(Simple("SWAP"))
    case ELEM => Some(Simple("ELEM"))
    case LD(d) => Some(Move("LD", ShowPlace(t, d)))
    case LDA(d) => Some(Move("LDA", ShowPlace(t, d)))
    case ST(d) => Some(Move("ST", ShowPlace(t, d)))
    case CJMP(c, l) => Some(CondJmp(c != "z", LabelField(t, l)))
    case BEGIN(_, a, l, c) => Some(Begin(c != [], a, l))
    case CLOSURE(l, ds) => Some(MakeClosure(LabelField(t, l), ShowPlaces(t, ds)))
    case CALLC(n, _) => Some(CallClosure(n))
    case CALL(f, n, _) =>
      if f == "Lread" || f == "Lwrite" || f == "Llength" || f == "Lstring" then Some(CallBuiltin(f))
      else if f == ".array" then Some(MakeArray(n))
      else Some(Call(LabelField(t, f), n))
    case TAG(s, n) => Some(TestTag(s, n))
    case ARRAY(n) => Some(TestArray(n))
    case FAIL(l, c, _) => Some(Fail(l, c))
    case LINE(n) => Some(Line(n))
    case PATT(StrCmp) => Some(Test("=str"))
    case PATT(String) => Some(Test("#string"))
    case PATT(Array) => Some(Test("#array"))
    case PATT(Sexp) => Some(Test("#sexp"))
    case PATT(Boxed) => Some(Test("#ref"))
    case PATT(UnBoxed) => Some(Test("#val"))
    case PATT(Closure) => Some(Test("#fun"))
    case _ => None
  }

  /** Operands fit 32 bits. */
  predicate Small(t: Tables, i: Insn) {
    match i
    case CONST(n) => Fits(n)
    case STRING(s) => Fits(StringField(t, s))
    case SEXP(s, n) => Fits(StringField(t, s)) && Fits(n)
    case JMP(l) => Fits(LabelField(t, l))
    case LD(d) => SmallPlace(t, d)
    case LDA(d) => SmallPlace(t, d)
    case ST(d) => SmallPlace(t, d)
    case CJMP(_, l) => Fits(LabelField(t, l))
    case BEGIN(_, a, l, _) => Fits(a) && Fits(l)
    case CLOSURE(l, ds) => Fits(LabelField(t, l)) && Fits(|ds|) && forall d :: d in ds ==> SmallPlace(t, d)
    case CALLC(n, _) => Fits(n)
    case CALL(f, n, _) => Fits(LabelField(t, f)) && Fits(n)
    case TAG(s, n) => Fits(StringField(t, s)) && Fits(n)
    case ARRAY(n) => Fits(n)
    case FAIL(l, c, _) => Fits(l) && Fits(c)
    case LINE(n) => Fits(n)
    case _ => true
  }

  predicate SmallPlace(t: Tables, d: Designation) {
    match d
    case Global(x) => Fits(if x in t.globals then t.globals[x] else 0)
    case Local(n) => Fits(n)
    case Arg(n) => Fits(n)
    case Access(n) => Fits(n)
    case Fun(_) => true
  }

  /** Every string operand is found at its offset in the table. */
  predicate Readable(t: Tables, table: Bytes, i: Insn) {
    match i
    case STRING(s) => GetString(table, StringField(t, s)) == Some(s)
    case SEXP(s, _) => GetString(table, StringField(t, s)) == Some(s)
    case TAG(s, _) => GetString(table, StringField(t, s)) == Some(s)
    case _ => true
  }

  // One instruction

  lemma PlaceRead(t: Tables, b: int, d: Designation, rest: Bytes)
    requires Placeable(d) && SmallPlace(t, d) && 0 <= b < 16
    ensures var r := Place(t, b, d) + rest;
      r[0] / 16 == b && ReadPlace(r[0] % 16, r[1..]) == Some((ShowPlace(t, d), rest))
  {
    hide Int32, ReadInt;
    var r := Place(t, b, d) + rest;
    match d
    case Global(x) =>
      var n := if x in t.globals then t.globals[x] else 0;
      Int32Read(n, rest);
      assert r[1..] == Int32(n) + rest;
    case Local(n) =>
      Int32Read(n, rest);
      assert r[1..] == Int32(n) + rest;
    case Arg(n) =>
      Int32Read(n, rest);
      assert r[1..] == Int32(n) + rest;
    case Access(n) =>
      Int32Read(n, rest);
      assert r[1..] == Int32(n) + rest;
  }

  lemma {:induction false} PlacesRead(t: Tables, ds: seq<Designation>, rest: Bytes)
    requires forall d :: d in ds ==> Placeable(d) && SmallPlace(t, d)
    ensures ReadPlaces(|ds|, PlacesFront(t, ds) + rest) == Some((ShowPlaces(t, ds), rest))
    decreases |ds|
  {
    hide Place, ReadPlace, ShowPlace;
    if ds == [] {
      assert PlacesFront(t, ds) + rest == rest;
    } else {
      var b := PlacesFront(t, ds) + rest;
      var more := PlacesFront(t, ds[1..]) + rest;
      assert b == Place(t, 0, ds[0]) + more;
      PlaceRead(t, 0, ds[0], more);
      PlacesRead(t, ds[1..], rest);
      assert b[0] % 16 == b[0];
      assert ShowPlaces(t, ds) == [ShowPlace(t, ds[0])] + ShowPlaces(t, ds[1..]);
    }
  }

  /** The same bytes, taken from the front. */
  function PlacesFront(t: Tables, ds: seq<Designation>): Bytes
    requires forall d :: d in ds ==> Placeable(d)
  {
    if ds == [] then [] else Place(t, 0, ds[0]) + PlacesFront(t, ds[1..])
  }

  lemma {:induction false} PlacesSame(t: Tables, ds: seq<Designation>)
    requires forall d :: d in ds ==> Placeable(d)
    ensures PlacesFront(t, ds) == Places(t, ds)
    decreases |ds|
  {
    hide Place;
    if |ds| == 1 {
      assert ds[1..] == [] && ds[..0] == [];
    } else if ds != [] {
      var mid := ds[1..|ds| - 1];
      assert ds[1..][..|ds| - 2] == mid && ds[..|ds| - 1][1..] == mid;
      PlacesSame(t, ds[1..]);
      PlacesSame(t, ds[..|ds| - 1]);
      PlacesSame(t, mid);
      assert Places(t, ds[1..]) == Places(t, mid) + Place(t, 0, ds[|ds| - 1]);
      assert PlacesFront(t, ds[..|ds| - 1]) == Place(t, 0, ds[0]) + PlacesFront(t, mid);
    }
  }

  lemma IntsRead(x: int, y: int, rest: Bytes)
    requires Fits(x) && Fits(y)
    ensures ReadTwo(Int32(x) + Int32(y) + rest) == Some((x, y, rest))
  {
    hide Int32, ReadInt;
    assert Int32(x) + Int32(y) + rest == Int32(x) + (Int32(y) + rest);
    Int32Read(x, Int32(y) + rest);
    Int32Read(y, rest);
  }

  lemma StringRead(table: Bytes, pos: int, s: Bytes, rest: Bytes)
    requires Fits(pos) && GetString(table, pos) == Some(s)
    ensures ReadString(table, Int32(pos) + rest) == Some((s, rest))
  {
    hide Int32, ReadInt, GetString;
    Int32Read(pos, rest);
  }

  lemma StringIntRead(table: Bytes, pos: int, s: Bytes, n: int, rest: Bytes)
    requires Fits(pos) && GetString(table, pos) == Some(s) && Fits(n)
    ensures ReadStringInt(table, Int32(pos) + Int32(n) + rest) == Some((s, n, rest))
  {
    hide Int32, ReadInt, GetString, ReadString;
    assert Int32(pos) + Int32(n) + rest == Int32(pos) + (Int32(n) + rest);
    StringRead(table, pos, s, Int32(n) + rest);
    Int32Read(n, rest);
  }

  /** Instructions of one or two integers after the opcode. */
  lemma OneIntDecoded(t: Tables, table: Bytes, i: Insn, rest: Bytes)
    requires Encodable(i) && Small(t, i)
    requires i.CONST? || i.JMP? || i.CJMP? || i.CALLC? || i.ARRAY? || i.LINE? ||
      (i.CALL? && BuiltinCode(i.f).None? && i.f == ".array")
    ensures Decode(table, Encode(t, i) + rest) == Some((Show(t, i).value, rest))
  {
    hide Int32, ReadInt, ReadTwo, ReadString, ReadStringInt, ReadPlace, ReadPlaces;
    var n := match i
      case CONST(n) => n
      case JMP(l) => LabelField(t, l)
      case CJMP(_, l) => LabelField(t, l)
      case CALLC(n, _) => n
      case ARRAY(n) => n
      case CALL(_, n, _) => n
      case LINE(n) => n;
    var b := Encode(t, i) + rest;
    assert b[1..] == Int32(n) + rest;
    Int32Read(n, rest);
    if i.CJMP? || i.CALLC? || i.ARRAY? || i.LINE? {
      hide Decode;
      FiveDecoded(table, b);
    }
  }

  lemma TwoIntsDecoded(t: Tables, table: Bytes, i: Insn, rest: Bytes)
    requires Encodable(i) && Small(t, i)
    requires i.BEGIN? || i.FAIL? || (i.CALL? && BuiltinCode(i.f).None? && i.f != ".array")
    ensures Decode(table, Encode(t, i) + rest) == Some((Show(t, i).value, rest))
  {
    hide Int32, ReadInt, ReadTwo, ReadString, ReadStringInt, ReadPlace, ReadPlaces;
    var (x, y) := match i
      case BEGIN(_, a, l, _) => (a, l)
      case FAIL(l, c, _) => (l, c)
      case CALL(f, n, _) => (LabelField(t, f), n);
    var b := Encode(t, i) + rest;
    assert b[1..] == Int32(x) + Int32(y) + rest;
    IntsRead(x, y, rest);
  }

  lemma StringDecoded(t: Tables, table: Bytes, i: Insn, rest: Bytes)
    requires Encodable(i) && Small(t, i) && Readable(t, table, i) && (i.STRING? || i.SEXP? || i.TAG?)
    ensures Decode(table, Encode(t, i) + rest) == Some((Show(t, i).value, rest))
  {
    hide Int32, ReadInt, ReadTwo, ReadString, ReadStringInt, ReadPlace, ReadPlaces, GetString;
    var b := Encode(t, i) + rest;
    match i
    case STRING(s) =>
      assert b[1..] == Int32(StringField(t, s)) + rest;
      StringRead(table, StringField(t, s), s, rest);
    case SEXP(s, n) =>
      assert b[1..] == Int32(StringField(t, s)) + Int32(n) + rest;
      StringIntRead(table, StringField(t, s), s, n, rest);
    case TAG(s, n) =>
      assert b[1..] == Int32(StringField(t, s)) + Int32(n) + rest;
      StringIntRead(table, StringField(t, s), s, n, rest);
  }

  lemma ClosureDecoded(t: Tables, table: Bytes, i: Insn, rest: Bytes)
    requires Encodable(i) && Small(t, i) && i.CLOSURE?
    ensures Decode(table, Encode(t, i) + rest) == Some((Show(t, i).value, rest))
  {
    hide Int32, ReadInt, ReadTwo, ReadString, ReadStringInt, ReadPlace, ReadPlaces, Places, ShowPlaces, Decode,
      DecodeFive;
    var b := Encode(t, i) + rest;
    var f, n := LabelField(t, i.f), |i.ds|;
    assert b[1..] == Int32(f) + Int32(n) + (Places(t, i.ds) + rest);
    FiveDecoded(table, b);
    ClosureRead(t, table, f, i.ds, rest);
  }

  /** The fields of a closure. */
  lemma ClosureRead(t: Tables, table: Bytes, f: int, ds: seq<Designation>, rest: Bytes)
    requires Fits(f) && Fits(|ds|) && forall d :: d in ds ==> Placeable(d) && SmallPlace(t, d)
    ensures DecodeFive(table, 4, Int32(f) + Int32(|ds|) + (Places(t, ds) + rest))
      == Some((MakeClosure(f, ShowPlaces(t, ds)), rest))
  {
    hide Int32, ReadInt, ReadTwo, ReadString, ReadStringInt, ReadPlace, ReadPlaces, Places, ShowPlaces;
    PlacesSame(t, ds);
    IntsRead(f, |ds|, Places(t, ds) + rest);
    PlacesRead(t, ds, rest);
  }

  lemma FiveDecoded(table: Bytes, b: Bytes)
    requires b != [] && b[0] / 16 == 5
    ensures Decode(table, b) == DecodeFive(table, b[0] % 16, b[1..])
  {
    hide ReadInt, ReadTwo, ReadString, ReadStringInt, ReadPlace, ReadPlaces, DecodeFive;
  }

  lemma MoveDecoded(t: Tables, table: Bytes, i: Insn, rest: Bytes)
    requires Encodable(i) && Small(t, i) && (i.LD? || i.LDA? || i.ST?)
    ensures Decode(table, Encode(t, i) + rest) == Some((Show(t, i).value, rest))
  {
    hide ReadPlace, Place, ShowPlace;
    PlaceRead(t, if i.LD? then 2 else if i.LDA? then 3 else 4, i.d, rest);
  }

  lemma PlainDecoded(t: Tables, table: Bytes, i: Insn, rest: Bytes)
    requires Encodable(i) && Show(t, i).Some? && |Encode(t, i)| == 1
    requires i.BINOP? || i.STI? || i.STA? || i.END? || i.RET? || i.DROP? || i.DUP? || i.SWAP? || i.ELEM? || i.PATT? ||
      i.CALL?
    ensures Decode(table, Encode(t, i) + rest) == Some((Show(t, i).value, rest))
  {
    hide Int32, ReadInt;
    var b := Encode(t, i) + rest;
    assert b[1..] == rest;
    if i.BINOP? {
      assert b[0] / 16 == 0 && b[0] % 16 == OpNum(i.op, 0);
    }
  }

  /** Decoding undoes encoding, one instruction at a time, whatever follows. */
  lemma InsnDecoded(t: Tables, table: Bytes, i: Insn, rest: Bytes)
    requires Encodable(i) && Small(t, i) && Readable(t, table, i) && Show(t, i).Some?
    ensures Decode(table, Encode(t, i) + rest) == Some((Show(t, i).value, rest))
  {
    hide Decode, Encode, Small, Readable, Int32, BuiltinCode;
    match i
    case CONST(_) => OneIntDecoded(t, table, i, rest);
    case JMP(_) => OneIntDecoded(t, table, i, rest);
    case CJMP(_, _) => OneIntDecoded(t, table, i, rest);
    case CALLC(_, _) => OneIntDecoded(t, table, i, rest);
    case ARRAY(_) => OneIntDecoded(t, table, i, rest);
    case LINE(_) => OneIntDecoded(t, table, i, rest);
    case BEGIN(_, _, _, _) => TwoIntsDecoded(t, table, i, rest);
    case FAIL(_, _, _) => TwoIntsDecoded(t, table, i, rest);
    case CALL(f, _, _) =>
      if BuiltinCode(f).Some? {
        BuiltinOneByte(t, i);
        PlainDecoded(t, table, i, rest);
      } else if f == ".array" {
        OneIntDecoded(t, table, i, rest);
      } else {
        TwoIntsDecoded(t, table, i, rest);
      }
    case STRING(_) => StringDecoded(t, table, i, rest);
    case SEXP(_, _) => StringDecoded(t, table, i, rest);
    case TAG(_, _) => StringDecoded(t, table, i, rest);
    case CLOSURE(_, _) => ClosureDecoded(t, table, i, rest);
    case LD(_) => MoveDecoded(t, table, i, rest);
    case LDA(_) => MoveDecoded(t, table, i, rest);
    case ST(_) => MoveDecoded(t, table, i, rest);
    case _ =>
      OneByte(t, i);
      PlainDecoded(t, table, i, rest);
  }

  lemma BuiltinOneByte(t: Tables, i: Insn)
    requires i.CALL? && BuiltinCode(i.f).Some?
    ensures |Encode(t, i)| == 1
  {
  }

  lemma OneByte(t: Tables, i: Insn)
    requires Encodable(i)
    requires i.BINOP? || i.STI? || i.STA? || i.END? || i.RET? || i.DROP? || i.DUP? || i.SWAP? || i.ELEM? || i.PATT?
    ensures |Encode(t, i)| == 1
  {
  }
}
