/** The bytecode compiler: one pass over the instructions with a string table, an index of
    globals and label fixups; the file it writes; and the disassembler's run over it. */
module BytecodeFile {
  import opened Wrappers
  import opened Bytecode

  // Sizes and offsets

  function Size(i: Insn): nat {
    match i
    case LABEL(_) => 0
    case FLABEL(_) => 0
    case SLABEL(_) => 0
    case EXTERN(_) => 0
    case PUBLIC(_) => 0
    case IMPORT(_) => 0
    case CONST(_) => 5
    case STRING(_) => 5
    case SEXP(_, _) => 9
    case JMP(_) => 5
    case LD(_) => 5
    case LDA(_) => 5
    case ST(_) => 5
    case CJMP(_, _) => 5
    case BEGIN(_, _, _, _) => 9
    case CLOSURE(_, ds) => 9 + 5 * |ds|
    case CALLC(_, _) => 5
    case CALL(f, _, _) => if BuiltinCode(f).Some? then 1 else if f == ".array" then 5 else 9
    case TAG(_, _) => 9
    case ARRAY(_) => 5
    case FAIL(_, _, _) => 9
    case LINE(_) => 5
    case _ => 1
  }

  lemma {:induction false} PlacesSize(t: Tables, ds: seq<Designation>)
    requires forall d :: d in ds ==> Placeable(d)
    ensures |Places(t, ds)| == 5 * |ds|
    decreases |ds|
  {
    hide Place;
    if ds != [] {
      PlacesSize(t, ds[..|ds| - 1]);
    }
  }

  lemma EncodeSize(t: Tables, i: Insn)
    requires Encodable(i)
    ensures |Encode(t, i)| == Size(i)
  {
    hide Int32, Place, Places;
    if i.CLOSURE? {
      PlacesSize(t, i.ds);
    }
  }

  /** Where the code after `p` starts. */
  function Offset(p: seq<Insn>): nat {
    if p == [] then 0 else Offset(p[..|p| - 1]) + Size(p[|p| - 1])
  }

  lemma {:induction false} EncodeAllSize(t: Tables, p: seq<Insn>)
    requires AllEncodable(p)
    ensures |EncodeAll(t, p)| == Offset(p)
    decreases |p|
  {
    hide Encode, Size;
    if p != [] {
      EncodeAllSize(t, p[..|p| - 1]);
      EncodeSize(t, p[|p| - 1]);
    }
  }

  function Defines(i: Insn): Option<Label> {
    match i
    case LABEL(l) => Some(l)
    case FLABEL(l) => Some(l)
    case SLABEL(l) => Some(l)
    case _ => None
  }

  /** The label an instruction refers to; its field follows the opcode. */
  function Target(i: Insn): Option<Label> {
    match i
    case JMP(l) => Some(l)
    case CJMP(_, l) => Some(l)
    case CLOSURE(l, _) => Some(l)
    case CALL(f, _, _) => if BuiltinCode(f).None? && f != ".array" then Some(f) else None
    case _ => None
  }

  /** Offsets of labels as `compile` keeps them while it runs. */
  function AddLabel(labels: map<Label, nat>, i: Insn, at: nat): map<Label, nat> {
    match Defines(i) case Some(l) => labels[l := at] case None => labels
  }

  function AddFixup(fixups: seq<(nat, Label)>, i: Insn, at: nat): seq<(nat, Label)> {
    match Target(i) case Some(l) => [(at + 1, l)] + fixups case None => fixups
  }

  /** Every label is the offset of the instruction after it. */
  function LabelsOf(p: seq<Insn>): map<Label, nat> {
    if p == [] then map[]
    else AddLabel(LabelsOf(p[..|p| - 1]), p[|p| - 1], Offset(p[..|p| - 1]))
  }

  ghost predicate UniquelyLabelled(p: seq<Insn>) {
    forall i, j :: 0 <= i < j < |p| && Defines(p[i]).Some? ==> Defines(p[i]) != Defines(p[j])
  }

  predicate IsLabel(i: Insn, l: Label) {
    i == LABEL(l) || i == FLABEL(l) || i == SLABEL(l)
  }

  lemma {:induction false} LabelAt(p: seq<Insn>, k: nat, l: Label)
    requires UniquelyLabelled(p) && k < |p| && IsLabel(p[k], l)
    ensures l in LabelsOf(p) && LabelsOf(p)[l] == Offset(p[..k])
    decreases |p|
  {
    hide Offset;
    var init := p[..|p| - 1];
    if k < |init| {
      assert init[k] == p[k] && init[..k] == p[..k];
      assert UniquelyLabelled(init);
      LabelAt(init, k, l);
      assert Defines(p[k]) != Defines(p[|p| - 1]);
    } else {
      assert p[..k] == init;
    }
  }

  /** Nothing but these instructions makes a label. */
  lemma {:induction false} LabelsOnly(p: seq<Insn>, l: Label)
    ensures l in LabelsOf(p) <==> LABEL(l) in p || FLABEL(l) in p || SLABEL(l) in p
    decreases |p|
  {
    hide Offset;
    if p != [] {
      var init, last := p[..|p| - 1], p[|p| - 1];
      LabelsOnly(init, l);
      assert p == init + [last];
    }
  }

  // Fixups

  /** Label fields, newest first. */
  function FixupsOf(p: seq<Insn>): seq<(nat, Label)> {
    if p == [] then []
    else AddFixup(FixupsOf(p[..|p| - 1]), p[|p| - 1], Offset(p[..|p| - 1]))
  }

  function SetInt(code: Bytes, ofs: nat, n: int): (r: Bytes)
    requires ofs + 4 <= |code|
    ensures |r| == |code|
  {
    code[..ofs] + Int32(n) + code[ofs + 4..]
  }

  function Patch(code: Bytes, fixups: seq<(nat, Label)>, labels: map<Label, nat>): Option<Bytes>
    decreases |fixups|
  {
    if fixups == [] then Some(code)
    else
      var (ofs, l) := fixups[0];
      if ofs + 4 <= |code| && l in labels then Patch(SetInt(code, ofs, labels[l]), fixups[1..], labels) else None
  }

  lemma SetIntInside(a: Bytes, b: Bytes, c: Bytes, ofs: nat, n: int)
    requires ofs + 4 <= |b|
    ensures SetInt(a + b + c, |a| + ofs, n) == a + SetInt(b, ofs, n) + c
  {
    hide Int32;
    var x := a + b + c;
    assert x[..|a| + ofs] == a + b[..ofs];
    assert x[|a| + ofs + 4..] == b[ofs + 4..] + c;
  }

  lemma PatchOne(t: Tables, i: Insn, labels: map<Label, nat>)
    requires Encodable(i) && Target(i).Some? && Target(i).value in labels && t.labels == map[]
    ensures |Encode(t, i)| >= 5
    ensures SetInt(Encode(t, i), 1, labels[Target(i).value]) == Encode(t.(labels := labels), i)
  {
    hide Int32, Places;
    var n := labels[Target(i).value];
    var b := Encode(t, i);
    if i.CLOSURE? {
      PlacesUnlabelled(t, i.ds, labels);
      var rest := Int32(|i.ds|) + Places(t, i.ds);
      assert b == [0x54] + Int32(0) + rest;
      assert b[..1] == [0x54] && b[5..] == rest;
      assert [0x54] + Int32(n) + rest == [0x54] + Int32(n) + Int32(|i.ds|) + Places(t, i.ds);
    } else if i.CALL? {
      assert b[..1] == [0x56] && b[5..] == Int32(i.n);
    } else {
      assert b[..1] == [b[0]] && b[5..] == [];
      assert [b[0]] + Int32(n) + [] == [b[0]] + Int32(n);
    }
  }

  lemma {:induction false} PlacesUnlabelled(t: Tables, ds: seq<Designation>, labels: map<Label, nat>)
    requires forall d :: d in ds ==> Placeable(d)
    ensures Places(t.(labels := labels), ds) == Places(t, ds)
    decreases |ds|
  {
    if ds != [] {
      PlacesUnlabelled(t, ds[..|ds| - 1], labels);
    }
  }

  lemma NoTargetSame(t: Tables, i: Insn, labels: map<Label, nat>)
    requires Encodable(i) && Target(i).None?
    ensures Encode(t.(labels := labels), i) == Encode(t, i)
  {
    hide Int32, Places;
  }

  predicate TargetsDefined(p: seq<Insn>, labels: map<Label, nat>) {
    forall i :: i in p && Target(i).Some? ==> Target(i).value in labels
  }

  /** Patching every field yields the code as if all labels had been known; it fails exactly
      when a label is undefined. */
  lemma {:induction false} PatchAll(t: Tables, p: seq<Insn>, tail: Bytes, labels: map<Label, nat>)
    requires AllEncodable(p) && t.labels == map[]
    ensures Patch(EncodeAll(t, p) + tail, FixupsOf(p), labels) ==
      if TargetsDefined(p, labels) then Some(EncodeAll(t.(labels := labels), p) + tail) else None
    decreases |p|
  {
    hide Encode, Size, Int32, SetInt;
    if p != [] {
      var init, last := p[..|p| - 1], p[|p| - 1];
      assert p == init + [last];
      var t' := t.(labels := labels);
      var a, b := EncodeAll(t, init), Encode(t, last);
      EncodeAllSize(t, init);
      PatchAll(t, init, b + tail, labels);
      PatchAll(t, init, Encode(t', last) + tail, labels);
      assert a + b + tail == a + (b + tail);
      match Target(last)
      case None =>
        NoTargetSame(t, last, labels);
        assert EncodeAll(t', init) + b + tail == EncodeAll(t', init) + (b + tail);
      case Some(l) =>
        EncodeSize(t, last);
        SizeOfTarget(last);
        var fixups := FixupsOf(p);
        assert fixups[0] == (|a| + 1, l) && fixups[1..] == FixupsOf(init);
        if l in labels {
          PatchOne(t, last, labels);
          SetIntInside(a, b, tail, 1, labels[l]);
          assert a + Encode(t', last) + tail == a + (Encode(t', last) + tail);
          assert EncodeAll(t', init) + Encode(t', last) + tail == EncodeAll(t', init) + (Encode(t', last) + tail);
        }
    }
  }

  lemma SizeOfTarget(i: Insn)
    requires Target(i).Some?
    ensures Size(i) >= 5
  {
  }

  // Tables only grow

  predicate Covers(t: Tables, i: Insn) {
    match i
    case STRING(s) => s in t.strings
    case SEXP(s, _) => s in t.strings
    case TAG(s, _) => s in t.strings
    case LD(d) => CoversPlace(t, d)
    case LDA(d) => CoversPlace(t, d)
    case ST(d) => CoversPlace(t, d)
    case CLOSURE(_, ds) => forall d :: d in ds ==> CoversPlace(t, d)
    case _ => true
  }

  predicate CoversPlace(t: Tables, d: Designation) {
    d.Global? ==> d.name in t.globals
  }

  ghost predicate Extends(t: Tables, u: Tables) {
    && t.labels == u.labels
    && (forall s :: s in t.strings ==> s in u.strings && u.strings[s] == t.strings[s])
    && (forall x :: x in t.globals ==> x in u.globals && u.globals[x] == t.globals[x])
  }

  lemma {:induction false} PlacesStable(t: Tables, u: Tables, ds: seq<Designation>)
    requires Extends(t, u) && forall d :: d in ds ==> Placeable(d) && CoversPlace(t, d)
    ensures Places(u, ds) == Places(t, ds)
    decreases |ds|
  {
    hide Int32;
    if ds != [] {
      PlacesStable(t, u, ds[..|ds| - 1]);
      assert ds[|ds| - 1] in ds;
    }
  }

  lemma EncodeStable(t: Tables, u: Tables, i: Insn)
    requires Extends(t, u) && Covers(t, i) && Encodable(i)
    ensures Encode(u, i) == Encode(t, i) && Covers(u, i)
  {
    hide Int32, Places;
    if i.CLOSURE? {
      PlacesStable(t, u, i.ds);
    }
  }

  lemma {:induction false} EncodeAllStable(t: Tables, u: Tables, p: seq<Insn>)
    requires Extends(t, u) && AllEncodable(p) && forall i :: i in p ==> Covers(t, i)
    ensures EncodeAll(u, p) == EncodeAll(t, p) && forall i :: i in p ==> Covers(u, i)
    decreases |p|
  {
    hide Encode, Extends, Covers;
    if p != [] {
      EncodeAllStable(t, u, p[..|p| - 1]);
      assert p[|p| - 1] in p;
      EncodeStable(t, u, p[|p| - 1]);
      assert p == p[..|p| - 1] + [p[|p| - 1]];
    }
  }

  // The string table and the globals

  /** Every string is where the table says, with a zero after it. */
  ghost predicate StringsHeld(smap: map<Bytes, nat>, buffer: Bytes) {
    forall s :: s in smap ==> StringAt(buffer, smap[s], s)
  }

  predicate StringAt(buffer: Bytes, pos: nat, s: Bytes) {
    pos + |s| < |buffer| && buffer[pos..pos + |s|] == s && buffer[pos + |s|] == 0
  }

  lemma StringStays(buffer: Bytes, more: Bytes, pos: nat, s: Bytes)
    requires StringAt(buffer, pos, s)
    ensures StringAt(buffer + more, pos, s)
  {
    assert (buffer + more)[pos..pos + |s|] == buffer[pos..pos + |s|];
  }

  lemma StringAdded(buffer: Bytes, s: Bytes)
    ensures StringAt(buffer + s + [0], |buffer|, s)
  {
    assert (buffer + s + [0])[|buffer|..|buffer| + |s|] == s;
  }

  lemma StringsAdded(smap: map<Bytes, nat>, buffer: Bytes, s: Bytes)
    requires StringsHeld(smap, buffer)
    ensures StringsHeld(smap[s := |buffer|], buffer + s + [0])
  {
    hide StringAt;
    StringAdded(buffer, s);
    forall x | x in smap && x != s ensures StringAt(buffer + s + [0], smap[x], x) {
      StringStays(buffer, s + [0], smap[x], x);
      assert buffer + (s + [0]) == buffer + s + [0];
    }
  }

  predicate NoZero(s: Bytes) {
    forall i :: 0 <= i < |s| ==> s[i] != 0
  }

  /** A string without zeros reads back. */
  lemma {:induction false} ReadsBack(buffer: Bytes, pos: nat, s: Bytes)
    requires StringAt(buffer, pos, s) && NoZero(s)
    ensures GetString(buffer, pos) == Some(s)
    decreases |s|
  {
    if s != [] {
      assert buffer[pos] == buffer[pos..pos + |s|][0];
      assert buffer[pos + 1..pos + |s|] == buffer[pos..pos + |s|][1..];
      ReadsBack(buffer, pos + 1, s[1..]);
      assert [s[0]] + s[1..] == s;
    }
  }

  /** Globals have indices of their own, below the count, which is theirs. */
  ghost predicate GlobalsCounted(globals: map<string, nat>, count: nat) {
    && |globals| == count
    && (forall x :: x in globals ==> globals[x] < count)
    && (forall x, y :: x in globals && y in globals && globals[x] == globals[y] ==> x == y)
  }

  function Ascii(l: Label): (b: Bytes)
    ensures |b| == |l| && forall i :: 0 <= i < |l| && l[i] as int < 256 ==> b[i] == l[i] as int
  {
    seq(|l|, i requires 0 <= i < |l| => (l[i] as int) % 256)
  }

  function PubsOf(p: seq<Insn>): set<Label> {
    if p == [] then {} else PubsOf(p[..|p| - 1]) + if p[|p| - 1].PUBLIC? then {p[|p| - 1].name} else {}
  }

  lemma {:induction false} PublicsOf(p: seq<Insn>, l: Label)
    ensures l in PubsOf(p) <==> PUBLIC(l) in p
    decreases |p|
  {
    if p != [] {
      PublicsOf(p[..|p| - 1], l);
      assert p == p[..|p| - 1] + [p[|p| - 1]];
    }
  }

  /** An entry of the table of publics: the offset of the name and that of the symbol. */
  predicate Published(buffer: Bytes, labels: map<Label, nat>, l: Label, e: (int, int)) {
    e.0 >= 0 && StringAt(buffer, e.0, Ascii(l)) && l in labels && e.1 == labels[l]
  }

  datatype File = File(strings: Bytes, globals: nat, publics: seq<(int, int)>, code: Bytes)

  class Encoder {
    var code: Bytes
    var strings: Bytes
    var smap: map<Bytes, nat>
    var globals: map<string, nat>
    var globCount: nat
    var labels: map<Label, nat>
    var pubs: set<Label>
    var fixups: seq<(nat, Label)>

    ghost predicate Valid()
      reads this
    {
      StringsHeld(smap, strings) && GlobalsCounted(globals, globCount)
    }

    /** What has been interned so far; labels are left for the fixups. */
    ghost function Tabs(): Tables
      reads this
    {
      Tables(smap, globals, map[])
    }

    constructor ()
      ensures Valid() && code == [] && smap == map[] && globals == map[] && labels == map[] && pubs == {} &&
        fixups == []
    {
      code, strings, smap, globals, globCount, labels, pubs, fixups := [], [], map[], map[], 0, map[], {}, [];
    }

    /** `StringTab.add`. */
    method AddString(s: Bytes) returns (i: nat)
      requires Valid()
      modifies this`strings, this`smap
      ensures Valid() && Extends(old(Tabs()), Tabs()) && s in smap && i == smap[s] && old(strings) <= strings
    {
      if s in smap {
        i := smap[s];
      } else {
        i := |strings|;
        StringsAdded(smap, strings, s);
        strings := strings + s + [0];
        smap := smap[s := i];
      }
    }

    method AddGlobal(x: string) returns (i: nat)
      requires Valid()
      modifies this`globals, this`globCount
      ensures Valid() && Extends(old(Tabs()), Tabs()) && x in globals && i == globals[x]
    {
      if x in globals {
        i := globals[x];
      } else {
        i := globCount;
        globCount := globCount + 1;
        globals := globals[x := i];
      }
    }

    /** `add_designations`, for one designation. */
    method AddDesignation(b: int, d: Designation) returns (ok: bool)
      requires Valid() && 0 <= b < 16
      modifies this`code, this`globals, this`globCount
      ensures Valid() && Extends(old(Tabs()), Tabs()) && (ok <==> Placeable(d))
      ensures ok ==> CoversPlace(Tabs(), d) && code == old(code) + Place(Tabs(), b, d)
    {
      hide Int32;
      ok := true;
      match d
      case Global(x) =>
        var i := AddGlobal(x);
        code := code + ([16 * b] + Int32(i));
      case Local(n) => code := code + ([16 * b + 1] + Int32(n));
      case Arg(n) => code := code + ([16 * b + 2] + Int32(n));
      case Access(n) => code := code + ([16 * b + 3] + Int32(n));
      case Fun(_) => ok := false;
    }

    method AddDesignations(ds: seq<Designation>) returns (ok: bool)
      requires Valid()
      modifies this`code, this`globals, this`globCount
      ensures Valid() && Extends(old(Tabs()), Tabs()) && (ok <==> forall d :: d in ds ==> Placeable(d))
      ensures ok ==> (forall d :: d in ds ==> CoversPlace(Tabs(), d)) && code == old(code) + Places(Tabs(), ds)
    {
      hide Place, Places, GlobalsCounted, StringsHeld;
      ghost var t0 := Tabs();
      assert Places(t0, []) == [] by { NoPlaces(t0); }
      for k := 0 to |ds|
        invariant Valid() && Extends(t0, Tabs())
        invariant forall d :: d in ds[..k] ==> Placeable(d) && CoversPlace(Tabs(), d)
        invariant code == old(code) + Places(Tabs(), ds[..k])
      {
        ghost var t1 := Tabs();
        ok := AddDesignation(0, ds[k]);
        if !ok {
          assert ds[k] in ds;
          return;
        }
        PlacesStable(t1, Tabs(), ds[..k]);
        PlacesSnoc(Tabs(), ds[..k], ds[k]);
        assert ds[..k + 1] == ds[..k] + [ds[k]];
        assert old(code) + Places(t1, ds[..k]) + Place(Tabs(), 0, ds[k])
          == old(code) + (Places(t1, ds[..k]) + Place(Tabs(), 0, ds[k]));
      }
      assert ds[..|ds|] == ds;
      ok := true;
    }

    method StringInsn(i: Insn)
      requires Valid() && (i.STRING? || i.SEXP? || i.TAG?)
      modifies this`code, this`strings, this`smap
      ensures Valid() && Extends(old(Tabs()), Tabs()) && Covers(Tabs(), i) && code == old(code) + Encode(Tabs(), i)
    {
      hide Int32, StringsHeld, GlobalsCounted, Extends;
      match i
      case STRING(s) =>
        var k := AddString(s);
        code := code + ([0x11] + Int32(k));
      case SEXP(s, n) =>
        var k := AddString(s);
        code := code + ([0x12] + Int32(k) + Int32(n));
      case TAG(s, n) =>
        var k := AddString(s);
        code := code + ([0x57] + Int32(k) + Int32(n));
    }

    method ClosureInsn(l: Label, ds: seq<Designation>) returns (ok: bool)
      requires Valid()
      modifies this`code, this`globals, this`globCount
      ensures Valid() && Extends(old(Tabs()), Tabs()) && (ok <==> Encodable(CLOSURE(l, ds)))
      ensures ok ==> Covers(Tabs(), CLOSURE(l, ds)) && code == old(code) + Encode(Tabs(), CLOSURE(l, ds))
    {
      hide Int32, Places, StringsHeld, GlobalsCounted, Extends;
      ghost var before := code;
      var head := [0x54] + Int32(0) + Int32(|ds|);
      code := code + head;
      ok := AddDesignations(ds);
      if ok {
        assert before + head + Places(Tabs(), ds) == before + (head + Places(Tabs(), ds));
      }
    }

    /** `insn_code`. */
    method InsnCode(i: Insn) returns (ok: bool)
      requires Valid()
      modifies this
      ensures Valid() && Extends(old(Tabs()), Tabs()) && (ok <==> Encodable(i))
      ensures ok ==> Covers(Tabs(), i) && code == old(code) + Encode(Tabs(), i)
      ensures ok ==> labels == AddLabel(old(labels), i, |old(code)|) && fixups == AddFixup(old(fixups), i, |old(code)|)
      ensures ok ==> pubs == old(pubs) + if i.PUBLIC? then {i.name} else {}
    {
      hide Int32, Place, Places, BuiltinCode, OpNum, AddLabel, AddFixup, StringsHeld, GlobalsCounted, Extends, Covers,
        Direct, Encode, Encodable;
      assert Extends(Tabs(), Tabs()) by { ExtendsRefl(Tabs()); }
      labels, fixups := AddLabel(labels, i, |code|), AddFixup(fixups, i, |code|);
      ok := true;
      if i.STRING? || i.SEXP? || i.TAG? {
        StringEncodable(i);
        StringInsn(i);
      } else if i.CLOSURE? {
        ok := ClosureInsn(i.f, i.ds);
      } else if i.LD? || i.LDA? || i.ST? {
        var b := if i.LD? then 2 else if i.LDA? then 3 else 4;
        MoveEncoded(Tabs(), i, b);
        ok := AddDesignation(b, i.d);
        MoveEncoded(Tabs(), i, b);
      } else {
        ok := Direct(i);
        if ok {
          DirectEncoded(Tabs(), i);
          code := code + DirectCode(i);
          if i.PUBLIC? {
            pubs := pubs + {i.name};
          }
        } else {
          NotDirect(i);
        }
      }
    }

    /** The pass over the instructions; `None` is the failure on one that has no encoding. */
    method Pass(p: seq<Insn>) returns (ok: bool)
      requires Valid() && code == [] && labels == map[] && fixups == [] && pubs == {} && smap == map[] &&
        globals == map[]
      modifies this
      ensures Valid() && (ok <==> AllEncodable(p))
      ensures ok ==> code == EncodeAll(Tabs(), p) && (forall i :: i in p ==> Covers(Tabs(), i))
      ensures ok ==> labels == LabelsOf(p) && fixups == FixupsOf(p) && pubs == PubsOf(p)
    {
      hide Encode, StringsHeld, GlobalsCounted, Extends, Covers, Encodable, Size, AddLabel, AddFixup;
      for k := 0 to |p|
        invariant Valid() && AllEncodable(p[..k])
        invariant code == EncodeAll(Tabs(), p[..k]) && forall i :: i in p[..k] ==> Covers(Tabs(), i)
        invariant labels == LabelsOf(p[..k]) && fixups == FixupsOf(p[..k]) && pubs == PubsOf(p[..k])
      {
        ghost var t := Tabs();
        EncodeAllSize(t, p[..k]);
        ok := InsnCode(p[k]);
        assert p[..k + 1] == p[..k] + [p[k]];
        if !ok {
          assert p[k] in p;
          return;
        }
        EncodeAllStable(t, Tabs(), p[..k]);
        OneMore(Tabs(), p[..k], p[k]);
      }
      assert p[..|p|] == p;
      ok := true;
    }

    /** The public symbols with their offsets, in some order `ls`; their names go to the
        string table. `None` is the failure on a symbol that is not defined. */
    method Publics() returns (r: Option<seq<(int, int)>>, ghost ls: seq<Label>)
      requires Valid()
      modifies this`strings, this`smap
      ensures Valid() && Extends(old(Tabs()), Tabs())
      ensures r.Some? <==> pubs <= labels.Keys
      ensures r.Some? ==> |ls| == |r.value| && (forall l :: l in ls <==> l in pubs)
      ensures r.Some? ==> forall k :: 0 <= k < |ls| ==> Published(strings, labels, ls[k], r.value[k])
    {
      hide StringsHeld, GlobalsCounted, Published, Extends;
      var left, out := pubs, [];
      ls := [];
      ghost var t0 := Tabs();
      ExtendsRefl(t0);
      while left != {}
        invariant left <= pubs && pubs - left <= labels.Keys && Valid() && Extends(t0, Tabs())
        invariant |ls| == |out| && (forall l :: l in ls <==> l in pubs - left)
        invariant forall k :: 0 <= k < |ls| ==> Published(strings, labels, ls[k], out[k])
        decreases left
      {
        var l :| l in left;
        if l !in labels {
          return None, ls;
        }
        ghost var t1, before := Tabs(), strings;
        var n := AddString(Ascii(l));
        ExtendsTrans(t0, t1, Tabs());
        forall k | 0 <= k < |ls| ensures Published(strings, labels, ls[k], out[k]) {
          PublishedStays(before, strings, labels, ls[k], out[k]);
        }
        NewlyPublished(smap, strings, labels, l);
        out, ls, left := out + [(n, labels[l])], ls + [l], left - {l};
      }
      r := Some(out);
    }
  }

  lemma ExtendsTrans(t: Tables, u: Tables, v: Tables)
    requires Extends(t, u) && Extends(u, v)
    ensures Extends(t, v)
  {
  }

  lemma PublishedStays(buffer: Bytes, buffer': Bytes, labels: map<Label, nat>, l: Label, e: (int, int))
    requires buffer <= buffer' && Published(buffer, labels, l, e)
    ensures Published(buffer', labels, l, e)
  {
    hide Ascii;
    StringStays(buffer, buffer'[|buffer|..], e.0, Ascii(l));
    assert buffer + buffer'[|buffer|..] == buffer';
  }

  lemma NewlyPublished(smap: map<Bytes, nat>, buffer: Bytes, labels: map<Label, nat>, l: Label)
    requires StringsHeld(smap, buffer) && Ascii(l) in smap && l in labels
    ensures Published(buffer, labels, l, (smap[Ascii(l)], labels[l]))
  {
  }

  lemma OneMore(t: Tables, q: seq<Insn>, i: Insn)
    requires AllEncodable(q) && Encodable(i)
    ensures AllEncodable(q + [i])
    ensures EncodeAll(t, q + [i]) == EncodeAll(t, q) + Encode(t, i)
    ensures LabelsOf(q + [i]) == AddLabel(LabelsOf(q), i, Offset(q))
    ensures FixupsOf(q + [i]) == AddFixup(FixupsOf(q), i, Offset(q))
    ensures PubsOf(q + [i]) == PubsOf(q) + if i.PUBLIC? then {i.name} else {}
  {
    hide Encode, Encodable, Defines, Target, Size, Offset, EncodeAll, LabelsOf, FixupsOf, PubsOf;
    OneMoreCode(t, q, i);
    OneMoreLabel(q, i);
    OneMorePublic(q, i);
  }

  lemma OneMoreCode(t: Tables, q: seq<Insn>, i: Insn)
    requires AllEncodable(q) && Encodable(i)
    ensures AllEncodable(q + [i]) && EncodeAll(t, q + [i]) == EncodeAll(t, q) + Encode(t, i)
  {
    hide Encode, Encodable;
    assert (q + [i])[..|q|] == q;
  }

  lemma OneMoreLabel(q: seq<Insn>, i: Insn)
    ensures LabelsOf(q + [i]) == AddLabel(LabelsOf(q), i, Offset(q))
    ensures FixupsOf(q + [i]) == AddFixup(FixupsOf(q), i, Offset(q))
  {
    hide Offset, AddLabel, AddFixup;
    var p := q + [i];
    assert p[..|p| - 1] == q && p[|p| - 1] == i;
  }

  lemma OneMorePublic(q: seq<Insn>, i: Insn)
    ensures PubsOf(q + [i]) == PubsOf(q) + if i.PUBLIC? then {i.name} else {}
  {
    assert (q + [i])[..|q|] == q;
  }

  lemma ExtendsRefl(t: Tables)
    ensures Extends(t, t)
  {
  }

  lemma StringEncodable(i: Insn)
    requires i.STRING? || i.SEXP? || i.TAG?
    ensures Encodable(i)
  {
  }

  lemma MoveEncoded(t: Tables, i: Insn, b: int)
    requires (i.LD? && b == 2) || (i.LDA? && b == 3) || (i.ST? && b == 4)
    ensures Encodable(i) <==> Placeable(i.d)
    ensures Covers(t, i) <==> CoversPlace(t, i.d)
    ensures Encodable(i) ==> Encode(t, i) == Place(t, b, i.d)
  {
    hide Place;
  }

  lemma NoPlaces(t: Tables)
    ensures Places(t, []) == []
  {
  }

  lemma PlacesSnoc(t: Tables, ds: seq<Designation>, d: Designation)
    requires forall e :: e in ds + [d] ==> Placeable(e)
    ensures Places(t, ds + [d]) == Places(t, ds) + Place(t, 0, d)
  {
    hide Place;
    assert (ds + [d])[..|ds|] == ds;
  }

  /** Instructions that refer to no table, apart from labels. */
  predicate Direct(i: Insn) {
    Encodable(i) && !i.STRING? && !i.SEXP? && !i.TAG? && !i.LD? && !i.LDA? && !i.ST? && !i.CLOSURE?
  }

  /** Their bytes, with label fields still to be fixed. */
  function DirectCode(i: Insn): Bytes
    requires Direct(i)
  {
    Encode(Tables(map[], map[], map[]), i)
  }

  lemma DirectEncoded(t: Tables, i: Insn)
    requires Direct(i) && t.labels == map[]
    ensures Encodable(i) && Encode(t, i) == DirectCode(i) && Covers(t, i)
  {
    hide Int32, BuiltinCode, OpNum;
  }

  lemma NotDirect(i: Insn)
    requires !Direct(i) && !i.STRING? && !i.SEXP? && !i.TAG? && !i.LD? && !i.LDA? && !i.ST? && !i.CLOSURE?
    ensures !Encodable(i)
  {
  }

  // The whole compiler

  /** What a successful compilation has made of `p`, with the tables it used. */
  ghost predicate Compiled(p: seq<Insn>, t: Tables, f: File, ls: seq<Label>) {
    && AllEncodable(p) && t.labels == LabelsOf(p) && TargetsDefined(p, t.labels)
    && f.code == EncodeAll(t, p) + [255]
    && (forall i :: i in p ==> Covers(t, i))
    && StringsHeld(t.strings, f.strings) && GlobalsCounted(t.globals, f.globals)
    && |ls| == |f.publics| && (forall l :: l in ls <==> l in PubsOf(p))
    && (forall k :: 0 <= k < |ls| ==> Published(f.strings, t.labels, ls[k], f.publics[k]))
  }

  /** The compilation fails exactly when an instruction has no encoding, or a label that is
      jumped to or published is not defined. */
  ghost predicate Compilable(p: seq<Insn>) {
    AllEncodable(p) && TargetsDefined(p, LabelsOf(p)) && PubsOf(p) <= LabelsOf(p).Keys
  }

  /** `List.iter` over the fixups. */
  method PatchLoop(code0: Bytes, fixups: seq<(nat, Label)>, labels: map<Label, nat>) returns (r: Option<Bytes>)
    ensures r == Patch(code0, fixups, labels)
  {
    hide SetInt;
    var code := code0;
    for k := 0 to |fixups|
      invariant |code| == |code0| && Patch(code0, fixups, labels) == Patch(code, fixups[k..], labels)
    {
      var (ofs, l) := fixups[k];
      assert fixups[k..][0] == fixups[k] && fixups[k..][1..] == fixups[k + 1..];
      if ofs + 4 <= |code| && l in labels {
        code := SetInt(code, ofs, labels[l]);
      } else {
        return None;
      }
    }
    r := Some(code);
  }

  method Compile(p: seq<Insn>) returns (r: Option<File>, ghost t: Tables, ghost ls: seq<Label>)
    ensures r.Some? <==> Compilable(p)
    ensures r.Some? ==> Compiled(p, t, r.value, ls)
  {
    hide StringsHeld, GlobalsCounted, Extends, Covers, Encodable, Encode, EncodeAll, LabelsOf, FixupsOf, PubsOf, Patch,
      Published;
    var e := new Encoder();
    t, ls := e.Tabs(), [];
    var ok := e.Pass(p);
    if !ok {
      return None, t, ls;
    }
    ghost var t0 := e.Tabs();
    var code := e.code + [255];
    PatchAll(t0, p, [255], e.labels);
    var patched := PatchLoop(code, e.fixups, e.labels);
    var publics;
    publics, ls := e.Publics();
    if patched.None? || publics.None? {
      return None, t, ls;
    }
    t := e.Tabs().(labels := e.labels);
    Relabelled(t0, e.Tabs(), t, p);
    r := Some(File(e.strings, e.globCount, publics.value, patched.value));
  }

  /** Later additions to the tables do not matter. */
  lemma Relabelled(t0: Tables, t1: Tables, t: Tables, p: seq<Insn>)
    requires Extends(t0, t1) && t == t1.(labels := t.labels) && AllEncodable(p) && forall i :: i in p ==> Covers(t0, i)
    ensures EncodeAll(t0.(labels := t.labels), p) == EncodeAll(t, p) && forall i :: i in p ==> Covers(t, i)
  {
    hide Covers, Encodable, Encode, EncodeAll;
    var u := t0.(labels := t.labels);
    forall i | i in p ensures Covers(u, i) {
      CoversAnyLabels(t0, t.labels, i);
    }
    EncodeAllStable(u, t, p);
  }

  lemma CoversAnyLabels(t: Tables, labels: map<Label, nat>, i: Insn)
    requires Covers(t, i)
    ensures Covers(t.(labels := labels), i)
  {
  }

  // The disassembler

  /** The instructions shown from `ip` on, with their offsets, up to the end mark. `None` is
      an invalid opcode, or a run past the end of the buffer. */
  function Listing(table: Bytes, code: Bytes, ip: nat): Option<seq<(nat, Shown)>>
    decreases |code| - ip
  {
    if ip >= |code| then None
    else if code[ip] / 16 == 15 then Some([])
    else match Decode(table, code[ip..])
      case None => None
      case Some((s, rest)) =>
        match Listing(table, code, |code| - |rest|)
        case Some(more) => Some([(ip, s)] + more)
        case None => None
  }

  /** `disassemble`. */
  method Disassemble(table: Bytes, code: Bytes) returns (r: Option<seq<(nat, Shown)>>)
    ensures r == Listing(table, code, 0)
  {
    hide Decode;
    var ip, out: seq<(nat, Shown)> := 0, [];
    ghost var all := Listing(table, code, 0);
    assert all.Some? ==> out + all.value == all.value;
    while true
      invariant Listing(table, code, 0) ==
        match Listing(table, code, ip) case Some(more) => Some(out + more) case None => None
      decreases |code| - ip
    {
      if ip >= |code| {
        return None;
      }
      if code[ip] / 16 == 15 {
        assert out + [] == out;
        return Some(out);
      }
      match Decode(table, code[ip..])
      case None => return None;
      case Some((s, rest)) =>
        ghost var next := Listing(table, code, |code| - |rest|);
        if next.Some? {
          assert out + ([(ip, s)] + next.value) == out + [(ip, s)] + next.value;
        }
        out := out + [(ip, s)];
        ip := |code| - |rest|;
    }
  }

  /** What the listing of `p` from its `k`-th instruction on should be: everything but the
      pseudo-instructions, each at its offset. */
  function Expected(t: Tables, p: seq<Insn>, k: nat): seq<(nat, Shown)>
    requires AllEncodable(p) && k <= |p|
    decreases |p| - k
  {
    if k == |p| then []
    else (match Show(t, p[k]) case Some(s) => [(Offset(p[..k]), s)] case None => []) + Expected(t, p, k + 1)
  }

  lemma {:induction false} CodeFrom(t: Tables, p: seq<Insn>, k: nat)
    requires AllEncodable(p) && k < |p|
    ensures Offset(p[..k + 1]) == Offset(p[..k]) + Size(p[k]) <= Offset(p) == |EncodeAll(t, p)|
    ensures EncodeAll(t, p)[Offset(p[..k])..Offset(p[..k + 1])] == Encode(t, p[k])
    decreases |p|
  {
    hide Encode, Size;
    var init := p[..|p| - 1];
    EncodeAllSize(t, p);
    EncodeAllSize(t, init);
    EncodeSize(t, p[|p| - 1]);
    if k < |init| {
      CodeFrom(t, init, k);
      assert init[..k] == p[..k] && init[..k + 1] == p[..k + 1] && init[k] == p[k];
      var a, b := Offset(p[..k]), Offset(p[..k + 1]);
      assert EncodeAll(t, p)[a..b] == EncodeAll(t, init)[a..b];
    } else {
      assert p[..k] == init && p[..k + 1] == p;
    }
  }

  lemma NoByteIsEnd(t: Tables, i: Insn)
    requires Encodable(i) && Size(i) > 0
    ensures |Encode(t, i)| > 0 && Encode(t, i)[0] / 16 != 15
  {
    hide Int32, Places;
  }

  lemma ShownSize(t: Tables, i: Insn)
    requires Encodable(i)
    ensures Size(i) > 0 <==> Show(t, i).Some?
  {
    hide ShowPlaces, ShowPlace;
  }

  /** The listing of encoded code, from any instruction on. */
  lemma {:induction false} ListingFrom(t: Tables, p: seq<Insn>, table: Bytes, k: nat)
    requires AllEncodable(p) && k <= |p|
    requires forall i :: i in p ==> Small(t, i) && Readable(t, table, i)
    ensures Offset(p[..k]) <= Offset(p)
    ensures Listing(table, EncodeAll(t, p) + [255], Offset(p[..k])) == Some(Expected(t, p, k))
    decreases |p| - k
  {
    hide Decode, Encode, Show, Size, Small, Readable, Encodable;
    var code := EncodeAll(t, p) + [255];
    EncodeAllSize(t, p);
    if k == |p| {
      assert p[..k] == p && code[Offset(p)] == 255;
    } else {
      ListingFrom(t, p, table, k + 1);
      CodeFrom(t, p, k);
      ShownSize(t, p[k]);
      var a, b := Offset(p[..k]), Offset(p[..k + 1]);
      if Show(t, p[k]).Some? {
        NoByteIsEnd(t, p[k]);
        assert p[k] in p;
        assert code[a] == code[a..b][0] && code[a..b] == EncodeAll(t, p)[a..b];
        assert code[a..] == Encode(t, p[k]) + code[b..];
        InsnDecoded(t, table, p[k], code[b..]);
        assert |code| - |code[b..]| == b;
      } else {
        assert a == b;
        assert [] + Expected(t, p, k + 1) == Expected(t, p, k + 1);
        assert Expected(t, p, k) == Expected(t, p, k + 1);
      }
    }
  }

  predicate ZeroFree(i: Insn) {
    match i
    case STRING(s) => NoZero(s)
    case SEXP(s, _) => NoZero(s)
    case TAG(s, _) => NoZero(s)
    case _ => true
  }

  lemma StringsReadable(t: Tables, table: Bytes, i: Insn)
    requires StringsHeld(t.strings, table) && Covers(t, i) && ZeroFree(i)
    ensures Readable(t, table, i)
  {
    hide GetString, NoZero;
    match i
    case STRING(s) => ReadsBack(table, t.strings[s], s);
    case SEXP(s, _) => ReadsBack(table, t.strings[s], s);
    case TAG(s, _) => ReadsBack(table, t.strings[s], s);
    case _ =>
  }

  /** Disassembling what was compiled shows the instructions again: the pseudo-instructions,
      tail flags and function names are gone, labels are the offsets of the instructions after
      them, strings are themselves and globals are their indices. */
  lemma RoundTrip(p: seq<Insn>, t: Tables, f: File, ls: seq<Label>)
    requires Compiled(p, t, f, ls) && forall i :: i in p ==> Small(t, i) && ZeroFree(i)
    ensures Listing(f.strings, f.code, 0) == Some(Expected(t, p, 0))
  {
    hide Small, Readable, ZeroFree, StringsHeld, GlobalsCounted, Published, Covers, Listing, Expected;
    forall i | i in p ensures Readable(t, f.strings, i) {
      StringsReadable(t, f.strings, i);
    }
    ListingFrom(t, p, f.strings, 0);
    assert p[..0] == [];
  }

  // The file

  function PairBytes(ps: seq<(int, int)>): Bytes {
    if ps == [] then [] else Int32(ps[0].0) + Int32(ps[0].1) + PairBytes(ps[1..])
  }

  /** Three sizes, the table of publics, the string table, the code. */
  function Serialize(f: File): Bytes {
    Int32(|f.strings|) + Int32(f.globals) + (Int32(|f.publics|) + (PairBytes(f.publics) + (f.strings + f.code)))
  }

  function ReadPairs(n: int, b: Bytes): Option<(seq<(int, int)>, Bytes)>
    decreases n
  {
    if n <= 0 then Some(([], b))
    else match ReadTwo(b)
      case None => None
      case Some((x, y, rest)) =>
        match ReadPairs(n - 1, rest)
        case Some((ps, rest')) => Some(([(x, y)] + ps, rest'))
        case None => None
  }

  /** `read_file`: the string table starts after the publics, the code after the strings. */
  function ReadFile(b: Bytes): Option<File> {
    match ReadTwo(b)
    case None => None
    case Some((size, globals, b1)) =>
      match ReadInt(b1)
      case None => None
      case Some((n, b2)) =>
        match ReadPairs(n, b2)
        case None => None
        case Some((publics, b3)) =>
          if 0 <= size <= |b3| && globals >= 0 then Some(File(b3[..size], globals, publics, b3[size..])) else None
  }

  lemma {:induction false} PairsRead(ps: seq<(int, int)>, rest: Bytes)
    requires forall k :: 0 <= k < |ps| ==> Bytecode.Fits(ps[k].0) && Bytecode.Fits(ps[k].1)
    ensures ReadPairs(|ps|, PairBytes(ps) + rest) == Some((ps, rest))
    decreases |ps|
  {
    hide Int32, ReadTwo;
    if ps == [] {
      assert PairBytes(ps) + rest == rest;
    } else {
      var more := PairBytes(ps[1..]) + rest;
      assert PairBytes(ps) + rest == Int32(ps[0].0) + Int32(ps[0].1) + more;
      IntsRead(ps[0].0, ps[0].1, more);
      PairsRead(ps[1..], rest);
      assert [(ps[0].0, ps[0].1)] + ps[1..] == ps;
    }
  }

  /** The file reads back as what was written. */
  lemma FileRoundTrip(f: File)
    requires Bytecode.Fits(|f.strings|) && Bytecode.Fits(f.globals) && Bytecode.Fits(|f.publics|)
    requires forall k :: 0 <= k < |f.publics| ==> Bytecode.Fits(f.publics[k].0) && Bytecode.Fits(f.publics[k].1)
    ensures ReadFile(Serialize(f)) == Some(f)
  {
    hide Int32, ReadInt, ReadTwo, PairBytes, ReadPairs;
    var b3 := f.strings + f.code;
    var b2 := PairBytes(f.publics) + b3;
    IntsRead(|f.strings|, f.globals, Int32(|f.publics|) + b2);
    Int32Read(|f.publics|, b2);
    PairsRead(f.publics, b3);
    assert b3[..|f.strings|] == f.strings && b3[|f.strings|..] == f.code;
  }

  lemma OffsetNext(p: seq<Insn>, k: nat)
    requires k < |p|
    ensures Offset(p[..k + 1]) == Offset(p[..k]) + Size(p[k])
  {
    hide Size;
    assert p[..k + 1][..k] == p[..k];
  }

  /** What is shown up to some instruction lies below its offset. */
  lemma {:induction false} ShownBelow(t: Tables, p: seq<Insn>, j: nat, k: nat) returns (below: seq<(nat, Shown)>)
    requires AllEncodable(p) && j <= k <= |p|
    ensures Offset(p[..j]) <= Offset(p[..k])
    ensures Expected(t, p, j) == below + Expected(t, p, k) &&
      forall q :: 0 <= q < |below| ==> below[q].0 < Offset(p[..k])
    decreases k - j
  {
    hide Size, Show, Offset, Encodable;
    if j == k {
      below := [];
      assert [] + Expected(t, p, k) == Expected(t, p, k);
    } else {
      var rest := ShownBelow(t, p, j + 1, k);
      OffsetNext(p, j);
      ShownSize(t, p[j]);
      var first := match Show(t, p[j]) case Some(s) => [(Offset(p[..j]), s)] case None => [];
      below := first + rest;
      assert first + (rest + Expected(t, p, k)) == below + Expected(t, p, k);
    }
  }

  /** The first instruction shown from the `k`-th on has the offset of the `k`-th. */
  lemma {:induction false} FirstShown(t: Tables, p: seq<Insn>, k: nat)
    requires AllEncodable(p) && k <= |p|
    ensures Expected(t, p, k) != [] ==> Expected(t, p, k)[0].0 == Offset(p[..k])
    decreases |p| - k
  {
    hide Size, Show, Offset, Encodable;
    if k < |p| {
      FirstShown(t, p, k + 1);
      OffsetNext(p, k);
      ShownSize(t, p[k]);
    }
  }

  /** A label's offset in the listing: everything before the label is shown below it, and the
      first instruction after the label, if any is shown, is shown at it. */
  lemma LabelShown(t: Tables, p: seq<Insn>, k: nat, l: Label, f: File, ls: seq<Label>) returns (m: nat)
    requires Compiled(p, t, f, ls) && UniquelyLabelled(p) && k < |p| && IsLabel(p[k], l)
    requires forall i :: i in p ==> Small(t, i) && ZeroFree(i)
    ensures l in t.labels && Listing(f.strings, f.code, 0).Some?
    ensures var shown, offset := Listing(f.strings, f.code, 0).value, t.labels[l];
      && m <= |shown| && shown[m..] == Expected(t, p, k + 1)
      && (forall q :: 0 <= q < m ==> shown[q].0 < offset) && (m < |shown| ==> shown[m].0 == offset)
  {
    hide Offset, Listing, Expected, Small, ZeroFree;
    LabelAt(p, k, l);
    LabelEmpty(p, k);
    RoundTrip(p, t, f, ls);
    var below := ShownBelow(t, p, 0, k + 1);
    FirstShown(t, p, k + 1);
    m := |below|;
  }

  lemma LabelEmpty(p: seq<Insn>, k: nat)
    requires k < |p| && Defines(p[k]).Some?
    ensures Offset(p[..k + 1]) == Offset(p[..k])
  {
    assert p[..k + 1][..k] == p[..k];
  }
}
