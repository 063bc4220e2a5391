/** Machine words of the 32-bit runtime and the header and forwarding-word
    packings of `runtime/runtime_common.h` and `runtime/gc.h`. */
module Words {

  const WORD_LIMIT := 0x1_0000_0000

  type Word = w: int | 0 <= w < 0x1_0000_0000

  const STRING_TAG := 1
  const ARRAY_TAG := 3
  const SEXP_TAG := 5
  const CLOSURE_TAG := 7

  /** The two-word production header: `data_header`, then `forward_address`. */
  const HEADER_WORDS := 2
  const HEADER_BYTES := 8
  const MEMBER_SIZE := 4

  predicate Unboxed(w: Word) {
    w % 2 == 1
  }

  function Len(header: Word): nat {
    header / 8
  }

  function Tag(header: Word): nat {
    header % 8
  }

  predicate ValidTag(header: Word) {
    Tag(header) in {STRING_TAG, ARRAY_TAG, SEXP_TAG, CLOSURE_TAG}
  }

  /** `tag | (len << 3)` for a length whose shift stays in the word. */
  function MakeHeader(tag: nat, len: nat): (header: Word)
    requires tag < 8 && len < 0x1000_0000
    ensures Tag(header) == tag && Len(header) == len
  {
    tag + 8 * len
  }

  /** Size of an object in bytes, header included. Only a string can end inside a word. */
  function SizeBytes(header: Word): nat {
    if Tag(header) == STRING_TAG then HEADER_BYTES + Len(header) + 1
    else if Tag(header) == SEXP_TAG then HEADER_BYTES + MEMBER_SIZE * (Len(header) + 1)
    else HEADER_BYTES + MEMBER_SIZE * Len(header)
  }

  function BytesToWords(bytes: nat): (words: nat)
    requires bytes > 0
    ensures 4 * (words - 1) < bytes <= 4 * words
  {
    (bytes - 1) / 4 + 1
  }

  function SizeWords(header: Word): (words: nat)
    ensures words >= HEADER_WORDS
  {
    BytesToWords(SizeBytes(header))
  }

  // The forwarding word holds a four-aligned address; the two low bits are the mark
  // bit and the enqueued bit. Each setter leaves the other two components alone.

  predicate Marked(f: Word) {
    f % 4 == 1 || f % 4 == 3
  }

  predicate Enqueued(f: Word) {
    f % 4 >= 2
  }

  function Address(f: Word): (a: Word)
    ensures a % 4 == 0
  {
    LowBits(f / 4, f % 4);
    f / 4 * 4
  }

  /** An aligned address with low bits put in and taken out again. */
  lemma LowBits(q: nat, low: nat)
    requires low < 4
    ensures (q * 4 + low) / 4 == q && (q * 4 + low) % 4 == low && q * 4 % 4 == 0
  {
  }

  function WithLowBits(f: Word, low: nat): (r: Word)
    requires low < 4
    ensures Address(r) == Address(f) && r % 4 == low
  {
    LowBits(f / 4, low);
    f / 4 * 4 + low
  }

  function SetMark(f: Word): (r: Word)
    ensures Marked(r) && Enqueued(r) == Enqueued(f) && Address(r) == Address(f)
  {
    WithLowBits(f, if f % 4 < 2 then 1 else 3)
  }

  function ResetMark(f: Word): (r: Word)
    ensures !Marked(r) && Enqueued(r) == Enqueued(f) && Address(r) == Address(f)
  {
    WithLowBits(f, if f % 4 < 2 then 0 else 2)
  }

  function MakeEnqueued(f: Word): (r: Word)
    ensures Enqueued(r) && Marked(r) == Marked(f) && Address(r) == Address(f)
  {
    WithLowBits(f, if Marked(f) then 3 else 2)
  }

  function MakeDequeued(f: Word): (r: Word)
    ensures !Enqueued(r) && Marked(r) == Marked(f) && Address(r) == Address(f)
  {
    WithLowBits(f, if Marked(f) then 1 else 0)
  }

  function SetAddress(f: Word, a: Word): (r: Word)
    requires a % 4 == 0
    ensures Address(r) == a && Marked(r) == Marked(f) && Enqueued(r) == Enqueued(f)
  {
    LowBits(a / 4, 0);
    LowBits(a / 4, f % 4);
    a / 4 * 4 + f % 4
  }

  // Byte access: byte `i` of a little-endian word, and the word that results when a
  // byte copy ends `k` bytes into it.

  function ByteOf(w: Word, i: nat): (b: nat)
    requires i < 4
    ensures b < 256
  {
    match i
    case 0 => w % 256
    case 1 => w / 256 % 256
    case 2 => w / 256 / 256 % 256
    case _ => w / 256 / 256 / 256
  }

  lemma Digit(b: nat, rest: nat)
    requires b < 256
    ensures (b + 256 * rest) % 256 == b && (b + 256 * rest) / 256 == rest
  {
  }

  function FromBytes(b0: nat, b1: nat, b2: nat, b3: nat): (w: Word)
    requires b0 < 256 && b1 < 256 && b2 < 256 && b3 < 256
    ensures ByteOf(w, 0) == b0 && ByteOf(w, 1) == b1 && ByteOf(w, 2) == b2 && ByteOf(w, 3) == b3
  {
    Digit(b2, b3);
    Digit(b1, b2 + 256 * b3);
    Digit(b0, b1 + 256 * (b2 + 256 * b3));
    b0 + 256 * (b1 + 256 * (b2 + 256 * b3))
  }

  /** The low `k` bytes of `source` over the remaining high bytes of `target`. */
  function Splice(source: Word, target: Word, k: nat): (w: Word)
    requires k <= 4
    ensures forall i :: 0 <= i < k ==> ByteOf(w, i) == ByteOf(source, i)
    ensures forall i :: k <= i < 4 ==> ByteOf(w, i) == ByteOf(target, i)
  {
    var pick := (i: nat) requires i < 4 => if i < k then ByteOf(source, i) else ByteOf(target, i);
    FromBytes(pick(0), pick(1), pick(2), pick(3))
  }
}
