/** Hashes of s-expression tags: five characters of six bits each. Shifts by six and masks of
    six bits are written as arithmetic on non-negative numbers. */
module TagHash {
  import opened Wrappers

  function Lower(): string { "abcdefghijklmnopqrstuvwxyz" }

  function Upper(): string { "ABCDEFGHIJKLMNOPQRSTUVWXYZ" }

  function Numerals(): string { "0123456789" }

  /** The alphabet. Its zero digit is `_`. */
  function Chars(): (s: string)
    ensures |s| == 64 && s[0] == '_'
  {
    "_" + Lower() + Upper() + Numerals() + "'"
  }

  /** The first position of a character from `i` on, or the length. */
  function IndexFrom(c: char, s: string, i: nat): (pos: nat)
    requires i <= |s|
    ensures i <= pos <= |s| && (pos < |s| ==> s[pos] == c)
    ensures forall j :: i <= j < pos ==> s[j] != c
    decreases |s| - i
  {
    if i == |s| || s[i] == c then i else IndexFrom(c, s, i + 1)
  }

  /** The digit of a character. */
  function Digit(c: char): nat {
    IndexFrom(c, Chars(), 0)
  }

  lemma Letters(i: nat)
    requires i < 26
    ensures Lower()[i] as int == 'a' as int + i && Upper()[i] as int == 'A' as int + i
  {
  }

  lemma Figures(i: nat)
    requires i < 10
    ensures Numerals()[i] as int == '0' as int + i
  {
  }

  /** What stands for the digit `i`: `_`, the small and the capital letters, the numerals, `'`. */
  lemma CharAt(i: nat)
    requires i < 64
    ensures Chars()[i] as int ==
      if i == 0 then '_' as int else if i <= 26 then 'a' as int + i - 1 else if i <= 52 then 'A' as int + i - 27
      else if i <= 62 then '0' as int + i - 53 else '\'' as int
  {
    hide Lower, Upper, Numerals;
    assert |Lower()| == |Upper()| == 26 && |Numerals()| == 10 by { Counts(); }
    if 0 < i <= 26 {
      Letters(i - 1);
    } else if 26 < i <= 52 {
      Letters(i - 27);
    } else if 52 < i <= 62 {
      Figures(i - 53);
    }
  }

  lemma Counts()
    ensures |Lower()| == |Upper()| == 26 && |Numerals()| == 10
  {
  }

  /** The digit of every character of the alphabet; others have none. */
  lemma DigitOf(c: char)
    ensures Digit(c) ==
      if c == '_' then 0 else if 'a' <= c <= 'z' then 1 + c as int - 'a' as int
      else if 'A' <= c <= 'Z' then 27 + c as int - 'A' as int
      else if '0' <= c <= '9' then 53 + c as int - '0' as int else if c == '\'' then 63 else 64
  {
    hide Chars;
    var i := if c == '_' then 0 else if 'a' <= c <= 'z' then 1 + c as int - 'a' as int
      else if 'A' <= c <= 'Z' then 27 + c as int - 'A' as int
      else if '0' <= c <= '9' then 53 + c as int - '0' as int else if c == '\'' then 63 else 64;
    if i < 64 {
      CharAt(i);
    }
    if Digit(c) < 64 {
      CharAt(Digit(c));
    }
  }

  function Prefix(s: string): string {
    if |s| <= 5 then s else s[..5]
  }

  predicate InAlphabet(s: string) {
    forall i :: 0 <= i < |s| ==> s[i] in Chars()
  }

  /** The number whose base-64 digits are the characters. */
  function Digits(s: string): nat
    requires InAlphabet(s)
  {
    if s == [] then 0
    else
      assert InAlphabet(s[..|s| - 1]);
      64 * Digits(s[..|s| - 1]) + Digit(s[|s| - 1])
  }

  lemma NoDigits()
    ensures Digits([]) == 0
  {
  }

  lemma DigitsStep(t: string, i: nat)
    requires i < |t| && InAlphabet(t[..i]) && t[i] in Chars()
    ensures InAlphabet(t[..i + 1]) && Digits(t[..i + 1]) == 64 * Digits(t[..i]) + Digit(t[i])
  {
    hide Chars, Digit;
    assert t[..i + 1] == t[..i] + [t[i]];
    assert t[..i + 1][..i] == t[..i];
  }

  /** The characters of the base-64 digits of a number, without leading zeros. */
  function Spell(n: nat): string {
    if n == 0 then [] else Spell(n / 64) + [Chars()[n % 64]]
  }

  lemma ZeroDigit()
    ensures Digit('_') == 0
    ensures forall i :: 0 < i < 64 ==> Chars()[i] != '_'
  {
    hide Chars;
    forall i | 0 < i < 64 ensures Chars()[i] != '_' {
      NoZero(i);
    }
  }

  lemma NoZero(i: nat)
    requires 0 < i < 64
    ensures Chars()[i] != '_'
  {
    assert '_' !in Lower() && |Lower()| == 26;
    assert '_' !in Upper() && |Upper()| == 26;
    assert '_' !in Numerals() && |Numerals()| == 10;
    hide Lower, Upper, Numerals;
    if i <= 26 {
      assert Chars()[i] == Lower()[i - 1];
    } else if i <= 52 {
      assert Chars()[i] == Upper()[i - 27];
    } else if i <= 62 {
      assert Chars()[i] == Numerals()[i - 53];
    }
  }

  lemma IndexFound(c: char)
    requires c in Chars()
    ensures Digit(c) < 64 && Chars()[Digit(c)] == c
  {
    hide Chars;
    var j :| 0 <= j < |Chars()| && Chars()[j] == c;
  }

  lemma {:induction false} DigitsBound(s: string)
    requires InAlphabet(s)
    ensures |s| <= 5 ==> Digits(s) < Power(|s|)
    ensures s != [] && s[0] != '_' ==> Digits(s) > 0
    decreases |s|
  {
    hide Chars;
    if s != [] {
      var t := s[..|s| - 1];
      assert InAlphabet(t);
      DigitsBound(t);
      assert s[|s| - 1] in Chars();
      IndexFound(s[|s| - 1]);
      if t == [] {
        ZeroDigit();
      }
    }
  }

  function Power(k: nat): nat {
    if k == 0 then 1 else 64 * Power(k - 1)
  }

  /** Spelling the digits gives the characters back, unless the first is the zero digit. */
  lemma {:induction false} SpellDigits(s: string)
    requires InAlphabet(s) && (s == [] || s[0] != '_')
    ensures Spell(Digits(s)) == s
    decreases |s|
  {
    hide Chars;
    if s != [] {
      var t, c := s[..|s| - 1], s[|s| - 1];
      assert InAlphabet(t) && c in Chars();
      IndexFound(c);
      SpellDigits(t);
      DigitsBound(s);
      assert Digits(s) / 64 == Digits(t) && Digits(s) % 64 == Digit(c);
      assert s == t + [c];
    }
  }

  /** A spelling never starts with the zero digit. */
  lemma {:induction false} SpellStart(n: nat)
    ensures n > 0 ==> Spell(n) != [] && Spell(n)[0] != '_'
    decreases n
  {
    hide Chars;
    if n > 0 {
      SpellStart(n / 64);
      if n < 64 {
        ZeroDigit();
      }
    }
  }

  lemma {:induction false} SpellLength(n: nat, k: nat)
    requires n < Power(k)
    ensures |Spell(n)| <= k
    decreases k
  {
    hide Chars;
    if n > 0 {
      SpellLength(n / 64, k - 1);
    }
  }

  // The runtime

  /** `de_hash`: fills a six-byte buffer from its end; the result starts at `start`. */
  method DeHash(n: nat) returns (buf: array<char>, start: nat)
    requires n < Power(5)
    ensures fresh(buf) && buf.Length == 6 && start <= 5 && buf[5] == '\0'
    ensures buf[start..5] == Spell(n)
  {
    hide Chars;
    buf := new char[6](_ => '\0');
    var m, p := n, 4;
    SpellLength(n, 5);
    while m != 0
      invariant -1 <= p <= 4 && buf[5] == '\0'
      invariant |Spell(m)| <= p + 1
      invariant Spell(n) == Spell(m) + buf[p + 1..5]
      decreases m
    {
      buf[p] := Chars()[m % 64];
      assert buf[p..5] == [Chars()[m % 64]] + buf[p + 1..5];
      p := p - 1;
      m := m / 64;
    }
    start := p + 1;
  }

  /** `strncmp (s, t, 5) == 0`. */
  predicate SamePrefix(s: string, t: string) {
    Prefix(s) == Prefix(t)
  }

  /** The tags that have a hash. */
  predicate Hashable(s: string) {
    InAlphabet(Prefix(s)) && (s == [] || s[0] != '_')
  }

  /** `LtagHash`; `None` is a failure. */
  method LtagHash(s: string) returns (r: Option<nat>)
    ensures r == if Hashable(s) then Some(Digits(Prefix(s))) else None
  {
    hide Spell, Power, Chars, Digits;
    var h, p := 0, 0;
    NoDigits();
    while p < |s| && p <= 4
      invariant p <= |Prefix(s)| && InAlphabet(Prefix(s)[..p]) && h == Digits(Prefix(s)[..p])
      decreases 5 - p
    {
      var pos := 0;
      while pos < |Chars()| && Chars()[pos] != s[p]
        invariant pos <= |Chars()| && Digit(s[p]) == IndexFrom(s[p], Chars(), pos)
      {
        pos := pos + 1;
      }
      if pos == |Chars()| {
        assert Prefix(s)[p] == s[p];
        return None;
      }
      DigitsStep(Prefix(s), p);
      h := 64 * h + pos;
      p := p + 1;
    }
    assert Prefix(s)[..p] == Prefix(s);
    HashFits(s);
    var buf, start := DeHash(h);
    var t := buf[start..5];
    RoundTrip(s);
    if !SamePrefix(s, t) {
      return None;
    }
    r := Some(h);
  }

  lemma HashFits(s: string)
    requires InAlphabet(Prefix(s))
    ensures Digits(Prefix(s)) < Power(5) == 0x4000_0000
  {
    hide Chars;
    DigitsBound(Prefix(s));
    PowerGrows(|Prefix(s)|, 5);
    PowerFive();
  }

  /** The check at the end of `LtagHash` succeeds exactly when the tag does not start with
      the zero digit. */
  lemma RoundTrip(s: string)
    requires InAlphabet(Prefix(s))
    ensures SamePrefix(s, Spell(Digits(Prefix(s)))) <==> Hashable(s)
  {
    hide Chars;
    var h := Digits(Prefix(s));
    HashFits(s);
    SpellLength(h, 5);
    assert Prefix(Spell(h)) == Spell(h);
    if Hashable(s) {
      SpellDigits(Prefix(s));
    } else {
      assert Prefix(s)[0] == '_';
      SpellStart(h);
    }
  }

  /** A tag that is refused: `_a` has the number of `a`, whose spelling is another tag. */
  lemma Refused()
    ensures InAlphabet(Prefix("_a")) && !Hashable("_a") && !SamePrefix("_a", Spell(Digits(Prefix("_a"))))
    ensures Digits(Prefix("_a")) == Digits(Prefix("a"))
  {
    assert Prefix("_a") == "_a" && Prefix("a") == "a";
    assert InAlphabet("_a") && !Hashable("_a");
    RoundTrip("_a");
    assert "_a"[..1] == "_" && "_"[..0] == "" && "a"[..0] == "";
    assert Digits("_") == 0;
  }

  lemma PowerFive()
    ensures Power(5) == 0x4000_0000
  {
    assert Power(1) == 64 && Power(2) == 0x1000 && Power(3) == 0x4_0000;
  }

  lemma {:induction false} PowerGrows(a: nat, b: nat)
    requires a <= b
    ensures Power(a) <= Power(b)
    decreases b
  {
    if a < b {
      PowerGrows(a, b - 1);
    }
  }

  /** The code generator's `hash`; `None` is the exception for a character outside the
      alphabet. It does not look for a leading zero digit. */
  method Hash(tag: string) returns (r: Option<nat>)
    ensures r == if InAlphabet(Prefix(tag)) then Some(Digits(Prefix(tag))) else None
  {
    hide Chars, Digits;
    var h := 0;
    NoDigits();
    var n := if |tag| - 1 < 4 then |tag| else 5;
    for i := 0 to n
      invariant InAlphabet(Prefix(tag)[..i]) && h == Digits(Prefix(tag)[..i])
    {
      if Digit(tag[i]) == |Chars()| {
        assert Prefix(tag)[i] == tag[i];
        return None;
      }
      DigitsStep(Prefix(tag), i);
      h := 64 * h + Digit(tag[i]);
    }
    assert Prefix(tag)[..n] == Prefix(tag);
    r := Some(h);
  }

  /** A hash fits thirty bits and spells the first five characters of its tag; so tags that
      differ there differ in their hashes. */
  lemma HashFaithful(s: string)
    requires Hashable(s)
    ensures Digits(Prefix(s)) < 0x4000_0000 && Spell(Digits(Prefix(s))) == Prefix(s)
    ensures forall t :: Hashable(t) && Digits(Prefix(t)) == Digits(Prefix(s)) ==> Prefix(t) == Prefix(s)
  {
    hide Chars;
    HashFits(s);
    SpellDigits(Prefix(s));
    forall t | Hashable(t) && Digits(Prefix(t)) == Digits(Prefix(s)) ensures Prefix(t) == Prefix(s) {
      SpellDigits(Prefix(t));
    }
  }
}
