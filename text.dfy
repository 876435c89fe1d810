/**
 * String helpers shared by the model: number rendering as JavaScript's
 * `String(n)` / `n.toString(16)` do it for non-negative integers, `parseInt`
 * on digit strings, `split`/`join` on a separator, `padStart`, ASCII case
 * mapping and substring search (`includes`).
 */
module Text {

  // ---------------------------------------------------------------------------
  // Digits and radix rendering
  // ---------------------------------------------------------------------------

  predicate IsDigit(c: char) {
    '0' <= c <= '9'
  }

  /** The digit character for `d` in JavaScript's radix alphabet 0-9a-z. */
  function DigitChar(d: nat): (c: char)
    requires d < 36
  {
    if d < 10 then (48 + d) as char else (87 + d) as char
  }

  /** The value of a character of the radix alphabet 0-9a-z (upper case is not produced by `toString`). */
  function DigitValue(c: char): int {
    if '0' <= c <= '9' then c as int - 48
    else if 'a' <= c <= 'z' then c as int - 87
    else -1
  }

  predicate IsRadixDigit(c: char, base: nat) {
    0 <= DigitValue(c) < base
  }

  lemma DigitCharValue(d: nat)
    requires d < 36
    ensures DigitValue(DigitChar(d)) == d
  {
  }

  /** `n.toString(base)` for a non-negative integer `n`. */
  function NatToRadix(n: nat, base: nat): (s: string)
    requires 2 <= base <= 36
    ensures |s| >= 1
    ensures forall i :: 0 <= i < |s| ==> IsRadixDigit(s[i], base)
    decreases n
  {
    if n < base then [DigitChar(n)]
    else
      DivShrinks(n, base);
      NatToRadix(n / base, base) + [DigitChar(n % base)]
  }

  /** The number denoted by a string of radix digits (most significant first). */
  function RadixValue(s: string, base: nat): nat
    requires forall i :: 0 <= i < |s| ==> IsRadixDigit(s[i], base)
  {
    if s == [] then 0
    else
      assert IsRadixDigit(s[|s| - 1], base);
      RadixValue(s[..|s| - 1], base) * base + DigitValue(s[|s| - 1])
  }

  /** Rendering a number and reading it back gives the number: rendering is injective. */
  lemma {:induction false} RadixRoundTrip(n: nat, base: nat)
    requires 2 <= base <= 36
    ensures RadixValue(NatToRadix(n, base), base) == n
    decreases n
  {
    if n < base {
      DigitCharValue(n);
    } else {
      RadixRoundTrip(n / base, base);
      RoundTripStep(n, base);
    }
  }

  lemma RoundTripStep(n: nat, base: nat)
    requires 2 <= base <= 36 && n >= base
    requires RadixValue(NatToRadix(n / base, base), base) == n / base
    ensures RadixValue(NatToRadix(n, base), base) == n
  {
    var p := NatToRadix(n / base, base);
    RadixValueSnoc(p, n % base, base);
    SnocArithmetic(n, base, n / base, n % base);
  }

  lemma DivShrinks(n: nat, base: nat)
    requires 2 <= base <= n
    ensures n / base < n && n % base < base
  {
  }

  lemma SnocArithmetic(n: nat, base: nat, v: nat, r: nat)
    requires base > 0 && v == n / base && r == n % base
    ensures v * base + r == n
  {
  }

  lemma DivMod(n: nat, base: nat)
    requires base > 0
    ensures n == (n / base) * base + n % base
  {
  }

  /** Appending a digit multiplies the value by the base and adds the digit. */
  lemma RadixValueSnoc(p: string, d: nat, base: nat)
    requires 2 <= base <= 36 && d < base
    requires forall i :: 0 <= i < |p| ==> IsRadixDigit(p[i], base)
    ensures forall i :: 0 <= i < |p + [DigitChar(d)]| ==> IsRadixDigit((p + [DigitChar(d)])[i], base)
    ensures RadixValue(p + [DigitChar(d)], base) == RadixValue(p, base) * base + d
  {
    var s := p + [DigitChar(d)];
    DigitCharValue(d);
    assert s[..|s| - 1] == p;
  }

  lemma RadixRenderingInjective(m: nat, n: nat, base: nat)
    requires 2 <= base <= 36
    requires NatToRadix(m, base) == NatToRadix(n, base)
    ensures m == n
  {
    RadixRoundTrip(m, base);
    RadixRoundTrip(n, base);
  }

  /** Leading zeros do not change the value of a digit string. */
  lemma {:induction false} RadixValueLeadingZeros(z: string, s: string, base: nat)
    requires 2 <= base <= 36
    requires forall i :: 0 <= i < |z| ==> z[i] == '0'
    requires forall i :: 0 <= i < |s| ==> IsRadixDigit(s[i], base)
    ensures forall i :: 0 <= i < |z + s| ==> IsRadixDigit((z + s)[i], base)
    ensures RadixValue(z + s, base) == RadixValue(s, base)
    decreases |s|
  {
    var zs := z + s;
    if s == [] {
      assert zs == z;
      AllZeros(z, base);
    } else {
      assert zs[..|zs| - 1] == z + s[..|s| - 1];
      RadixValueLeadingZeros(z, s[..|s| - 1], base);
    }
  }

  lemma {:induction false} AllZeros(z: string, base: nat)
    requires 2 <= base <= 36
    requires forall i :: 0 <= i < |z| ==> z[i] == '0'
    ensures RadixValue(z, base) == 0
    decreases |z|
  {
    if z != [] {
      AllZeros(z[..|z| - 1], base);
    }
  }

  /** `String(n)` / `${n}` for a non-negative integer. */
  function NatToString(n: nat): string {
    NatToRadix(n, 10)
  }

  /** `parseInt(s, 10)` for a non-empty string of decimal digits. */
  function DecimalValue(s: string): nat
    requires forall i :: 0 <= i < |s| ==> IsDigit(s[i])
  {
    assert forall i :: 0 <= i < |s| ==> IsRadixDigit(s[i], 10) by {
      forall i | 0 <= i < |s| ensures IsRadixDigit(s[i], 10) {
        assert IsDigit(s[i]);
      }
    }
    RadixValue(s, 10)
  }

  lemma DecimalRoundTrip(n: nat)
    ensures forall i :: 0 <= i < |NatToString(n)| ==> IsDigit(NatToString(n)[i])
    ensures DecimalValue(NatToString(n)) == n
  {
    RadixRoundTrip(n, 10);
  }

  // ---------------------------------------------------------------------------
  // Padding and repetition
  // ---------------------------------------------------------------------------

  function Repeat(c: char, n: nat): (s: string)
    ensures |s| == n
    ensures forall i :: 0 <= i < n ==> s[i] == c
  {
    seq(n, _ => c)
  }

  /** `s.padStart(width, fill)` with a one-character fill. */
  function PadStart(s: string, width: nat, fill: char): (r: string)
    ensures |r| == if |s| < width then width else |s|
    ensures r[|r| - |s|..] == s
    ensures forall i :: 0 <= i < |r| - |s| ==> r[i] == fill
  {
    if |s| < width then Repeat(fill, width - |s|) + s else s
  }

  /** Two lower-case hexadecimal digits, `v.toString(16).padStart(2, '0')`. */
  function Hex2(v: nat): (h: string)
    requires v < 256
  {
    PadStart(NatToRadix(v, 16), 2, '0')
  }

  /** Hex2 always yields two hex digits that denote `v`. */
  lemma Hex2RoundTrip(v: nat)
    requires v < 256
    ensures |Hex2(v)| == 2
    ensures IsRadixDigit(Hex2(v)[0], 16) && IsRadixDigit(Hex2(v)[1], 16)
    ensures DigitValue(Hex2(v)[0]) * 16 + DigitValue(Hex2(v)[1]) == v
  {
    var s := NatToRadix(v, 16);
    RadixRoundTrip(v, 16);
    if v >= 16 {
      assert v / 16 < 16;
      assert |s| == 2;
    } else {
      assert |s| == 1;
    }
  }

  // ---------------------------------------------------------------------------
  // Case mapping and search
  // ---------------------------------------------------------------------------

  function LowerChar(c: char): char {
    if 'A' <= c <= 'Z' then (c as int + 32) as char else c
  }

  function UpperChar(c: char): char {
    if 'a' <= c <= 'z' then (c as int - 32) as char else c
  }

  /** `s.toLowerCase()` restricted to ASCII letters. */
  function ToLower(s: string): (r: string)
    ensures |r| == |s|
    ensures forall i :: 0 <= i < |s| ==> r[i] == LowerChar(s[i])
  {
    seq(|s|, i requires 0 <= i < |s| => LowerChar(s[i]))
  }

  /** `s.toUpperCase()` restricted to ASCII letters. */
  function ToUpper(s: string): (r: string)
    ensures |r| == |s|
    ensures forall i :: 0 <= i < |s| ==> r[i] == UpperChar(s[i])
  {
    seq(|s|, i requires 0 <= i < |s| => UpperChar(s[i]))
  }

  /** `t` occurs in `s` at position `i`. */
  predicate OccursAt(s: string, t: string, i: int) {
    0 <= i && i + |t| <= |s| && s[i..i + |t|] == t
  }

  /** `s.includes(t)`: a left-to-right scan. */
  function Contains(s: string, t: string): (r: bool)
    ensures r <==> exists i :: OccursAt(s, t, i)
  {
    if |t| > |s| then false
    else if s[..|t|] == t then
      assert OccursAt(s, t, 0);
      true
    else
      var rest := Contains(s[1..], t);
      if rest then
        var i :| OccursAt(s[1..], t, i);
        assert OccursAt(s, t, i + 1) by { assert s[i + 1..i + 1 + |t|] == s[1..][i..i + |t|]; }
        true
      else
        forall i ensures !OccursAt(s, t, i) {
          if i == 0 {
            assert s[0..0 + |t|] == s[..|t|];
          } else if i > 0 {
            OccursShift(s, t, i);
          }
        }
        false
  }

  lemma OccursShift(s: string, t: string, i: int)
    requires |s| >= 1 && i >= 1
    ensures OccursAt(s, t, i) <==> OccursAt(s[1..], t, i - 1)
  {
    if i + |t| <= |s| {
      assert s[1..][i - 1..i - 1 + |t|] == s[i..i + |t|];
    }
  }

  /** A piece occurs in a concatenation where it is placed. */
  lemma OccursBetween(a: string, t: string, b: string)
    ensures OccursAt(a + t + b, t, |a|)
  {
    assert (a + t + b)[|a|..|a| + |t|] == t;
  }

  /** An occurrence inside an occurrence is an occurrence. */
  lemma OccursWithin(s: string, u: string, i: int, t: string, j: int)
    requires OccursAt(s, u, i) && OccursAt(u, t, j)
    ensures OccursAt(s, t, i + j)
  {
    forall k | 0 <= k < |t| ensures s[i + j + k] == t[k] {
      assert s[i..i + |u|][j + k] == u[j + k];
      assert u[j..j + |t|][k] == t[k];
    }
    assert s[i + j..i + j + |t|] == t;
  }

  // ---------------------------------------------------------------------------
  // split / join
  // ---------------------------------------------------------------------------

  /** `s.split(sep)` for a one-character separator: always at least one piece. */
  function Split(s: string, sep: char): (parts: seq<string>)
    ensures |parts| >= 1
    ensures forall k :: 0 <= k < |parts| ==> sep !in parts[k]
  {
    if s == [] then [""]
    else
      var rest := Split(s[1..], sep);
      if s[0] == sep then [""] + rest
      else [[s[0]] + rest[0]] + rest[1..]
  }

  /** `parts.join(sep)`. */
  function Join(parts: seq<string>, sep: string): string {
    if |parts| == 0 then ""
    else if |parts| == 1 then parts[0]
    else parts[0] + sep + Join(parts[1..], sep)
  }

  /** Every piece followed by a terminator: `parts.map(p => p + '\n').join('')`. */
  function Terminated(parts: seq<string>, term: char): string {
    if parts == [] then ""
    else Terminated(parts[..|parts| - 1], term) + parts[|parts| - 1] + [term]
  }

  lemma {:induction false} TerminatedCons(p: string, parts: seq<string>, term: char)
    ensures Terminated([p] + parts, term) == p + [term] + Terminated(parts, term)
    decreases |parts|
  {
    if parts != [] {
      var all := [p] + parts;
      assert all[..|all| - 1] == [p] + parts[..|parts| - 1];
      TerminatedCons(p, parts[..|parts| - 1], term);
    } else {
      assert ([p] + parts)[..0] == [];
    }
  }

  /** Splitting on a character and re-emitting every piece with that character
      after it gives back the input with one extra trailing character. */
  lemma {:induction false} TerminatedSplit(s: string, sep: char)
    ensures Terminated(Split(s, sep), sep) == s + [sep]
    decreases |s|
  {
    if s == [] {
      assert Terminated([""], sep) == Terminated([], sep) + "" + [sep];
    } else {
      var rest := Split(s[1..], sep);
      TerminatedSplit(s[1..], sep);
      assert Terminated(rest, sep) == s[1..] + [sep];
      assert s + [sep] == [s[0]] + (s[1..] + [sep]);
      if s[0] == sep {
        assert Split(s, sep) == [""] + rest;
        TerminatedCons("", rest, sep);
        assert "" + [sep] == [s[0]];
      } else {
        assert Split(s, sep) == [[s[0]] + rest[0]] + rest[1..];
        TerminatedExtendFirst(s[0], rest, sep);
      }
    }
  }

  /** Prepending a character to the first piece prepends it to the terminated text. */
  lemma TerminatedExtendFirst(c: char, parts: seq<string>, term: char)
    requires |parts| >= 1
    ensures Terminated([[c] + parts[0]] + parts[1..], term) == [c] + Terminated(parts, term)
  {
    TerminatedCons([c] + parts[0], parts[1..], term);
    TerminatedCons(parts[0], parts[1..], term);
    assert parts == [parts[0]] + parts[1..];
  }

  /** Joining pieces back with the separator inverts Split. */
  lemma {:induction false} JoinSplit(s: string, sep: char)
    ensures Join(Split(s, sep), [sep]) == s
    decreases |s|
  {
    if s != [] {
      var rest := Split(s[1..], sep);
      JoinSplit(s[1..], sep);
      if s[0] == sep {
        assert s == [sep] + s[1..];
      } else {
        assert s == [s[0]] + s[1..];
        if |rest| > 1 {
          assert Join(rest, [sep]) == rest[0] + [sep] + Join(rest[1..], [sep]);
        }
      }
    }
  }

  /** Splitting a join of separator-free pieces gives the pieces back. */
  lemma {:induction false} SplitJoin(parts: seq<string>, sep: char)
    requires |parts| >= 1
    requires forall k :: 0 <= k < |parts| ==> sep !in parts[k]
    ensures Split(Join(parts, [sep]), sep) == parts
    decreases |parts|
  {
    if |parts| == 1 {
      SplitNoSep(parts[0], sep);
    } else {
      SplitJoin(parts[1..], sep);
      SplitPrefix(parts[0], Join(parts[1..], [sep]), sep);
      assert parts == [parts[0]] + parts[1..];
    }
  }

  lemma {:induction false} SplitNoSep(s: string, sep: char)
    requires sep !in s
    ensures Split(s, sep) == [s]
    decreases |s|
  {
    if s != [] {
      SplitNoSep(s[1..], sep);
      assert s == [s[0]] + s[1..];
    }
  }

  /** A separator-free prefix followed by the separator becomes one piece. */
  lemma {:induction false} SplitPrefix(p: string, rest: string, sep: char)
    requires sep !in p
    ensures Split(p + [sep] + rest, sep) == [p] + Split(rest, sep)
    decreases |p|
  {
    var s := p + [sep] + rest;
    if p == [] {
      assert s[1..] == rest;
    } else {
      assert s[1..] == p[1..] + [sep] + rest;
      SplitPrefix(p[1..], rest, sep);
      assert p == [p[0]] + p[1..];
    }
  }

  /** JavaScript `split` yields one more piece than there are separators. */
  function CountChar(s: string, c: char): nat {
    if s == [] then 0 else (if s[0] == c then 1 else 0) + CountChar(s[1..], c)
  }

  lemma {:induction false} SplitCount(s: string, sep: char)
    ensures |Split(s, sep)| == CountChar(s, sep) + 1
    decreases |s|
  {
    if s != [] {
      SplitCount(s[1..], sep);
    }
  }

  // ---------------------------------------------------------------------------
  // Concatenation of many strings (`sections.join('')`)
  // ---------------------------------------------------------------------------

  function Concat(parts: seq<string>): string {
    if parts == [] then "" else Concat(parts[..|parts| - 1]) + parts[|parts| - 1]
  }

  lemma {:induction false} ConcatAppend(a: seq<string>, b: seq<string>)
    ensures Concat(a + b) == Concat(a) + Concat(b)
    decreases |b|
  {
    if b == [] {
      assert a + b == a;
    } else {
      var init, last := b[..|b| - 1], b[|b| - 1];
      assert (a + b)[..|a + b| - 1] == a + init && (a + b)[|a + b| - 1] == last;
      assert Concat(a + b) == Concat(a + init) + last;
      ConcatAppend(a, init);
      assert Concat(b) == Concat(init) + last;
    }
  }

  lemma ConcatPair(a: string, b: string)
    ensures Concat([a, b]) == a + b
  {
    assert [a, b][..1] == [a];
    assert [a][..0] == [];
    assert Concat([a]) == Concat([]) + a;
    assert Concat([a, b]) == Concat([a]) + b;
  }

  /** Every piece of a concatenation occurs in it. */
  lemma {:induction false} ConcatContainsPart(parts: seq<string>, k: nat)
    requires k < |parts|
    ensures exists i :: OccursAt(Concat(parts), parts[k], i)
    decreases |parts|
  {
    var init := parts[..|parts| - 1];
    if k == |parts| - 1 {
      assert OccursAt(Concat(parts), parts[k], |Concat(init)|);
    } else {
      ConcatContainsPart(init, k);
      var i :| OccursAt(Concat(init), parts[k], i);
      assert Concat(parts)[i..i + |parts[k]|] == Concat(init)[i..i + |parts[k]|];
      assert OccursAt(Concat(parts), parts[k], i);
    }
  }
}
