/** Character and string helpers shared by the Python back end and the
    JavaScript front end: ASCII digit strings (`str.isdigit`, `int`,
    `parseInt`, `String(n)`), ASCII case mapping (`lower`, `upper`),
    whitespace splitting (`str.split()`, `str.split(' ', 1)`) and
    `padStart(2, '0')`. Each language's own whitespace table is used. */
module Text {
  import opened Wrappers

  /** Python's `str.isspace()`, the separators of `str.split()`: the ASCII
      controls tab to carriage return, the four information separators
      0x1C-0x1F, space, and the Unicode spaces and line separators. */
  predicate IsSpace(c: char) {
    || '\t' <= c <= '\r'
    || '\U{001C}' <= c <= ' '
    || c == '\U{0085}' || c == '\U{00A0}' || c == '\U{1680}'
    || '\U{2000}' <= c <= '\U{200A}'
    || c == '\U{2028}' || c == '\U{2029}' || c == '\U{202F}' || c == '\U{205F}' || c == '\U{3000}'
  }

  /** The whitespace JavaScript's `parseInt` skips (`StrWhiteSpaceChar` of
      ECMA-262): tab, line feed, vertical tab, form feed, carriage return,
      the space separators, the line separators and the byte order mark.
      Unlike Python it excludes 0x1C-0x1F and U+0085. */
  predicate IsJsSpace(c: char) {
    || '\t' <= c <= '\r'
    || c == ' ' || c == '\U{00A0}' || c == '\U{1680}'
    || '\U{2000}' <= c <= '\U{200A}'
    || c == '\U{2028}' || c == '\U{2029}' || c == '\U{202F}' || c == '\U{205F}' || c == '\U{3000}'
    || c == '\U{FEFF}'
  }

  /** The two whitespace tables differ: an information separator splits a
      word for Python but is not skipped by `parseInt`. */
  lemma WhitespaceTablesDiffer()
    ensures IsSpace('\U{001C}') && !IsJsSpace('\U{001C}')
    ensures IsJsSpace('\U{FEFF}') && !IsSpace('\U{FEFF}')
  {
  }

  predicate NoSpace(s: string) {
    forall i :: 0 <= i < |s| ==> !IsSpace(s[i])
  }

  predicate IsDigit(c: char) {
    '0' <= c <= '9'
  }

  /** Python's `str.isdigit()` on ASCII text: non-empty and made only of digits. */
  predicate IsDigits(s: string) {
    |s| > 0 && forall i :: 0 <= i < |s| ==> IsDigit(s[i])
  }

  /** Value of `c` as a digit of radix up to 16; 16 when it is no such digit. */
  function DigitValue(c: char): nat {
    if '0' <= c <= '9' then c as int - '0' as int
    else if 'a' <= c <= 'f' then c as int - 'a' as int + 10
    else if 'A' <= c <= 'F' then c as int - 'A' as int + 10
    else 16
  }

  predicate IsDigitIn(c: char, radix: nat) {
    DigitValue(c) < radix
  }

  predicate AllDigitsIn(s: string, radix: nat) {
    forall i :: 0 <= i < |s| ==> IsDigitIn(s[i], radix)
  }

  /** Positional value of a digit string, most significant digit first. */
  function ValueIn(s: string, radix: nat): nat
    requires AllDigitsIn(s, radix)
    decreases |s|
  {
    if s == [] then 0 else ValueIn(s[..|s| - 1], radix) * radix + DigitValue(s[|s| - 1])
  }

  /** Python's `int(s)` on a string that `IsDigits` accepts. */
  function DecimalValue(s: string): nat
    requires IsDigits(s)
  {
    ValueIn(s, 10)
  }

  function DigitChar(d: int): char
    requires 0 <= d < 10
  {
    ('0' as int + d) as char
  }

  /** Decimal rendering of a natural number (`str(n)`, `String(n)`). */
  function NatToString(n: nat): (s: string)
    ensures IsDigits(s)
    ensures |s| > 1 ==> s[0] != '0'
    decreases n
  {
    if n < 10 then [DigitChar(n)] else NatToString(n / 10) + [DigitChar(n % 10)]
  }

  /** Reading back a rendered number gives the number. */
  lemma {:induction false} NatToStringRoundTrip(n: nat)
    ensures DecimalValue(NatToString(n)) == n
    decreases n
  {
    if n >= 10 {
      var s := NatToString(n);
      assert s[..|s| - 1] == NatToString(n / 10);
      assert DigitValue(s[|s| - 1]) == n % 10;
      NatToStringRoundTrip(n / 10);
      assert ValueIn(s, 10) == ValueIn(NatToString(n / 10), 10) * 10 + n % 10;
    }
  }

  /** The value of a four-digit year, digit by digit. */
  lemma FourDigitValue(s: string)
    requires |s| == 4 && IsDigits(s)
    ensures DecimalValue(s) == 1000 * DigitValue(s[0]) + 100 * DigitValue(s[1]) + 10 * DigitValue(s[2]) + DigitValue(s[3])
  {
    assert s[..3][..2] == s[..2];
    assert s[..2][..1] == s[..1];
    assert s[..1][..0] == [];
    assert s[..4] == s;
    assert ValueIn(s[..1], 10) == DigitValue(s[0]);
    assert ValueIn(s[..2], 10) == ValueIn(s[..1], 10) * 10 + DigitValue(s[1]);
    assert ValueIn(s[..3], 10) == ValueIn(s[..2], 10) * 10 + DigitValue(s[2]);
    assert ValueIn(s, 10) == ValueIn(s[..3], 10) * 10 + DigitValue(s[3]);
  }

  /** Leading whitespace removed (the first step of `parseInt`). */
  function DropSpaces(s: string): (r: string)
    ensures |r| <= |s| && r == s[|s| - |r|..]
    ensures r == [] || !IsJsSpace(r[0])
    ensures forall i :: 0 <= i < |s| - |r| ==> IsJsSpace(s[i])
  {
    if s != [] && IsJsSpace(s[0]) then DropSpaces(s[1..]) else s
  }

  /** The longest prefix of `s` made of digits of the given radix. */
  function DigitPrefix(s: string, radix: nat): (r: string)
    ensures |r| <= |s| && r == s[..|r|]
    ensures AllDigitsIn(r, radix)
    ensures |r| < |s| ==> !IsDigitIn(s[|r|], radix)
  {
    if s != [] && IsDigitIn(s[0], radix) then [s[0]] + DigitPrefix(s[1..], radix) else []
  }

  /** JavaScript's `parseInt(s)` without a radix argument: leading whitespace is
      skipped, one sign is read, a `0x`/`0X` prefix selects radix 16, and the
      longest run of digits that follows is read; no digit at all is `NaN`,
      written `None`. Trailing characters are ignored. */
  function ParseInt(s: string): Option<int> {
    var t := DropSpaces(s);
    var sign := if t != [] && t[0] == '-' then -1 else 1;
    var u := if t != [] && (t[0] == '-' || t[0] == '+') then t[1..] else t;
    var hex := |u| >= 2 && u[0] == '0' && (u[1] == 'x' || u[1] == 'X');
    var radix := if hex then 16 else 10;
    var digits := DigitPrefix(if hex then u[2..] else u, radix);
    if digits == [] then None else Some(sign * ValueIn(digits, radix))
  }

  /** On a plain digit string `parseInt` and Python's `int` agree. */
  lemma ParseIntOfDigits(s: string)
    requires IsDigits(s)
    ensures ParseInt(s) == Some(DecimalValue(s))
  {
    assert IsDigit(s[0]) && !IsJsSpace(s[0]);
    assert DropSpaces(s) == s;
    assert s[0] != '-' && s[0] != '+';
    assert !(|s| >= 2 && s[0] == '0' && (s[1] == 'x' || s[1] == 'X')) by {
      if |s| >= 2 { assert IsDigit(s[1]); }
    }
    assert AllDigitsIn(s, 10) by {
      forall i | 0 <= i < |s| ensures IsDigitIn(s[i], 10) { assert IsDigit(s[i]); }
    }
    DigitPrefixOfDigits(s, 10);
  }

  lemma {:induction false} DigitPrefixOfDigits(s: string, radix: nat)
    requires AllDigitsIn(s, radix)
    ensures DigitPrefix(s, radix) == s
    decreases |s|
  {
    if s != [] {
      assert AllDigitsIn(s[1..], radix) by {
        forall i | 0 <= i < |s| - 1 ensures IsDigitIn(s[1..][i], radix) { assert s[1..][i] == s[i + 1]; }
      }
      DigitPrefixOfDigits(s[1..], radix);
      assert [s[0]] + s[1..] == s;
    }
  }

  /** `parseInt` stops at the first non-digit: `"2027abc"` reads as 2027,
      where Python's `isdigit` refuses the whole string. */
  lemma ParseIntIgnoresTail(d: string, tail: string)
    requires IsDigits(d)
    requires tail != [] && !IsDigit(tail[0]) && tail[0] != 'x' && tail[0] != 'X'
    ensures ParseInt(d + tail) == Some(DecimalValue(d))
    ensures !IsDigits(d + tail)
  {
    var s := d + tail;
    assert s[0] == d[0] && IsDigit(s[0]) && !IsJsSpace(s[0]);
    assert DropSpaces(s) == s;
    assert !IsDigit(s[|d|]);
    var p := DigitPrefix(s, 10);
    assert p == d;
  }

  /** `parseInt(String(n)) === n` for every natural number. */
  lemma ParseIntRoundTrip(n: nat)
    ensures ParseInt(NatToString(n)) == Some(n)
  {
    ParseIntOfDigits(NatToString(n));
    NatToStringRoundTrip(n);
  }

  function LowerChar(c: char): char {
    if 'A' <= c <= 'Z' then (c as int + 32) as char else c
  }

  function UpperChar(c: char): char {
    if 'a' <= c <= 'z' then (c as int - 32) as char else c
  }

  /** Python's `str.lower()` on ASCII letters. */
  function Lower(s: string): (r: string)
    ensures |r| == |s|
  {
    seq(|s|, i requires 0 <= i < |s| => LowerChar(s[i]))
  }

  /** Python's `str.upper()` on ASCII letters. */
  function Upper(s: string): (r: string)
    ensures |r| == |s|
  {
    seq(|s|, i requires 0 <= i < |s| => UpperChar(s[i]))
  }

  /** The comparison `a.lower() == b.lower()`. */
  predicate SameIgnoringCase(a: string, b: string) {
    Lower(a) == Lower(b)
  }

  /** Upper-casing leaves no lower-case ASCII letter and loses no information
      a case-insensitive comparison looks at. */
  lemma UpperKeepsCaseInsensitiveIdentity(s: string)
    ensures forall i :: 0 <= i < |Upper(s)| ==> !('a' <= Upper(s)[i] <= 'z')
    ensures SameIgnoringCase(Upper(s), s)
  {
  }

  /** The leading run of non-space characters of `s`. */
  function Word(s: string): (w: string)
    ensures |w| <= |s| && w == s[..|w|]
    ensures NoSpace(w)
    ensures |w| < |s| ==> IsSpace(s[|w|])
  {
    if s == [] || IsSpace(s[0]) then [] else [s[0]] + Word(s[1..])
  }

  /** Python's `s.split()`: the maximal runs of non-space characters, in order. */
  function Split(s: string): (ws: seq<string>)
    ensures forall i :: 0 <= i < |ws| ==> ws[i] != [] && NoSpace(ws[i])
    decreases |s|
  {
    if s == [] then []
    else if IsSpace(s[0]) then Split(s[1..])
    else
      var w := Word(s);
      [w] + Split(s[|w|..])
  }

  /** Words joined by single spaces. */
  function JoinWords(ws: seq<string>): string {
    if ws == [] then ""
    else if |ws| == 1 then ws[0]
    else ws[0] + " " + JoinWords(ws[1..])
  }

  lemma {:induction false} WordOfPrefix(w: string, rest: string)
    requires NoSpace(w)
    requires rest == [] || IsSpace(rest[0])
    ensures Word(w + rest) == w
    decreases |w|
  {
    if w != [] {
      assert (w + rest)[1..] == w[1..] + rest;
      WordOfPrefix(w[1..], rest);
    }
  }

  /** Splitting words joined by spaces gives back the words. */
  lemma {:induction false} SplitJoinRoundTrip(ws: seq<string>)
    requires forall i :: 0 <= i < |ws| ==> ws[i] != [] && NoSpace(ws[i])
    ensures Split(JoinWords(ws)) == ws
    decreases |ws|
  {
    if |ws| == 1 {
      WordOfPrefix(ws[0], []);
      assert ws[0] + [] == ws[0];
      assert ws[0][|ws[0]|..] == [];
    } else if |ws| > 1 {
      var rest := JoinWords(ws[1..]);
      var s := ws[0] + " " + rest;
      WordOfPrefix(ws[0], " " + rest);
      assert s == ws[0] + (" " + rest);
      assert s[|ws[0]|..] == " " + rest;
      assert (" " + rest)[1..] == rest;
      SplitJoinRoundTrip(ws[1..]);
      assert Split(s) == [ws[0]] + ws[1..];
    }
  }

  /** `s` is a run of whitespace, possibly empty. */
  predicate AllSpace(s: string) {
    forall i :: 0 <= i < |s| ==> IsSpace(s[i])
  }

  /** The words `ws` with the separator `seps[i]` before word `i` and
      `seps[|ws|]` after the last: `seps[0] + ws[0] + seps[1] + ... + seps[|ws|]`. */
  function Spaced(ws: seq<string>, seps: seq<string>): string
    requires |seps| == |ws| + 1
    decreases |ws|
  {
    if ws == [] then seps[0] else seps[0] + ws[0] + Spaced(ws[1..], seps[1..])
  }

  /** Separators as a user may type them: whitespace runs, non-empty between
      two words, anything (empty included) before the first and after the last. */
  predicate Separators(seps: seq<string>, n: nat) {
    && |seps| == n + 1
    && (forall i :: 0 <= i <= n ==> AllSpace(seps[i]))
    && forall i :: 0 < i < n ==> seps[i] != []
  }

  /** Leading whitespace is skipped by `split()`. */
  lemma {:induction false} SplitSkipsSpace(sp: string, rest: string)
    requires AllSpace(sp)
    ensures Split(sp + rest) == Split(rest)
    decreases |sp|
  {
    if sp != [] {
      assert (sp + rest)[0] == sp[0];
      assert (sp + rest)[1..] == sp[1..] + rest;
      assert AllSpace(sp[1..]) by {
        forall i | 0 <= i < |sp| - 1 ensures IsSpace(sp[1..][i]) { assert sp[1..][i] == sp[i + 1]; }
      }
      SplitSkipsSpace(sp[1..], rest);
      assert IsSpace((sp + rest)[0]);
    } else {
      assert sp + rest == rest;
    }
  }

  /** A word followed by whitespace or the end is the next field of `split()`. */
  lemma SplitTakesWord(w: string, rest: string)
    requires w != [] && NoSpace(w)
    requires rest == [] || IsSpace(rest[0])
    ensures Split(w + rest) == [w] + Split(rest)
  {
    WordOfPrefix(w, rest);
    var s := w + rest;
    assert s[0] == w[0];
    assert s[|w|..] == rest;
  }

  /** `split()` gives back the words however they are separated: leading and
      trailing whitespace and runs of several whitespace characters of any
      kind are all dropped. */
  lemma {:induction false} SplitSpacedRoundTrip(ws: seq<string>, seps: seq<string>)
    requires forall i :: 0 <= i < |ws| ==> ws[i] != [] && NoSpace(ws[i])
    requires Separators(seps, |ws|)
    ensures Split(Spaced(ws, seps)) == ws
    decreases |ws|
  {
    if ws == [] {
      SplitSkipsSpace(seps[0], []);
      assert seps[0] + [] == seps[0];
    } else {
      var rest := Spaced(ws[1..], seps[1..]);
      assert Separators(seps[1..], |ws| - 1) by {
        assert forall i :: 0 <= i < |seps| - 1 ==> seps[1..][i] == seps[i + 1];
      }
      if |ws| > 1 {
        assert rest == seps[1] + ws[1] + Spaced(ws[2..], seps[2..]);
        assert rest[0] == seps[1][0];
      } else {
        assert rest == seps[1];
      }
      SplitSpacedRoundTrip(ws[1..], seps[1..]);
      SplitTakesWord(ws[0], rest);
      assert Spaced(ws, seps) == seps[0] + (ws[0] + rest);
      SplitSkipsSpace(seps[0], ws[0] + rest);
      assert [ws[0]] + ws[1..] == ws;
    }
  }

  /** Python's `s.split(' ', 1)` read as `(parts[0], parts[1] or '')`: the text
      before and after the first space, or the whole text and `''`. */
  function SplitAtFirstSpace(s: string): (parts: (string, string))
    ensures ' ' in s ==> parts.0 + " " + parts.1 == s && ' ' !in parts.0
    ensures ' ' !in s ==> parts == (s, "")
  {
    if s == [] then ("", "")
    else if s[0] == ' ' then ("", s[1..])
    else
      var tail := SplitAtFirstSpace(s[1..]);
      assert s == [s[0]] + s[1..];
      ([s[0]] + tail.0, tail.1)
  }

  /** JavaScript's `s.padStart(2, '0')`. */
  function PadTwo(s: string): (r: string)
    ensures |r| == if |s| >= 2 then |s| else 2
    ensures r[|r| - |s|..] == s
    ensures forall i :: 0 <= i < |r| - |s| ==> r[i] == '0'
  {
    if |s| >= 2 then s else seq(2 - |s|, _ => '0') + s
  }
}
