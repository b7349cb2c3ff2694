/** copyValue of internal/transfer/archive.go against the text escaper of PostgreSQL's COPY. */
module CopyText {
  import opened Common

  // A byte is written as the character of the same code.

  /** The letters that COPY escapes after a backslash. */
  function Letter(c: char): Option<char> {
    if c == 'b' then Some('\U{8}')
    else if c == 'f' then Some('\U{c}')
    else if c == 'n' then Some('\n')
    else if c == 'r' then Some('\r')
    else if c == 't' then Some('\t')
    else if c == 'v' then Some('\U{b}')
    else None
  }

  /** The value of a digit, 16 when it is none. */
  function Digit(c: char): nat {
    if '0' <= c <= '9' then c as int - '0' as int
    else if 'a' <= c <= 'f' then c as int - 'a' as int + 10
    else if 'A' <= c <= 'F' then c as int - 'A' as int + 10
    else 16
  }

  /** How many of the next most digits still give a number that fits a byte. */
  function Digits(s: string, base: nat, most: nat, value: nat): (n: nat)
    ensures n <= |s| && n <= most
  {
    if most == 0 || s == [] || Digit(s[0]) >= base || value * base + Digit(s[0]) > 255 then 0
    else 1 + Digits(s[1..], base, most - 1, value * base + Digit(s[0]))
  }

  function Value(s: string, base: nat): nat {
    if s == [] then 0 else Value(s[..|s| - 1], base) * base + Digit(s[|s| - 1])
  }

  function Byte(n: nat): char { (n % 256) as char }

  /** The length of a numeric escape behind its backslash, and the byte it stands for. */
  function Numeric(s: string): (r: (nat, Option<char>))
    requires s != []
    ensures 1 <= r.0 <= |s|
  {
    if s[0] == 'x' then
      var n := Digits(s[1..], 16, 2, 0);
      (1 + n, if n == 0 then None else Some(Byte(Value(s[1..1 + n], 16))))
    else
      var n := Digits(s, 8, 3, 0);
      if n == 0 then (1, None) else (n, Some(Byte(Value(s[..n], 8))))
  }

  predicate IsNumeric(c: char) { '0' <= c <= '7' || c == 'x' }

  /** One escape behind its backslash: its length and its value. */
  function Escaped(s: string): (r: (nat, Option<char>))
    requires s != []
    ensures 1 <= r.0 <= |s|
  {
    if Letter(s[0]).Some? then (1, Letter(s[0]))
    else if IsNumeric(s[0]) then Numeric(s)
    else (1, Some(s[0]))
  }

  function Decode(s: string): Option<string>
    decreases |s|
  {
    if s == [] then Some([])
    else if s[0] != '\\' then Prefixed([s[0]], Decode(s[1..]))
    else if |s| == 1 then None
    else
      var e := Escaped(s[1..]);
      if e.1.None? then None else Prefixed([e.1.value], Decode(s[1 + e.0..]))
  }

  // ---- the escaper of the server ----

  function EscapeChar(c: char): string {
    if c == '\\' then "\\\\"
    else if c == '\U{8}' then "\\b"
    else if c == '\U{c}' then "\\f"
    else if c == '\n' then "\\n"
    else if c == '\r' then "\\r"
    else if c == '\t' then "\\t"
    else if c == '\U{b}' then "\\v"
    else [c]
  }

  function Escape(s: string): string { if s == [] then [] else EscapeChar(s[0]) + Escape(s[1..]) }

  lemma EscapeCharShape(c: char)
    ensures var e := EscapeChar(c);
            if |e| == 2 then e[0] == '\\' && Escaped(e[1..]) == (1, Some(c)) else e == [c] && c != '\\'
  {
  }

  lemma EscapedTail(l: char, rest: string)
    requires !IsNumeric(l)
    ensures Escaped([l] + rest) == Escaped([l])
  {
  }

  lemma DecodeEscapePair(l: char, c: char, rest: string)
    requires Escaped([l]) == (1, Some(c)) && !IsNumeric(l)
    ensures Decode(['\\', l] + rest) == Prefixed([c], Decode(rest))
  {
    var s := ['\\', l] + rest;
    EscapedTail(l, rest);
    assert s[1..] == [l] + rest && s[2..] == rest;
  }

  lemma DecodeOne(c: char, rest: string)
    ensures Decode(EscapeChar(c) + rest) == Prefixed([c], Decode(rest))
  {
    var e := EscapeChar(c);
    EscapeCharShape(c);
    if |e| == 2 {
      assert e == ['\\', e[1]] && e[1..] == [e[1]];
      DecodeEscapePair(e[1], c, rest);
    } else {
      assert ([c] + rest)[1..] == rest;
    }
  }

  /** Decoding inverts escaping, for every string. */
  lemma {:induction false} DecodeEscape(s: string)
    ensures Decode(Escape(s)) == Some(s)
  {
    if s != [] {
      DecodeEscape(s[1..]);
      DecodeOne(s[0], Escape(s[1..]));
      assert [s[0]] + s[1..] == s;
    }
  }

  /** A field: null has a mark that no string is escaped to. */
  const NULL := "\\N"

  function Field(v: Option<string>): string { if v.None? then NULL else Escape(v.value) }

  function ReadField(f: string): Option<Option<string>> {
    if f == NULL then Some(None)
    else
      var v := Decode(f);
      if v.None? then None else Some(v)
  }

  lemma {:induction false} EscapeShape(s: string)
    ensures forall c | c in Escape(s) :: c != '\t' && c != '\n' && c != '\r'
    ensures var e := Escape(s); |e| > 1 && e[0] == '\\' ==> e[1] != 'N' && e[1] != '.'
  {
    if s != [] {
      EscapeShape(s[1..]);
    }
  }

  /** Null and strings come back as what they were, the string \N included. */
  lemma FieldRoundTrip(v: Option<string>)
    ensures ReadField(Field(v)) == Some(v)
  {
    if v.Some? {
      DecodeEscape(v.value);
      EscapeShape(v.value);
      assert NULL[0] == '\\' && NULL[1] == 'N';
    }
  }

  // ---- numbered characters ----

  function DigitOf(n: nat): char
    requires n < 16
  {
    if n < 10 then '0' + n as char else 'a' + (n - 10) as char
  }

  lemma DigitRead(n: nat)
    requires n < 16
    ensures Digit(DigitOf(n)) == n
  {
  }

  /** A byte by its number in three octal digits. */
  function Octal(n: nat): string
    requires n < 256
  {
    [DigitOf(n / 64), DigitOf(n / 8 % 8), DigitOf(n % 8)]
  }

  /** A byte by its number in two hexadecimal digits. */
  function Hex(n: nat): string
    requires n < 256
  {
    [DigitOf(n / 16), DigitOf(n % 16)]
  }

  lemma {:induction false} ValueOfTwo(a: char, b: char, base: nat)
    ensures Value([a, b], base) == Digit(a) * base + Digit(b)
  {
    assert [a, b][..1] == [a] && [a][..0] == [];
    assert Value([a], base) == Digit(a);
  }

  lemma {:induction false} ValueOfThree(a: char, b: char, c: char, base: nat)
    ensures Value([a, b, c], base) == (Digit(a) * base + Digit(b)) * base + Digit(c)
  {
    assert [a, b, c][..2] == [a, b];
    ValueOfTwo(a, b, base);
  }

  lemma {:induction false} DigitsNext(s: string, base: nat, most: nat, value: nat)
    requires s != [] && most > 0 && Digit(s[0]) < base && value * base + Digit(s[0]) <= 255
    ensures Digits(s, base, most, value) == 1 + Digits(s[1..], base, most - 1, value * base + Digit(s[0]))
  {
  }

  lemma OctalSum(n: nat)
    ensures (n / 64 * 8 + n / 8 % 8) * 8 + n % 8 == n
  {
    assert n / 64 == n / 8 / 8;
  }

  lemma ThreeDigits(a: char, b: char, c: char, rest: string, n: nat)
    requires Digit(a) < 8 && Digit(b) < 8 && Digit(c) < 8
    requires (Digit(a) * 8 + Digit(b)) * 8 + Digit(c) == n <= 255
    ensures Digits([a, b, c] + rest, 8, 3, 0) == 3
  {
    var s := [a, b, c] + rest;
    assert s[1..] == [b, c] + rest && s[1..][1..] == [c] + rest;
    DigitsNext(s, 8, 3, 0);
    DigitsNext(s[1..], 8, 2, Digit(a));
    DigitsNext(s[1..][1..], 8, 1, Digit(a) * 8 + Digit(b));
  }

  lemma OctalEscaped(a: char, b: char, c: char, rest: string, n: nat)
    requires '0' <= a <= '7' && Digit(b) < 8 && Digit(c) < 8
    requires (Digit(a) * 8 + Digit(b)) * 8 + Digit(c) == n <= 255
    ensures Escaped([a, b, c] + rest) == (3, Some(n as char))
  {
    var s := [a, b, c] + rest;
    ThreeDigits(a, b, c, rest, n);
    ValueOfThree(a, b, c, 8);
    assert s[..3] == [a, b, c] && s[0] == a;
    assert Letter(a) == None && IsNumeric(a);
  }

  /** Three octal digits after a backslash are the byte of that number, whatever follows. */
  lemma OctalRead(n: nat, rest: string)
    requires n < 256
    ensures Decode("\\" + Octal(n) + rest) == Prefixed([n as char], Decode(rest))
  {
    var a, b, c := DigitOf(n / 64), DigitOf(n / 8 % 8), DigitOf(n % 8);
    DigitRead(n / 64);
    DigitRead(n / 8 % 8);
    DigitRead(n % 8);
    OctalSum(n);
    OctalEscaped(a, b, c, rest, n);
    var whole := "\\" + Octal(n) + rest;
    assert whole[1..] == [a, b, c] + rest && whole[4..] == rest;
  }

  /** And so are two hexadecimal digits after a backslash and an x. */
  lemma HexRead(n: nat, rest: string)
    requires n < 256
    ensures Decode("\\x" + Hex(n) + rest) == Prefixed([n as char], Decode(rest))
  {
    var a, b := DigitOf(n / 16), DigitOf(n % 16);
    DigitRead(n / 16);
    DigitRead(n % 16);
    var t := [a, b] + rest;
    var s := ['x'] + t;
    assert s[1..] == t && t[1..] == [b] + rest && t[1..][1..] == rest;
    DigitsNext(t, 16, 2, 0);
    DigitsNext(t[1..], 16, 1, n / 16);
    assert Digits(t, 16, 2, 0) == 2;
    assert s[1..][..2] == [a, b] && s[1..1 + 2] == [a, b];
    ValueOfTwo(a, b, 16);
    assert Escaped(s) == (3, Some(n as char));
    var whole := "\\x" + Hex(n) + rest;
    assert whole[1..] == s && whole[4..] == rest;
  }

  // ---- when decoding fails ----

  /** What the code rejects: a backslash at the end, or one with an x that no hexadecimal digit follows. */
  predicate Bad(s: string)
    decreases |s|
  {
    s != [] && if s[0] != '\\' then Bad(s[1..])
               else |s| == 1 || (s[1] == 'x' && (|s| == 2 || Digit(s[2]) == 16)) || Bad(s[1 + Escaped(s[1..]).0..])
  }

  lemma EscapedFails(s: string)
    requires s != []
    ensures Escaped(s).1.None? <==> s[0] == 'x' && (|s| == 1 || Digit(s[1]) == 16)
  {
    if s[0] == 'x' {
      assert |s| > 1 ==> s[1..][0] == s[1];
    }
  }

  lemma {:induction false} FailsExactly(s: string)
    ensures Decode(s) == None <==> Bad(s)
    decreases |s|
  {
    if s != [] {
      if s[0] != '\\' {
        FailsExactly(s[1..]);
      } else if |s| > 1 {
        var e := Escaped(s[1..]);
        EscapedFails(s[1..]);
        FailsExactly(s[1 + e.0..]);
      }
    }
  }

  // ---- the loops ----

  /** strconv.ParseUint with eight bits */
  function ParseUint(t: string, base: nat): Option<nat> {
    if t != [] && (forall c | c in t :: Digit(c) < base) && Value(t, base) <= 255 then Some(Value(t, base)) else None
  }

  lemma MoreDigits(s: string, start: nat, end: nat, base: nat)
    requires start <= end < |s| && (start < end ==> ParseUint(s[start..end], base).Some?)
    ensures Value(s[start..end + 1], base) == Value(s[start..end], base) * base + Digit(s[end])
    ensures ParseUint(s[start..end + 1], base).Some? <==> Digit(s[end]) < base && Value(s[start..end + 1], base) <= 255
  {
    var t := s[start..end + 1];
    assert t[..|t| - 1] == s[start..end] && t[|t| - 1] == s[end];
    assert t == s[start..end] + [s[end]];
  }

  function DigitsAt(s: string, base: nat, end: nat, limit: nat, value: nat): (n: nat)
    requires end <= |s|
    ensures n <= |s| - end
    decreases |s| - end
  {
    if end >= limit || end == |s| || Digit(s[end]) >= base || value * base + Digit(s[end]) > 255 then 0
    else 1 + DigitsAt(s, base, end + 1, limit, value * base + Digit(s[end]))
  }

  lemma {:induction false} DigitsAtIs(s: string, base: nat, end: nat, limit: nat, value: nat)
    requires end <= |s| && end <= limit
    ensures DigitsAt(s, base, end, limit, value) == Digits(s[end..], base, limit - end, value)
    decreases |s| - end
  {
    if end < |s| && end < limit {
      assert s[end..][1..] == s[end + 1..];
      DigitsAtIs(s, base, end + 1, limit, value * base + Digit(s[end]));
    }
  }

  method LongestNumber(s: string, base: nat, start: nat, limit: nat) returns (end: nat)
    requires start <= |s| && start <= limit
    ensures end == start + Digits(s[start..], base, limit - start, 0)
  {
    end := start;
    ghost var n := DigitsAt(s, base, start, limit, 0);
    DigitsAtIs(s, base, start, limit, 0);
    while end < |s| && end < limit
      invariant start <= end <= |s|
      invariant start < end ==> ParseUint(s[start..end], base).Some?
      invariant n == end - start + DigitsAt(s, base, end, limit, Value(s[start..end], base))
    {
      MoreDigits(s, start, end, base);
      if ParseUint(s[start..end + 1], base).None? {
        break;
      }
      end := end + 1;
    }
  }

  method ReadNumeric(s: string, i: nat) returns (end: nat, c: Option<char>)
    requires i < |s| && IsNumeric(s[i])
    ensures i < end <= |s| && (end - i, c) == Numeric(s[i..])
  {
    var base, start := 8, i;
    if s[i] == 'x' {
      base := 16;
      start := start + 1;
    }
    var limit := if base == 16 then start + 2 else start + 3;
    end := LongestNumber(s, base, start, limit);
    assert s[i..][start - i..] == s[start..];
    assert s[start..][..end - start] == s[start..end] == s[i..][start - i..end - i];
    if end == start {
      return i + 1, None;
    }
    c := Some(Byte(Value(s[start..end], base)));
  }

  function DecodeAt(s: string, i: nat): Option<string>
    requires i <= |s|
    decreases |s| - i
  {
    if i == |s| then Some([])
    else if s[i] != '\\' then Prefixed([s[i]], DecodeAt(s, i + 1))
    else if i + 1 == |s| then None
    else
      var e := Escaped(s[i + 1..]);
      if e.1.None? then None else Prefixed([e.1.value], DecodeAt(s, i + 1 + e.0))
  }

  lemma {:induction false} DecodeAtIs(s: string, i: nat)
    requires i <= |s|
    ensures DecodeAt(s, i) == Decode(s[i..])
    decreases |s| - i
  {
    if i < |s| {
      assert s[i..][1..] == s[i + 1..];
      if s[i] != '\\' {
        DecodeAtIs(s, i + 1);
      } else if i + 1 < |s| {
        var e := Escaped(s[i + 1..]);
        DecodeAtIs(s, i + 1 + e.0);
        assert s[i..][1 + e.0..] == s[i + 1 + e.0..];
      }
    }
  }

  method CopyValue(s: string) returns (r: Option<string>)
    ensures r == Decode(s)
  {
    var b := [];
    var i := 0;
    DecodeAtIs(s, 0);
    assert s[0..] == s;
    PrefixedNothing(DecodeAt(s, 0));
    while i < |s|
      invariant i <= |s|
      invariant DecodeAt(s, 0) == Prefixed(b, DecodeAt(s, i))
    {
      if s[i] != '\\' {
        PrefixedTwice(b, [s[i]], DecodeAt(s, i + 1));
        b := b + [s[i]];
        i := i + 1;
        continue;
      }
      i := i + 1;
      if i == |s| {
        return None;
      }
      var end, c := i + 1, Letter(s[i]);
      if c.None? {
        if IsNumeric(s[i]) {
          end, c := ReadNumeric(s, i);
          if c.None? {
            return None;
          }
        } else {
          c := Some(s[i]);
        }
      }
      PrefixedTwice(b, [c.value], DecodeAt(s, end));
      b := b + [c.value];
      i := end;
    }
    assert b + [] == b;
    return Some(b);
  }
}
