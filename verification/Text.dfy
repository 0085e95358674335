/** The string operations the annotations are written and read with: split and join, decimal integers, trimming. */
module Text {
  import opened Wrappers

  // ---------- strings.Split and strings.Join on one separator character ----------

  function Split(s: string, sep: char): (parts: seq<string>)
    ensures |parts| > 0
  {
    if s == "" then [""]
    else
      var rest := Split(s[1..], sep);
      if s[0] == sep then [""] + rest else [[s[0]] + rest[0]] + rest[1..]
  }

  function Join(parts: seq<string>, sep: char): string {
    if |parts| == 0 then ""
    else if |parts| == 1 then parts[0]
    else parts[0] + [sep] + Join(parts[1..], sep)
  }

  /** Splitting takes a string apart at every separator and loses nothing. */
  lemma {:induction false} JoinSplit(s: string, sep: char)
    ensures Join(Split(s, sep), sep) == s
    ensures forall i :: 0 <= i < |Split(s, sep)| ==> sep !in Split(s, sep)[i]
  {
    if s != "" {
      JoinSplit(s[1..], sep);
      var rest := Split(s[1..], sep);
      assert s == [s[0]] + s[1..];
      if s[0] != sep && |rest| > 1 {
        assert ([[s[0]] + rest[0]] + rest[1..])[1..] == rest[1..];
      }
    }
  }

  lemma {:induction false} SplitPlain(s: string, sep: char)
    requires sep !in s
    ensures Split(s, sep) == [s]
  {
    if s != "" {
      SplitPlain(s[1..], sep);
      assert s == [s[0]] + s[1..];
    }
  }

  lemma {:induction false} SplitHead(s: string, sep: char, t: string)
    requires sep !in s
    ensures Split(s + [sep] + t, sep) == [s] + Split(t, sep)
  {
    var all := s + [sep] + t;
    if s == "" {
      assert all[1..] == t;
    } else {
      assert all[1..] == s[1..] + [sep] + t;
      SplitHead(s[1..], sep, t);
      assert s == [s[0]] + s[1..];
    }
  }

  /** Joining is undone by splitting when no part holds the separator. */
  lemma {:induction false} SplitJoin(parts: seq<string>, sep: char)
    requires |parts| > 0
    requires forall i :: 0 <= i < |parts| ==> sep !in parts[i]
    ensures Split(Join(parts, sep), sep) == parts
  {
    if |parts| == 1 {
      SplitPlain(parts[0], sep);
      assert parts == [parts[0]];
    } else {
      SplitHead(parts[0], sep, Join(parts[1..], sep));
      SplitJoin(parts[1..], sep);
    }
  }

  lemma SplitLastStep(x: char, rest: seq<string>, sep: char, c: char)
    requires rest != []
    ensures var grown := rest[..|rest| - 1] + [rest[|rest| - 1] + [c]];
      && grown != []
      && [""] + grown == ([""] + rest)[..|rest|] + [([""] + rest)[|rest|] + [c]]
      && var parts := [[x] + rest[0]] + rest[1..];
         [[x] + grown[0]] + grown[1..] == parts[..|parts| - 1] + [parts[|parts| - 1] + [c]]
  {
    if |rest| == 1 { assert [x] + (rest[0] + [c]) == ([x] + rest[0]) + [c]; }
  }

  lemma {:induction false} SplitLast(s: string, sep: char, c: char)
    requires c != sep
    ensures var parts := Split(s, sep);
      Split(s + [c], sep) == parts[..|parts| - 1] + [parts[|parts| - 1] + [c]]
  {
    var parts := Split(s, sep);
    if s == "" {
      assert s + [c] == [c];
      SplitPlain([c], sep);
      assert "" + [c] == [c];
    } else {
      SplitLast(s[1..], sep, c);
      assert (s + [c])[1..] == s[1..] + [c];
      SplitLastStep(s[0], Split(s[1..], sep), sep, c);
    }
  }

  /** Every part of a split only holds characters of the whole. */
  lemma {:induction false} SplitChars(s: string, sep: char, i: nat, c: char)
    requires i < |Split(s, sep)| && c in Split(s, sep)[i]
    ensures c in s
  {
    if s != "" {
      var rest := Split(s[1..], sep);
      if s[0] == sep {
        if i > 0 { SplitChars(s[1..], sep, i - 1, c); }
      } else if i == 0 {
        if c != s[0] { SplitChars(s[1..], sep, 0, c); }
      } else {
        SplitChars(s[1..], sep, i, c);
      }
    }
  }

  /** Split yields one part more than there are separators; it is [s] exactly when there is none. */
  lemma {:induction false} SplitFindsSeparator(s: string, sep: char)
    ensures |Split(s, sep)| == 1 <==> sep !in s
  {
    if s != "" { SplitFindsSeparator(s[1..], sep); }
  }

  /** The first part ends at the first separator, or is the whole string. */
  lemma {:induction false} SplitHeads(s: string, sep: char)
    ensures var head := Split(s, sep)[0];
      sep !in head && (head == s || head + [sep] <= s)
  {
    if s != "" { SplitHeads(s[1..], sep); }
  }

  lemma {:induction false} JoinAvoids(parts: seq<string>, sep: char, c: char)
    requires c != sep && forall i :: 0 <= i < |parts| ==> c !in parts[i]
    ensures c !in Join(parts, sep)
  {
    if |parts| > 1 { JoinAvoids(parts[1..], sep, c); }
  }

  // ---------- strings.TrimSpace and strings.TrimSuffix ----------

  /** unicode.IsSpace. */
  predicate IsSpace(c: char) {
    '\t' <= c <= '\r' || c == ' ' || c == '\U{0085}' || c == '\U{00A0}' || c == '\U{1680}'
    || '\U{2000}' <= c <= '\U{200A}' || c == '\U{2028}' || c == '\U{2029}' || c == '\U{202F}'
    || c == '\U{205F}' || c == '\U{3000}'
  }

  function TrimLeft(s: string): string {
    if s != "" && IsSpace(s[0]) then TrimLeft(s[1..]) else s
  }

  function TrimRight(s: string): string {
    if s != "" && IsSpace(s[|s| - 1]) then TrimRight(s[..|s| - 1]) else s
  }

  function TrimSpace(s: string): string {
    TrimRight(TrimLeft(s))
  }

  predicate NoSpace(s: string) {
    forall i :: 0 <= i < |s| ==> !IsSpace(s[i])
  }

  lemma TrimNothing(s: string)
    requires NoSpace(s)
    ensures TrimSpace(s) == s
  {
  }

  predicate Blank(s: string) {
    forall i :: 0 <= i < |s| ==> IsSpace(s[i])
  }

  lemma {:induction false} TrimLeftBlank(b: string, t: string)
    requires Blank(b)
    ensures TrimLeft(b + t) == TrimLeft(t)
  {
    if b == "" {
      assert b + t == t;
    } else {
      TrimLeftBlank(b[1..], t);
      assert (b + t)[1..] == b[1..] + t;
    }
  }

  lemma {:induction false} TrimRightBlank(t: string, b: string)
    requires Blank(b)
    ensures TrimRight(t + b) == TrimRight(t)
  {
    if b == "" {
      assert t + b == t;
    } else {
      TrimRightBlank(t, b[..|b| - 1]);
      assert (t + b)[..|t + b| - 1] == t + b[..|b| - 1];
    }
  }

  /** Trimming takes away all blanks around a text that begins and ends with something else. */
  lemma TrimAround(b: string, t: string, b': string)
    requires Blank(b) && Blank(b') && t != "" && !IsSpace(t[0]) && !IsSpace(t[|t| - 1])
    ensures TrimSpace(b + t + b') == t
  {
    assert b + t + b' == b + (t + b');
    TrimLeftBlank(b, t + b');
    assert (t + b')[0] == t[0];
    TrimRightBlank(t, b');
  }

  lemma {:induction false} TrimLeftLast(s: string, c: char)
    ensures TrimLeft(s + [c]) == if TrimLeft(s) == "" then TrimLeft([c]) else TrimLeft(s) + [c]
  {
    if s == "" {
      assert s + [c] == [c];
    } else {
      TrimLeftLast(s[1..], c);
      assert (s + [c])[1..] == s[1..] + [c];
    }
  }

  /** A blank before or after a text does not change what trimming leaves. */
  lemma TrimOneBlank(s: string, c: char)
    requires IsSpace(c)
    ensures TrimSpace([c] + s) == TrimSpace(s) == TrimSpace(s + [c])
  {
    assert ([c] + s)[1..] == s;
    TrimLeftLast(s, c);
    assert [c][1..] == "";
    if TrimLeft(s) != "" { assert (TrimLeft(s) + [c])[..|TrimLeft(s)|] == TrimLeft(s); }
  }

  function TrimSuffix(s: string, c: char): string {
    if s != "" && s[|s| - 1] == c then s[..|s| - 1] else s
  }

  predicate HasSuffix(s: string, suffix: string) {
    |suffix| <= |s| && s[|s| - |suffix|..] == suffix
  }

  // ---------- strconv.Itoa and strconv.ParseInt in base 10 ----------

  predicate IsDigit(c: char) {
    '0' <= c <= '9'
  }

  function Digit(d: nat): (c: char)
    requires d < 10
    ensures IsDigit(c) && c as int - '0' as int == d
  {
    ('0' as int + d) as char
  }

  function Digits(n: nat): string {
    if n < 10 then [Digit(n)] else Digits(n / 10) + [Digit(n % 10)]
  }

  function Itoa(n: int): string {
    if n < 0 then "-" + Digits(-n) else Digits(n)
  }

  predicate AllDigits(s: string) {
    forall i :: 0 <= i < |s| ==> IsDigit(s[i])
  }

  function DigitsValue(s: string): (v: int)
    requires AllDigits(s)
    ensures v >= 0
  {
    if s == "" then 0 else 10 * DigitsValue(s[..|s| - 1]) + (s[|s| - 1] as int - '0' as int)
  }

  /** The largest signed integer of bits bits. */
  function IntMax(bits: nat): (m: int)
    requires bits > 0
    ensures m >= 0
  {
    if bits == 1 then 0 else 2 * IntMax(bits - 1) + 1
  }

  lemma {:induction false} IntMaxGrows(a: nat, b: nat)
    requires 0 < a <= b
    ensures IntMax(a) <= IntMax(b)
  {
    if a < b { IntMaxGrows(a, b - 1); }
  }

  /** strconv.ParseInt(s, 10, bits): an optional sign, then digits, and the value must fit a signed integer of bits bits. */
  function ParseInt(s: string, bits: nat): Option<int>
    requires bits > 0
  {
    var signed := s != "" && (s[0] == '-' || s[0] == '+');
    var digits := if signed then s[1..] else s;
    if digits == "" || !AllDigits(digits) then None
    else
      var v := if signed && s[0] == '-' then -DigitsValue(digits) else DigitsValue(digits);
      if -IntMax(bits) - 1 <= v <= IntMax(bits) then Some(v) else None
  }

  /** strconv.Atoi on a 64-bit platform. */
  function Atoi(s: string): Option<int> {
    ParseInt(s, 64)
  }

  lemma {:induction false} DigitsRoundTrip(n: nat)
    ensures Digits(n) != "" && AllDigits(Digits(n)) && DigitsValue(Digits(n)) == n
  {
    if n >= 10 {
      DigitsRoundTrip(n / 10);
      assert Digits(n)[..|Digits(n)| - 1] == Digits(n / 10);
    } else {
      assert Digits(n)[..0] == "";
    }
  }

  /** A printed integer reads back as itself, and is made of digits and at most one leading minus sign. */
  lemma ItoaRoundTrip(n: int, bits: nat)
    requires bits > 0 && -IntMax(bits) - 1 <= n <= IntMax(bits)
    ensures ParseInt(Itoa(n), bits) == Some(n)
  {
    DigitsRoundTrip(if n < 0 then -n else n);
    if n < 0 {
      assert Itoa(n)[1..] == Digits(-n);
    } else {
      assert IsDigit(Itoa(n)[0]);
    }
  }

  lemma ItoaChars(n: int)
    ensures Itoa(n) != ""
    ensures forall i :: 0 <= i < |Itoa(n)| ==> IsDigit(Itoa(n)[i]) || Itoa(n)[i] == '-'
    ensures n >= 0 ==> AllDigits(Itoa(n))
  {
    DigitsRoundTrip(if n < 0 then -n else n);
  }
}
