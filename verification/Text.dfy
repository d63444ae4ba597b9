/** Characters and numbers in text, as the C library reads and prints them in the C locale.
    A character of the program is one byte. */
module Text {
  import opened MachineTypes

  predicate IsSpace(c: char) {
    c == ' ' || '\t' <= c <= '\r'
  }

  /** The white space of the C locale: the space, and tab to carriage return. */
  lemma SpacesAre(c: char)
    ensures IsSpace(c) <==> c as int == 32 || 9 <= c as int <= 13
  {
  }

  predicate IsDigit(c: char) {
    '0' <= c <= '9'
  }

  function DigitValue(c: char): nat
    requires IsDigit(c)
  {
    c as int - '0' as int
  }

  function DigitChar(d: nat): (c: char)
    requires d < 10
    ensures IsDigit(c) && DigitValue(c) == d
  {
    (d + '0' as int) as char
  }

  predicate AllDigits(s: string) {
    forall i :: 0 <= i < |s| ==> IsDigit(s[i])
  }

  // ---------- Decimal numbers ----------

  function Decimal(n: nat): (s: string)
    ensures s != [] && AllDigits(s)
  {
    if n < 10 then [DigitChar(n)] else Decimal(n / 10) + [DigitChar(n % 10)]
  }

  function NumberOf(s: string): nat
    requires AllDigits(s)
  {
    if s == [] then 0 else NumberOf(s[..|s| - 1]) * 10 + DigitValue(s[|s| - 1])
  }

  lemma NumberIsBaseTen(s: string, c: char)
    requires AllDigits(s) && IsDigit(c)
    ensures AllDigits(s + [c]) && NumberOf([]) == 0 && NumberOf(s + [c]) == NumberOf(s) * 10 + (c as int - 48)
  {
    assert (s + [c])[..|s|] == s;
  }

  lemma {:induction false} NumberOfDecimal(n: nat)
    ensures NumberOf(Decimal(n)) == n
  {
    if n < 10 {
      assert Decimal(n)[..0] == [];
    } else {
      NumberOfDecimal(n / 10);
      assert Decimal(n)[..|Decimal(n)| - 1] == Decimal(n / 10);
    }
  }

  /** Numbers are printed in base ten. */
  lemma DecimalIsBaseTen(n: nat)
    ensures Decimal(n) == (if n < 10 then [] else Decimal(n / 10)) + [(48 + n % 10) as char]
  {
  }

  predicate AllSpaces(s: string) {
    forall i :: 0 <= i < |s| ==> IsSpace(s[i])
  }

  // ---------- Reading an integer ----------

  function SkipSpaces(s: string): string {
    if s != [] && IsSpace(s[0]) then SkipSpaces(s[1..]) else s
  }

  /** How many characters at the start of s are digits. */
  function DigitCount(s: string): (n: nat)
    ensures n <= |s| && AllDigits(s[..n])
    ensures n < |s| ==> !IsDigit(s[n])
  {
    if s != [] && IsDigit(s[0]) then
      var n := 1 + DigitCount(s[1..]);
      assert s[..n] == [s[0]] + s[1..][..n - 1];
      n
    else 0
  }

  /** The sign, the digits' value and the unread rest of a text that starts with an integer. */
  datatype Scanned = Scanned(negative: bool, magnitude: nat, rest: string)

  /** What strtol and strtoull read in base 10: spaces, a sign, digits; none without a digit. */
  function Scan(s: string): Option<Scanned> {
    var t := SkipSpaces(s);
    var sign := t != [] && (t[0] == '-' || t[0] == '+');
    var u := if sign then t[1..] else t;
    var n := DigitCount(u);
    if n == 0 then None
    else Some(Scanned(sign && t[0] == '-', NumberOf(u[..n]), u[n..]))
  }

  lemma {:induction false} DigitCountAll(s: string)
    requires AllDigits(s)
    ensures DigitCount(s) == |s|
  {
    if s != [] {
      DigitCountAll(s[1..]);
    }
  }

  lemma ScanDecimal(n: nat)
    ensures Scan(Decimal(n)) == Some(Scanned(false, n, []))
  {
    var s := Decimal(n);
    assert IsDigit(s[0]);
    assert SkipSpaces(s) == s;
    DigitCountAll(s);
    NumberOfDecimal(n);
    assert s[..|s|] == s && s[|s|..] == [];
  }

  // ---------- Spaces around a text ----------

  function DropSpaces(s: string): string {
    if s != [] && IsSpace(s[|s| - 1]) then DropSpaces(s[..|s| - 1]) else s
  }

  function Trim(s: string): string {
    DropSpaces(SkipSpaces(s))
  }

  lemma {:induction false} SkipAllSpaces(a: string, s: string)
    requires AllSpaces(a)
    ensures SkipSpaces(a + s) == SkipSpaces(s)
    decreases |a|
  {
    if a == [] {
      assert a + s == s;
    } else {
      assert (a + s)[0] == a[0] && (a + s)[1..] == a[1..] + s;
      SkipAllSpaces(a[1..], s);
    }
  }

  lemma {:induction false} DropAllSpaces(s: string, b: string)
    requires AllSpaces(b)
    ensures DropSpaces(s + b) == DropSpaces(s)
    decreases |b|
  {
    if b == [] {
      assert s + b == s;
    } else {
      var n := |b| - 1;
      assert (s + b)[..|s + b| - 1] == s + b[..n];
      DropAllSpaces(s, b[..n]);
    }
  }

  lemma FirstSplits(s: string, a: string, rest: string)
    requires s != [] && IsSpace(s[0]) && AllSpaces(a) && s[1..] == a + rest
    ensures AllSpaces([s[0]] + a) && s == [s[0]] + a + rest
  {
    assert s == [s[0]] + s[1..];
    Associates([s[0]], a, rest);
  }

  lemma {:induction false} SkipSpacesSplits(s: string) returns (a: string)
    ensures AllSpaces(a) && s == a + SkipSpaces(s)
    ensures SkipSpaces(s) != [] ==> !IsSpace(SkipSpaces(s)[0])
  {
    if s != [] && IsSpace(s[0]) {
      var a' := SkipSpacesSplits(s[1..]);
      a := [s[0]] + a';
      FirstSplits(s, a', SkipSpaces(s[1..]));
    } else {
      a := [];
    }
  }

  lemma {:induction false} DropSpacesSplits(s: string) returns (b: string)
    ensures AllSpaces(b) && s == DropSpaces(s) + b
    ensures DropSpaces(s) != [] ==> !IsSpace(DropSpaces(s)[|DropSpaces(s)| - 1])
  {
    if s != [] && IsSpace(s[|s| - 1]) {
      var n := |s| - 1;
      var b' := DropSpacesSplits(s[..n]);
      b := b' + [s[n]];
      assert s == s[..n] + [s[n]];
    } else {
      b := [];
      assert s == s + [];
    }
  }

  /** A text is its trimmed form between spaces, and the trimmed form has none at its ends. */
  lemma TrimSplits(s: string) returns (a: string, b: string)
    ensures AllSpaces(a) && AllSpaces(b) && s == a + Trim(s) + b
    ensures Trim(s) != [] ==> !IsSpace(Trim(s)[0]) && !IsSpace(Trim(s)[|Trim(s)| - 1])
  {
    a := SkipSpacesSplits(s);
    b := DropSpacesSplits(SkipSpaces(s));
    assert a + (Trim(s) + b) == a + Trim(s) + b;
    assert Trim(s) != [] ==> SkipSpaces(s)[0] == Trim(s)[0];
  }

  lemma {:induction false} SkipInside(s: string, b: string)
    requires AllSpaces(b)
    ensures SkipSpaces(s + b) == if AllSpaces(s) then [] else SkipSpaces(s) + b
    decreases |s|
  {
    if s == [] {
      assert s + b == b + [];
      SkipAllSpaces(b, []);
    } else {
      assert (s + b)[0] == s[0] && (s + b)[1..] == s[1..] + b;
      if IsSpace(s[0]) {
        SkipInside(s[1..], b);
        assert AllSpaces(s) <==> AllSpaces(s[1..]) by {
          assert s == [s[0]] + s[1..];
        }
      }
    }
  }

  /** Spaces around a text do not change what is left of it. */
  lemma TrimIgnoresPadding(a: string, s: string, b: string)
    requires AllSpaces(a) && AllSpaces(b)
    ensures Trim(a + s + b) == Trim(s)
  {
    assert a + s + b == a + (s + b);
    SkipAllSpaces(a, s + b);
    SkipInside(s, b);
    if AllSpaces(s) {
      assert s == s + [];
      SkipAllSpaces(s, []);
    } else {
      DropAllSpaces(SkipSpaces(s), b);
    }
  }

  // ---------- What an integer in text looks like ----------

  predicate IsSign(sign: string) {
    sign == "" || sign == "+" || sign == "-"
  }

  lemma {:induction false} DigitsThen(digits: string, rest: string)
    requires AllDigits(digits) && (rest != [] ==> !IsDigit(rest[0]))
    ensures DigitCount(digits + rest) == |digits|
    decreases |digits|
  {
    if digits == [] {
      assert digits + rest == rest;
    } else {
      assert (digits + rest)[0] == digits[0] && (digits + rest)[1..] == digits[1..] + rest;
      DigitsThen(digits[1..], rest);
    }
  }

  lemma SignedDigits(sign: string, digits: string, rest: string)
    requires IsSign(sign) && AllDigits(digits) && digits != [] && (rest != [] ==> !IsDigit(rest[0]))
    ensures Scan(sign + digits + rest) == Some(Scanned(sign == "-", NumberOf(digits), rest))
  {
    var u := digits + rest;
    DigitsThen(digits, rest);
    assert u[..|digits|] == digits && u[|digits|..] == rest;
    Associates(sign, digits, rest);
    SignFirst(sign, u);
    ScanIs(sign + u, sign, u);
  }

  lemma SignFirst(sign: string, u: string)
    requires IsSign(sign) && u != [] && IsDigit(u[0])
    ensures var t := sign + u;
      && SkipSpaces(t) == t && (sign == "-" <==> t[0] == '-')
      && u == if t[0] == '-' || t[0] == '+' then t[1..] else t
  {
    if sign == "" {
      assert sign + u == u;
    } else {
      assert (sign + u)[1..] == u;
    }
  }

  /** Spaces, a sign and digits are read as the number of the digits. */
  lemma ScanReads(spaces: string, sign: string, digits: string, rest: string)
    requires AllSpaces(spaces) && IsSign(sign) && AllDigits(digits) && digits != [] && (rest != [] ==> !IsDigit(rest[0]))
    ensures Scan(spaces + (sign + digits + rest)) == Some(Scanned(sign == "-", NumberOf(digits), rest))
  {
    SkipAllSpaces(spaces, sign + digits + rest);
    SignedDigits(sign, digits, rest);
    assert !IsSpace((sign + digits + rest)[0]);
  }

  lemma SignParts(t: string) returns (sign: string, u: string)
    ensures IsSign(sign) && t == sign + u
    ensures sign == "-" <==> t != [] && t[0] == '-'
    ensures u == if t != [] && (t[0] == '-' || t[0] == '+') then t[1..] else t
  {
    if t != [] && (t[0] == '-' || t[0] == '+') {
      sign, u := [t[0]], t[1..];
    } else {
      sign, u := [], t;
    }
  }

  /** Nothing else is read. */
  lemma ScanParts(s: string) returns (spaces: string, sign: string, digits: string)
    requires Scan(s).Some?
    ensures AllSpaces(spaces) && IsSign(sign) && AllDigits(digits) && digits != []
    ensures s == spaces + (sign + digits + Scan(s).value.rest)
    ensures Scan(s).value == Scanned(sign == "-", NumberOf(digits), Scan(s).value.rest)
  {
    spaces := SkipSpacesSplits(s);
    var u;
    sign, u := SignParts(SkipSpaces(s));
    ScanIs(s, sign, u);
    digits := u[..DigitCount(u)];
    DigitsFirst(sign, u, DigitCount(u));
  }

  /** The digits are read to their end. */
  lemma RestStarts(s: string)
    requires Scan(s).Some?
    ensures Scan(s).value.rest != [] ==> !IsDigit(Scan(s).value.rest[0])
  {
  }

  lemma ScanIs(s: string, sign: string, u: string)
    requires var t := SkipSpaces(s);
      && (sign == "-" <==> t != [] && t[0] == '-')
      && u == if t != [] && (t[0] == '-' || t[0] == '+') then t[1..] else t
    ensures var n := DigitCount(u);
      Scan(s) == if n == 0 then None else Some(Scanned(sign == "-", NumberOf(u[..n]), u[n..]))
  {
  }

  lemma DigitsFirst(sign: string, u: string, n: nat)
    requires n <= |u|
    ensures sign + u == sign + u[..n] + u[n..]
  {
    assert u == u[..n] + u[n..];
    Associates(sign, u[..n], u[n..]);
  }

  // ---------- Finding a character ----------

  /** The position of the first c, or the length of s. */
  function Find(s: string, c: char): (n: nat)
    ensures n <= |s| && (n < |s| ==> s[n] == c)
    ensures forall i :: 0 <= i < n ==> s[i] != c
  {
    if s == [] || s[0] == c then 0 else 1 + Find(s[1..], c)
  }

  lemma FindUnique(s: string, c: char, n: nat)
    requires n <= |s| && (n < |s| ==> s[n] == c)
    requires forall i :: 0 <= i < n ==> s[i] != c
    ensures Find(s, c) == n
  {
    var m := Find(s, c);
    assert !(m < n) && !(n < m);
  }

  // ---------- Lines ----------

  /** The lines getline reads: without their newlines, and nothing after a last one. */
  function Lines(s: string): seq<string>
    decreases |s|
  {
    if s == [] then []
    else
      var n := Find(s, '\n');
      [s[..n]] + Lines(if n < |s| then s[n + 1..] else [])
  }

  /** The text that ends each line with a terminator. */
  function Unlines(lines: seq<string>, terminator: string): string {
    if lines == [] then [] else lines[0] + terminator + Unlines(lines[1..], terminator)
  }

  predicate NoNewline(line: string) {
    forall i :: 0 <= i < |line| ==> line[i] != '\n'
  }

  predicate NoNewlines(lines: seq<string>) {
    forall i :: 0 <= i < |lines| ==> NoNewline(lines[i])
  }

  lemma {:induction false} LinesOfLine(line: string, rest: string)
    requires NoNewline(line)
    ensures Lines(line + ['\n'] + rest) == [line] + Lines(rest)
  {
    var s := line + ['\n'] + rest;
    FindUnique(s, '\n', |line|);
    assert s[..|line|] == line && s[|line| + 1..] == rest;
  }

  ghost predicate EndsLine(s: string) {
    s == [] || s[|s| - 1] == '\n'
  }

  lemma FirstLine(s: string) returns (line: string, rest: string)
    requires s != [] && EndsLine(s)
    ensures s == line + ['\n'] + rest && NoNewline(line) && EndsLine(rest)
  {
    var n := Find(s, '\n');
    assert n < |s|;
    line, rest := s[..n], s[n + 1..];
    assert rest != [] ==> rest[|rest| - 1] == s[|s| - 1];
  }

  lemma Associates<T>(a: seq<T>, b: seq<T>, c: seq<T>)
    ensures a + b + c == a + (b + c)
  {
  }

  lemma {:induction false} LinesAppend(s: string, t: string)
    requires EndsLine(s)
    ensures Lines(s + t) == Lines(s) + Lines(t)
    decreases |s|
  {
    if s == [] {
      assert s + t == t;
      assert Lines(s) == [];
    } else {
      var line, rest := FirstLine(s);
      LinesOfLine(line, rest);
      Associates(line + ['\n'], rest, t);
      LinesOfLine(line, rest + t);
      LinesAppend(rest, t);
      Associates([line], Lines(rest), Lines(t));
    }
  }

  lemma OneLine(s: string)
    requires s != [] && NoNewline(s)
    ensures Lines(s) == [s] && Lines(s + ['\n']) == [s]
  {
    FindUnique(s, '\n', |s|);
    assert s[..|s|] == s;
    assert s + ['\n'] == s + ['\n'] + [];
    LinesOfLine(s, []);
  }

  lemma AfterFirstLine(line: string, a: string, b: string)
    requires NoNewline(line) && Lines(a) == Lines(b)
    ensures Lines(line + ['\n'] + a) == Lines(line + ['\n'] + b)
  {
    LinesOfLine(line, a);
    LinesOfLine(line, b);
  }

  /** The newline at the end of the last line may be missing. */
  lemma {:induction false} LastNewlineOptional(s: string)
    requires !EndsLine(s)
    ensures Lines(s + ['\n']) == Lines(s)
    decreases |s|
  {
    var n := Find(s, '\n');
    if n == |s| {
      OneLine(s);
    } else {
      var line, rest := s[..n], s[n + 1..];
      assert s == line + ['\n'] + rest;
      assert rest != [] && rest[|rest| - 1] == s[|s| - 1];
      LastNewlineOptional(rest);
      AfterFirstLine(line, rest, rest + ['\n']);
      Associates(line + ['\n'], rest, ['\n']);
    }
  }

  /** A text to which lines can be appended. */
  function WholeLines(s: string): string {
    if s == [] || s[|s| - 1] == '\n' then s else s + ['\n']
  }

  lemma WholeLinesSame(s: string)
    ensures EndsLine(WholeLines(s)) && Lines(WholeLines(s)) == Lines(s)
  {
    if !EndsLine(s) {
      LastNewlineOptional(s);
    }
  }
}
