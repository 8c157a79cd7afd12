/** Text helpers shared by the todo-list model: character search, the line
    splitting that std::getline performs over a whole file, the
    newline-terminated join that the program writes, decimal formatting of a
    counter (std::format("{}", n)) and the integer extraction of
    std::istringstream >> int. */
module Text {

  datatype Option<+T> = None | Some(value: T)

  /** Position of the first occurrence of `c` in `s`, as
      std::string::find_first_of with a single character; None stands for npos. */
  function FirstIndex(s: string, c: char): (r: Option<nat>)
    ensures r.None? <==> c !in s
    ensures r.Some? ==> r.value < |s| && s[r.value] == c && c !in s[..r.value]
  {
    if |s| == 0 then None
    else if s[0] == c then Some(0)
    else match FirstIndex(s[1..], c)
      case None => None
      case Some(k) =>
        assert s[..k + 1] == [s[0]] + s[1..][..k];
        Some(k + 1)
  }

  /** Whether a string ends with the given character (std::string::ends_with). */
  predicate EndsWith(s: string, c: char)
  {
    |s| > 0 && s[|s| - 1] == c
  }

  /** The lines std::getline yields when a stream over `s` is read to its end:
      the pieces between '\n' characters, where a final '\n' closes the last
      line instead of opening an empty one. */
  function Lines(s: string): (r: seq<string>)
    ensures forall i :: 0 <= i < |r| ==> '\n' !in r[i]
    decreases |s|
  {
    if s == [] then []
    else match FirstIndex(s, '\n')
      case None => [s]
      case Some(k) => [s[..k]] + Lines(s[k + 1..])
  }

  /** Each line followed by "\n", in order: the text the program builds with
      `out += line + "\n"` before overwriting a file. */
  function JoinLines(lines: seq<string>): string
  {
    if lines == [] then []
    else JoinLines(lines[..|lines| - 1]) + lines[|lines| - 1] + "\n"
  }

  /** The form every file the program writes has: empty, or ending with '\n'. */
  predicate Canonical(s: string)
  {
    s == [] || EndsWith(s, '\n')
  }

  lemma {:induction false} JoinLinesCons(line: string, lines: seq<string>)
    ensures JoinLines([line] + lines) == line + "\n" + JoinLines(lines)
    decreases |lines|
  {
    if lines == [] {
      assert [line] + lines == [line];
      assert JoinLines([line]) == JoinLines([]) + line + "\n";
    } else {
      var all := [line] + lines;
      var init := lines[..|lines| - 1];
      assert all[..|all| - 1] == [line] + init;
      assert all[|all| - 1] == lines[|lines| - 1];
      JoinLinesCons(line, init);
    }
  }

  /** The first `c` of `pre + [c] + rest` is the one right after `pre` when
      `pre` holds none. */
  lemma FirstIndexAfter(pre: string, c: char, rest: string)
    requires c !in pre
    ensures FirstIndex(pre + [c] + rest, c) == Some(|pre|)
  {
    var s := pre + [c] + rest;
    assert s[..|pre|] == pre;
    assert s[|pre|] == c;
  }

  lemma FirstNewlineAfter(line: string, rest: string)
    requires '\n' !in line
    ensures FirstIndex(line + "\n" + rest, '\n') == Some(|line|)
  {
    FirstIndexAfter(line, '\n', rest);
  }

  /** A text made of a line, '\n' and more text splits into that line and
      the lines of the rest. */
  lemma LinesCons(line: string, rest: string)
    requires '\n' !in line
    ensures Lines(line + "\n" + rest) == [line] + Lines(rest)
  {
    var s := line + "\n" + rest;
    FirstNewlineAfter(line, rest);
    assert s[..|line|] == line;
    assert s[|line| + 1..] == rest;
  }

  /** Reading back what JoinLines wrote gives the same lines, provided none of
      them holds a '\n'. */
  lemma {:induction false} LinesOfJoin(lines: seq<string>)
    requires forall i :: 0 <= i < |lines| ==> '\n' !in lines[i]
    ensures Lines(JoinLines(lines)) == lines
    decreases |lines|
  {
    if lines != [] {
      var line, rest := lines[0], lines[1..];
      assert lines == [line] + rest;
      JoinLinesCons(line, rest);
      LinesCons(line, JoinLines(rest));
      LinesOfJoin(rest);
    }
  }

  /** Writing back the lines read from a canonical text gives the text again. */
  lemma {:induction false} JoinOfLines(s: string)
    requires Canonical(s)
    ensures JoinLines(Lines(s)) == s
    decreases |s|
  {
    if s != [] {
      assert s[|s| - 1] == '\n';
      var k := FirstIndex(s, '\n').value;
      var line, rest := s[..k], s[k + 1..];
      assert '\n' !in line;
      assert s == line + "\n" + rest;
      FirstNewlineAfter(line, rest);
      assert Canonical(rest) by {
        if rest != [] {
          assert rest[|rest| - 1] == s[|s| - 1];
        }
      }
      LinesCons(line, rest);
      JoinOfLines(rest);
      JoinLinesCons(line, Lines(rest));
    }
  }

  /** One step of reading a text character by character: `cur` is the line
      read so far (no '\n' in it) and `rest` the text not yet read. */
  lemma LinesStep(cur: string, rest: string)
    requires '\n' !in cur
    ensures rest == [] ==> Lines(cur + rest) == (if cur == [] then [] else [cur])
    ensures rest != [] && rest[0] == '\n' ==> Lines(cur + rest) == [cur] + Lines([] + rest[1..])
    ensures rest != [] && rest[0] != '\n' ==> Lines(cur + rest) == Lines((cur + [rest[0]]) + rest[1..])
  {
    if rest == [] {
      assert cur + rest == cur;
    } else if rest[0] == '\n' {
      assert cur + rest == cur + "\n" + rest[1..];
      FirstNewlineAfter(cur, rest[1..]);
      var s := cur + "\n" + rest[1..];
      assert s[..|cur|] == cur;
      assert s[|cur| + 1..] == rest[1..] == [] + rest[1..];
    } else {
      assert cur + rest == (cur + [rest[0]]) + rest[1..];
    }
  }

  /** The same step at position `j` of a text being read, with `read` the
      lines already complete: the character there either closes the current
      line or extends it, and the lines of the whole text stay accounted for. */
  lemma ReadStep(text: string, j: nat, read: seq<string>, line: string)
    requires j < |text| && '\n' !in line
    requires Lines(text) == read + Lines(line + text[j..])
    ensures text[j] == '\n' ==> Lines(text) == (read + [line]) + Lines([] + text[j + 1..])
    ensures text[j] != '\n' ==> Lines(text) == read + Lines((line + [text[j]]) + text[j + 1..])
  {
    var rest := text[j..];
    assert rest[0] == text[j];
    assert rest[1..] == text[j + 1..];
    LinesStep(line, rest);
    if text[j] == '\n' {
      assert read + ([line] + Lines([] + text[j + 1..])) == (read + [line]) + Lines([] + text[j + 1..]);
    }
  }

  // ---------------------------------------------------------------------------
  // Decimal numbers

  predicate IsDigit(c: char)
  {
    '0' <= c <= '9'
  }

  /** Characters std::istringstream skips before a number (isspace in the C locale). */
  predicate IsSpace(c: char)
  {
    c == ' ' || '\t' <= c <= '\r'
  }

  function DigitChar(d: nat): (c: char)
    requires d < 10
    ensures IsDigit(c) && c as int - '0' as int == d
  {
    ('0' as int + d) as char
  }

  /** std::format("{}", n) for an unsigned counter: its decimal digits. */
  function NatToDecimal(n: nat): (r: string)
    ensures |r| >= 1
    ensures forall i :: 0 <= i < |r| ==> IsDigit(r[i])
  {
    if n < 10 then [DigitChar(n)] else NatToDecimal(n / 10) + [DigitChar(n % 10)]
  }

  /** The value of a string of decimal digits, most significant first. */
  function DigitsValue(ds: string): nat
    requires forall i :: 0 <= i < |ds| ==> IsDigit(ds[i])
  {
    if ds == [] then 0
    else
      assert IsDigit(ds[|ds| - 1]);
      DigitsValue(ds[..|ds| - 1]) * 10 + (ds[|ds| - 1] as int - '0' as int)
  }

  function SkipSpace(s: string): (r: string)
    ensures |r| <= |s| && r == s[|s| - |r|..]
  {
    if s != [] && IsSpace(s[0]) then SkipSpace(s[1..]) else s
  }

  /** The longest prefix of `s` made of decimal digits. */
  function LeadingDigits(s: string): (r: string)
    ensures |r| <= |s| && r == s[..|r|]
    ensures forall i :: 0 <= i < |r| ==> IsDigit(r[i])
    ensures |r| < |s| ==> !IsDigit(s[|r|])
  {
    if s != [] && IsDigit(s[0]) then [s[0]] + LeadingDigits(s[1..]) else []
  }

  const IntMax: int := 2147483647
  const IntMin: int := -2147483648

  /** The value a run of digits gives once the sign is applied: a magnitude
      beyond the int range is replaced by the nearest bound, and no digit
      after the sign is a failed conversion, which stores 0. */
  function SignedValue(negative: bool, ds: string): (r: int)
    requires forall i :: 0 <= i < |ds| ==> IsDigit(ds[i])
    ensures IntMin <= r <= IntMax
  {
    if ds == [] then 0
    else if negative then (if DigitsValue(ds) > -IntMin then IntMin else 0 - DigitsValue(ds) as int)
    else (if DigitsValue(ds) > IntMax then IntMax else DigitsValue(ds))
  }

  /** The value `std::istringstream(s) >> i` stores in a 32-bit int: leading
      white space is skipped, an optional sign is read, then as many digits as
      follow. Text after the digits is ignored. When nothing but white space
      is left, the stream's sentry fails before any conversion and nothing is
      stored (None): the int keeps whatever value it had. */
  function ParseInt(s: string): (r: Option<int>)
    ensures r.None? <==> SkipSpace(s) == []
    ensures r.Some? ==> IntMin <= r.value <= IntMax
  {
    var t := SkipSpace(s);
    if t == [] then None
    else if t[0] == '-' || t[0] == '+' then Some(SignedValue(t[0] == '-', LeadingDigits(t[1..])))
    else Some(SignedValue(false, LeadingDigits(t)))
  }

  lemma {:induction false} DecimalValue(n: nat)
    ensures DigitsValue(NatToDecimal(n)) == n
  {
    if n >= 10 {
      var d := NatToDecimal(n);
      assert d[..|d| - 1] == NatToDecimal(n / 10);
      DecimalValue(n / 10);
    }
  }

  lemma {:induction false} AllDigitsLead(ds: string)
    requires forall i :: 0 <= i < |ds| ==> IsDigit(ds[i])
    ensures LeadingDigits(ds) == ds
    decreases |ds|
  {
    if ds != [] {
      AllDigitsLead(ds[1..]);
    }
  }

  /** A text that starts with a digit is read as its leading digits, capped
      at the largest int. */
  lemma ParseUnsigned(s: string)
    requires s != [] && IsDigit(s[0])
    ensures LeadingDigits(s) != []
    ensures ParseInt(s) == Some(SignedValue(false, LeadingDigits(s)))
  {
    assert !IsSpace(s[0]) && s[0] != '-' && s[0] != '+';
    assert SkipSpace(s) == s;
    assert LeadingDigits(s) == [s[0]] + LeadingDigits(s[1..]);
  }

  /** The number the program prints for an entry is read back as that number
      by `done`. */
  lemma DecimalParses(n: nat)
    requires n <= IntMax
    ensures ParseInt(NatToDecimal(n)) == Some(n)
  {
    var d := NatToDecimal(n);
    assert IsDigit(d[0]);
    ParseUnsigned(d);
    AllDigitsLead(d);
    DecimalValue(n);
    assert SignedValue(false, d) == n;
  }

  /** A text of white space only (such as the argument of `done` followed
      by two spaces) extracts nothing at all. */
  lemma {:induction false} BlankExtractsNothing(s: string)
    requires forall i :: 0 <= i < |s| ==> IsSpace(s[i])
    ensures ParseInt(s) == None
    decreases |s|
  {
    if s != [] {
      BlankExtractsNothing(s[1..]);
      assert SkipSpace(s) == SkipSpace(s[1..]);
    }
  }

  /** A word that starts with something other than white space, a sign or a
      digit extracts nothing and yields 0. */
  lemma NonNumericParsesToZero(s: string)
    requires s != [] && !IsSpace(s[0]) && !IsDigit(s[0]) && s[0] != '-' && s[0] != '+'
    ensures ParseInt(s) == Some(0)
  {
    assert SkipSpace(s) == s;
  }
}
