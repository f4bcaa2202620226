/** Python 2 string operations used by the scripts, with their Python
    semantics: str.strip, str.split, str.join, int(), str() of an int,
    str.zfill, the `in` substring test, file.readlines and the posixpath
    functions basename, dirname and splitext. */
module PyText {
  import opened Wrappers
  import opened PyList

  /** The characters str.split() and str.strip() treat as whitespace. */
  predicate IsSpace(c: char)
  {
    c == ' ' || c == '\t' || c == '\n' || c == '\r' || c == '\U{B}' || c == '\U{C}'
  }

  predicate NoSpace(s: string)
  {
    forall i :: 0 <= i < |s| ==> !IsSpace(s[i])
  }

  predicate AllSpace(s: string)
  {
    forall i :: 0 <= i < |s| ==> IsSpace(s[i])
  }

  predicate IsDigit(c: char)
  {
    '0' <= c <= '9'
  }

  predicate AllDigits(s: string)
  {
    forall i :: 0 <= i < |s| ==> IsDigit(s[i])
  }

  // ---------------------------------------------------------------- strip

  function LStrip(s: string): (r: string)
    ensures |r| <= |s|
  {
    if |s| > 0 && IsSpace(s[0]) then LStrip(s[1..]) else s
  }

  function RStrip(s: string): (r: string)
    ensures |r| <= |s|
  {
    if |s| > 0 && IsSpace(s[|s| - 1]) then RStrip(s[..|s| - 1]) else s
  }

  /** lstrip removes exactly the leading whitespace. */
  lemma {:induction false} LStripRemovesLeadingSpace(s: string)
    ensures var r := LStrip(s);
      r == s[|s| - |r|..] && AllSpace(s[..|s| - |r|]) && (r == [] || !IsSpace(r[0]))
  {
    if |s| > 0 && IsSpace(s[0]) {
      LStripRemovesLeadingSpace(s[1..]);
      var r := LStrip(s);
      assert s[..|s| - |r|] == [s[0]] + s[1..][..|s| - 1 - |r|];
    }
  }

  /** rstrip removes exactly the trailing whitespace. */
  lemma {:induction false} RStripRemovesTrailingSpace(s: string)
    ensures var r := RStrip(s);
      r == s[..|r|] && AllSpace(s[|r|..]) && (r == [] || !IsSpace(r[|r| - 1]))
  {
    if |s| > 0 && IsSpace(s[|s| - 1]) {
      RStripRemovesTrailingSpace(s[..|s| - 1]);
      var r := RStrip(s);
      assert s[|r|..] == s[..|s| - 1][|r|..] + [s[|s| - 1]];
    }
  }

  /** str.strip() */
  function Strip(s: string): string
  {
    RStrip(LStrip(s))
  }

  lemma StripPadded(pad: string, s: string)
    requires AllSpace(pad)
    requires |s| > 0 && !IsSpace(s[0]) && !IsSpace(s[|s| - 1])
    ensures Strip(pad + s) == s
  {
    StripLeading(pad, s);
  }

  lemma {:induction false} StripLeading(pad: string, s: string)
    requires AllSpace(pad)
    requires |s| > 0 && !IsSpace(s[0])
    ensures LStrip(pad + s) == s
  {
    if pad != [] {
      assert (pad + s)[1..] == pad[1..] + s;
      StripLeading(pad[1..], s);
    }
  }

  // ------------------------------------------------------------- integers

  function DigitChar(d: int): (c: char)
    requires 0 <= d < 10
    ensures IsDigit(c)
  {
    ('0' as int + d) as char
  }

  function DigitValue(c: char): (d: int)
    requires IsDigit(c)
    ensures 0 <= d < 10 && DigitChar(d) == c
  {
    c as int - '0' as int
  }

  /** str(n) for n >= 0: decimal digits, no leading zeros. */
  function NatToStr(n: nat): (s: string)
    ensures |s| > 0 && AllDigits(s)
    ensures s[0] == '0' ==> n == 0
  {
    if n < 10 then [DigitChar(n)] else NatToStr(n / 10) + [DigitChar(n % 10)]
  }

  /** str(n) and '%d' % n */
  function IntToStr(n: int): (s: string)
    ensures |s| > 0
  {
    if n < 0 then "-" + NatToStr(-n) else NatToStr(n)
  }

  /** The value of a string of decimal digits. */
  function DigitsValue(s: string): nat
    requires AllDigits(s)
  {
    if s == [] then 0 else DigitsValue(s[..|s| - 1]) * 10 + DigitValue(s[|s| - 1])
  }

  lemma {:induction false} NatToStrRoundTrip(n: nat)
    ensures DigitsValue(NatToStr(n)) == n
  {
    if n >= 10 {
      NatToStrRoundTrip(n / 10);
      var s := NatToStr(n);
      assert s[..|s| - 1] == NatToStr(n / 10);
    }
  }

  /** int(s) for a str, base 10, as Python 2 reads it: whitespace around the
      number, an optional sign, optional whitespace after the sign, then at
      least one digit and nothing else. None stands for the ValueError. */
  function ParseInt(s: string): Option<int>
  {
    var t := Strip(s);
    if |t| > 0 && (t[0] == '+' || t[0] == '-') then
      var d := LStrip(t[1..]);
      if |d| > 0 && AllDigits(d) then
        var v: int := DigitsValue(d);
        Some(if t[0] == '-' then -v else v)
      else None
    else if |t| > 0 && AllDigits(t) then Some(DigitsValue(t))
    else None
  }

  lemma IntToStrHasNoSpaceAtEnds(n: int)
    ensures var s := IntToStr(n); |s| > 0 && !IsSpace(s[0]) && !IsSpace(s[|s| - 1]) && NoSpace(s)
  {
  }

  /** int() reads back what str() wrote, after any leading whitespace. */
  lemma ParseIntToStr(pad: string, n: int)
    requires AllSpace(pad)
    ensures ParseInt(pad + IntToStr(n)) == Some(n)
  {
    var s := IntToStr(n);
    IntToStrHasNoSpaceAtEnds(n);
    StripPadded(pad, s);
    ParseIntOfStripped(pad + s, n);
  }

  lemma ParseIntOfStripped(s: string, n: int)
    requires Strip(s) == IntToStr(n)
    ensures ParseInt(s) == Some(n)
  {
    if n < 0 {
      NegativeIntToStr(n);
      LStripOfWord(NatToStr(-n));
      NatToStrRoundTrip(-n);
    } else {
      NatToStrRoundTrip(n);
    }
  }

  lemma NegativeIntToStr(n: int)
    requires n < 0
    ensures IntToStr(n)[0] == '-' && IntToStr(n)[1..] == NatToStr(-n)
  {
  }

  lemma LStripOfWord(s: string)
    requires |s| > 0 && !IsSpace(s[0])
    ensures LStrip(s) == s
  {
  }

  // ------------------------------------------------------- split and join

  /** str.split(sep) for a one-character separator. */
  function SplitOn(s: string, sep: char): (parts: seq<string>)
    ensures |parts| >= 1
    decreases |s|
  {
    if sep in s then
      var i := IndexOf(s, sep);
      [s[..i]] + SplitOn(s[i + 1..], sep)
    else [s]
  }

  lemma SplitOnCons(a: string, sep: char, b: string)
    requires sep !in a
    ensures SplitOn(a + [sep] + b, sep) == [a] + SplitOn(b, sep)
  {
    var s := a + [sep] + b;
    assert s[|a|] == sep;
    forall j | 0 <= j < |a| ensures s[j] != sep {
      assert s[j] == a[j];
    }
    var i := IndexOf(s, sep);
    assert s[..i] == a && s[i + 1..] == b;
  }

  /** sep.join(parts) */
  function Join(parts: seq<string>, sep: string): string
  {
    if |parts| == 0 then ""
    else if |parts| == 1 then parts[0]
    else parts[0] + sep + Join(parts[1..], sep)
  }

  /** The length of the leading run of non-whitespace characters. */
  function TokenLength(s: string): (n: nat)
    ensures n <= |s|
  {
    if |s| == 0 || IsSpace(s[0]) then 0 else 1 + TokenLength(s[1..])
  }

  /** The leading token is a maximal run of non-whitespace. */
  lemma {:induction false} TokenLengthIsMaximal(s: string)
    ensures var n := TokenLength(s); NoSpace(s[..n]) && (n < |s| ==> IsSpace(s[n]))
  {
    if |s| > 0 && !IsSpace(s[0]) {
      TokenLengthIsMaximal(s[1..]);
      var n := TokenLength(s);
      assert s[..n] == [s[0]] + s[1..][..n - 1];
    }
  }

  /** str.split() with no argument: the maximal runs of non-whitespace. */
  function SplitFields(s: string): seq<string>
    decreases |s|
  {
    if |s| == 0 then []
    else if IsSpace(s[0]) then SplitFields(s[1..])
    else
      var n := TokenLength(s);
      [s[..n]] + SplitFields(s[n..])
  }

  /** Every field is a non-empty word without whitespace. */
  lemma {:induction false} SplitFieldsAreWords(s: string)
    ensures forall i :: 0 <= i < |SplitFields(s)| ==> |SplitFields(s)[i]| > 0 && NoSpace(SplitFields(s)[i])
    decreases |s|
  {
    if |s| > 0 {
      if IsSpace(s[0]) {
        SplitFieldsAreWords(s[1..]);
        assert SplitFields(s) == SplitFields(s[1..]);
      } else {
        var n := TokenLength(s);
        assert n == 1 + TokenLength(s[1..]);
        TokenLengthIsMaximal(s);
        SplitFieldsAreWords(s[n..]);
        var fields := SplitFields(s);
        assert fields == [s[..n]] + SplitFields(s[n..]);
        forall i | 0 <= i < |fields| ensures |fields[i]| > 0 && NoSpace(fields[i]) {
          if i > 0 {
            assert fields[i] == SplitFields(s[n..])[i - 1];
          }
        }
      }
    }
  }

  lemma {:induction false} SplitFieldsOfSpace(s: string)
    requires AllSpace(s)
    ensures SplitFields(s) == []
  {
    if |s| > 0 {
      SplitFieldsOfSpace(s[1..]);
    }
  }

  lemma {:induction false} TokenLengthOf(tok: string, rest: string)
    requires NoSpace(tok)
    requires rest == [] || IsSpace(rest[0])
    ensures TokenLength(tok + rest) == |tok|
  {
    if tok != [] {
      assert (tok + rest)[1..] == tok[1..] + rest;
      TokenLengthOf(tok[1..], rest);
    }
  }

  /** A word followed by whitespace (or by nothing) is the first field. */
  lemma SplitFieldsCons(tok: string, rest: string)
    requires |tok| > 0 && NoSpace(tok)
    requires rest == [] || IsSpace(rest[0])
    ensures SplitFields(tok + rest) == [tok] + SplitFields(rest)
  {
    TokenLengthOf(tok, rest);
    assert (tok + rest)[..|tok|] == tok;
    assert (tok + rest)[|tok|..] == rest;
  }

  // ------------------------------------------------------------ the rest

  /** str.zfill(width) */
  function ZFill(s: string, width: int): (r: string)
    ensures |r| == if |s| >= width then |s| else width
  {
    if |s| >= width then s
    else
      var zeros := seq(width - |s|, _ => '0');
      if |s| > 0 && (s[0] == '+' || s[0] == '-') then [s[0]] + zeros + s[1..]
      else zeros + s
  }

  predicate IsPrefix(a: string, b: string)
  {
    |a| <= |b| && b[..|a|] == a
  }

  /** needle in hay, for two strings: a substring test. */
  predicate Contains(hay: string, needle: string)
    decreases |hay|
  {
    IsPrefix(needle, hay) || (|hay| > 0 && Contains(hay[1..], needle))
  }

  lemma {:induction false} ContainsOnlyShorter(hay: string, needle: string)
    requires Contains(hay, needle)
    ensures |needle| <= |hay|
  {
    if !IsPrefix(needle, hay) {
      ContainsOnlyShorter(hay[1..], needle);
    }
  }

  /** file.readlines(): each line keeps its '\n'; a last line without one is
      kept as it is. */
  function ReadLines(text: string): (lines: seq<string>)
    decreases |text|
  {
    if text == "" then []
    else if '\n' in text then
      var i := IndexOf(text, '\n');
      [text[..i + 1]] + ReadLines(text[i + 1..])
    else [text]
  }

  function Concat(lines: seq<string>): string
  {
    if lines == [] then "" else lines[0] + Concat(lines[1..])
  }

  predicate IsLine(line: string)
  {
    |line| > 0 && line[|line| - 1] == '\n' && '\n' !in line[..|line| - 1]
  }

  /** readlines() of written lines gives the lines back. */
  lemma {:induction false} ReadLinesConcat(lines: seq<string>)
    requires forall i :: 0 <= i < |lines| ==> IsLine(lines[i])
    ensures ReadLines(Concat(lines)) == lines
  {
    if lines != [] {
      var text := Concat(lines);
      var l := lines[0];
      assert text == l + Concat(lines[1..]);
      assert text[|l| - 1] == '\n';
      forall j | 0 <= j < |l| - 1 ensures text[j] != '\n' {
        assert text[j] == l[..|l| - 1][j];
      }
      var i := IndexOf(text, '\n');
      assert text[..i + 1] == l;
      assert text[i + 1..] == Concat(lines[1..]);
      ReadLinesConcat(lines[1..]);
    }
  }

  // ----------------------------------------------------------- posixpath

  /** s.rfind(c): the last index holding c, or -1. */
  function RFind(s: string, c: char): (i: int)
    ensures -1 <= i < |s|
    ensures i >= 0 ==> s[i] == c
    ensures forall j :: i < j < |s| ==> s[j] != c
  {
    if |s| == 0 then -1
    else if s[|s| - 1] == c then |s| - 1
    else RFind(s[..|s| - 1], c)
  }

  predicate AllChar(s: string, c: char)
  {
    forall i :: 0 <= i < |s| ==> s[i] == c
  }

  /** os.path.basename */
  function Basename(p: string): (name: string)
    ensures '/' !in name
  {
    p[RFind(p, '/') + 1..]
  }

  function RStripChar(s: string, c: char): (r: string)
    ensures |r| <= |s| && r == s[..|r|]
    ensures r == [] || r[|r| - 1] != c
  {
    if |s| > 0 && s[|s| - 1] == c then RStripChar(s[..|s| - 1], c) else s
  }

  /** os.path.dirname: everything up to the last '/', with trailing slashes
      removed unless it is made of slashes only. */
  function Dirname(p: string): string
  {
    var head := p[..RFind(p, '/') + 1];
    if head != "" && !AllChar(head, '/') then RStripChar(head, '/') else head
  }

  /** os.path.splitext: the extension starts at the last '.' of the last
      path component, provided some character of that component before the
      dot is not a dot; otherwise the extension is empty. */
  function SplitExt(p: string): (r: (string, string))
    ensures r.0 + r.1 == p
    ensures r.1 == "" || (r.1[0] == '.' && '/' !in r.1)
  {
    var sepIndex := RFind(p, '/');
    var dotIndex := RFind(p, '.');
    if dotIndex > sepIndex && !AllChar(p[sepIndex + 1..dotIndex], '.') then
      ExtensionHasNoSeparator(p, dotIndex);
      (p[..dotIndex], p[dotIndex..])
    else (p, "")
  }

  lemma ExtensionHasNoSeparator(p: string, i: nat)
    requires RFind(p, '/') < i < |p|
    ensures p[..i] + p[i..] == p
    ensures '/' !in p[i..]
  {
    assert forall k :: i <= k < |p| ==> p[k] != '/';
  }

  /** A non-empty extension found by splitext holds no further dot. */
  lemma ExtensionHasOneDot(p: string)
    requires SplitExt(p).1 != ""
    ensures '.' !in SplitExt(p).1[1..]
  {
    var dotIndex := RFind(p, '.');
    assert SplitExt(p).1 == p[dotIndex..];
    assert forall k :: dotIndex < k < |p| ==> p[k] != '.';
  }

  /** Appending an extension (a dot, then no dot or separator) to a name that
      ends in neither '/' nor '.' is undone by splitext. */
  lemma SplitExtOfJoined(s: string, e: string)
    requires |s| > 0 && s[|s| - 1] != '/' && s[|s| - 1] != '.'
    requires |e| > 0 && e[0] == '.' && '.' !in e[1..] && '/' !in e
    ensures SplitExt(s + e) == (s, e)
  {
    var p := s + e;
    var dot := RFind(p, '.');
    assert p[|s|] == '.';
    assert forall k :: |s| < k < |p| ==> p[k] == e[1..][k - |s| - 1];
    assert dot == |s|;
    var sep := RFind(p, '/');
    assert forall k :: |s| <= k < |p| ==> p[k] == e[k - |s|];
    assert sep < |s| - 1;
    assert p[sep + 1..dot][|s| - 1 - (sep + 1)] == s[|s| - 1];
    assert p[..dot] == s;
  }
}
