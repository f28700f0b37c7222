/** Text lines, decimal numbers and hunk headers: the notation in which the recounter reads and writes. */
module UnifiedDiff {
  import opened Wrappers

  // ---------------------------------------------------------------- lines

  /** The characters at which Python's `splitlines` ends a line: newline, vertical tab, form feed and carriage
      return, the file, group and record separators, next line, and the line and paragraph separators. */
  predicate IsBreak(c: char) {
    '\n' <= c <= '\r' || '\U{001C}' <= c <= '\U{001E}' || c == '\U{0085}' || '\U{2028}' <= c <= '\U{2029}'
  }

  /** The length of the first line of a non-empty text, with its terminator. A carriage return and a newline
      together are one terminator. */
  function FirstLine(s: string): (n: nat)
    requires s != ""
    ensures 1 <= n <= |s|
  {
    if IsBreak(s[0]) then (if s[0] == '\r' && |s| > 1 && s[1] == '\n' then 2 else 1)
    else if |s| == 1 then 1
    else 1 + FirstLine(s[1..])
  }

  /** Python's `splitlines(keepends=True)`. */
  function SplitLines(s: string): (lines: seq<string>)
    decreases |s|
  {
    if s == "" then []
    else [s[..FirstLine(s)]] + SplitLines(s[FirstLine(s)..])
  }

  function Join(lines: seq<string>): string {
    if lines == [] then "" else lines[0] + Join(lines[1..])
  }

  /** Python's `rstrip("\n")`. */
  function StripNewlines(s: string): (r: string)
    ensures |r| <= |s| && r == s[..|r|]
    ensures r != "" ==> r[|r| - 1] != '\n'
  {
    if s != "" && s[|s| - 1] == '\n' then StripNewlines(s[..|s| - 1]) else s
  }

  /** What is stripped is all newlines, and no more. */
  lemma StripMeans(s: string)
    ensures var r := StripNewlines(s);
            r <= s && (forall k :: |r| <= k < |s| ==> s[k] == '\n') && (r != "" ==> r[|r| - 1] != '\n')
  {
    if s != "" && s[|s| - 1] == '\n' {
      StripMeans(s[..|s| - 1]);
    }
  }

  /** Stripping newlines does not touch a start that has none. */
  lemma StripKeepsPrefix(s: string, prefix: string)
    requires '\n' !in prefix
    ensures prefix <= StripNewlines(s) <==> prefix <= s
  {
    StripMeans(s);
    assert forall k :: 0 <= k < |prefix| ==> prefix[k] != '\n';
  }

  /** A text that is exactly one line. */
  predicate OneLine(s: string) {
    s != "" && FirstLine(s) == |s|
  }

  predicate Terminated(s: string) {
    s != "" && IsBreak(s[|s| - 1])
  }

  /** `b` can follow `a` without the two running into each other. */
  predicate Separate(a: string, b: string) {
    b != "" ==> Terminated(a) && !(a[|a| - 1] == '\r' && b[0] == '\n')
  }

  lemma {:induction false} FirstLineOfConcat(a: string, b: string)
    requires a != "" && (FirstLine(a) < |a| || Separate(a, b))
    ensures FirstLine(a + b) == FirstLine(a)
    decreases |a|
  {
    if b == "" {
      assert a + b == a;
    } else if IsBreak(a[0]) {
      assert (a + b)[0] == a[0];
      if |a| > 1 {
        assert (a + b)[1] == a[1];
      } else {
        assert (a + b)[1] == b[0];
      }
    } else if |a| > 1 {
      assert (a + b)[0] == a[0] && (a + b)[1..] == a[1..] + b;
      FirstLineOfConcat(a[1..], b);
    }
  }

  lemma SeparateSuffix(a: string, n: nat, b: string)
    requires Separate(a, b) && n < |a|
    ensures Separate(a[n..], b)
  {
    assert a[n..][|a| - n - 1] == a[|a| - 1];
  }

  lemma SplitStep(a: string, n: nat, b: string)
    requires n <= |a| && a != "" && FirstLine(a) == n && FirstLine(a + b) == n
    ensures SplitLines(a) == [a[..n]] + SplitLines(a[n..])
    ensures SplitLines(a + b) == [a[..n]] + SplitLines(a[n..] + b)
  {
    assert (a + b)[..n] == a[..n] && (a + b)[n..] == a[n..] + b;
  }

  lemma Associate(x: seq<string>, y: seq<string>, z: seq<string>)
    ensures x + (y + z) == x + y + z
  {
  }

  /** Texts that do not run into each other split separately. */
  lemma {:induction false} SplitConcat(a: string, b: string)
    requires a == "" || Separate(a, b)
    ensures SplitLines(a + b) == SplitLines(a) + SplitLines(b)
    decreases |a|
  {
    if a == "" {
      assert a + b == b;
    } else {
      var n := FirstLine(a);
      FirstLineOfConcat(a, b);
      SplitStep(a, n, b);
      if n < |a| {
        SeparateSuffix(a, n, b);
      }
      SplitConcat(a[n..], b);
      Associate([a[..n]], SplitLines(a[n..]), SplitLines(b));
    }
  }

  lemma SplitOneLine(s: string)
    requires OneLine(s)
    ensures SplitLines(s) == [s]
  {
    assert s[..|s|] == s && s[|s|..] == "";
  }

  /** The lines of a text in order: each one line, none running into the next. */
  predicate Lines(lines: seq<string>) {
    && (forall i :: 0 <= i < |lines| ==> OneLine(lines[i]))
    && (forall i :: 0 <= i < |lines| - 1 ==> Separate(lines[i], lines[i + 1]))
  }

  lemma {:induction false} FirstLineIsLine(s: string)
    requires s != ""
    ensures OneLine(s[..FirstLine(s)])
    ensures FirstLine(s) < |s| ==> Separate(s[..FirstLine(s)], s[FirstLine(s)..])
    decreases |s|
  {
    var n := FirstLine(s);
    if !IsBreak(s[0]) && |s| > 1 {
      FirstLineIsLine(s[1..]);
      assert s[..n][1..] == s[1..][..n - 1] && s[n..] == s[1..][n - 1..];
    }
  }

  /** Splitting gives lines, and joining them gives the text back. */
  lemma {:induction false} SplitThenJoin(s: string)
    ensures Lines(SplitLines(s)) && Join(SplitLines(s)) == s
    decreases |s|
  {
    if s != "" {
      var n := FirstLine(s);
      var rest := s[n..];
      SplitThenJoin(rest);
      FirstLineIsLine(s);
      assert SplitLines(s) == [s[..n]] + SplitLines(rest);
      SplitStart(rest);
      LinesPrepended(s[..n], SplitLines(rest));
      JoinFirst(s[..n], SplitLines(rest));
    }
  }

  lemma JoinFirst(line: string, lines: seq<string>)
    ensures Join([line] + lines) == line + Join(lines)
  {
    assert ([line] + lines)[1..] == lines;
  }

  lemma SplitStart(s: string)
    ensures s != "" ==> SplitLines(s) != [] && SplitLines(s)[0] != "" && SplitLines(s)[0][0] == s[0]
  {
  }

  /** What lines are, character by character: no line break inside a line, except that a carriage return may stand
      before a final newline; and one at the end of every line but the last, where no newline follows a carriage return
      on the next line. Together with `SplitThenJoin` this leaves only one way to split a text. */
  lemma SplitMeans(s: string, i: nat)
    requires i < |SplitLines(s)|
    ensures var line := SplitLines(s)[i];
            && line != ""
            && (forall k :: 0 <= k < |line| - 1 && BreakCode(line[k] as int) ==> k == |line| - 2 && line[k..] == "\r\n")
            && (i < |SplitLines(s)| - 1 ==>
                  var last := line[|line| - 1];
                  BreakCode(last as int) && !(last == '\r' && "\n" <= SplitLines(s)[i + 1]))
  {
    SplitThenJoin(s);
    var lines := SplitLines(s);
    OneLineMeans(lines[i]);
    if i < |lines| - 1 {
      assert OneLine(lines[i + 1]) && Separate(lines[i], lines[i + 1]);
    }
  }

  /** The code points at which Python's `splitlines` ends a line. */
  predicate BreakCode(c: int) { c in {10, 11, 12, 13, 28, 29, 30, 133, 8232, 8233} }

  lemma {:induction false} OneLineMeans(line: string)
    requires OneLine(line)
    ensures forall k :: 0 <= k < |line| - 1 && BreakCode(line[k] as int) ==> k == |line| - 2 && line[k..] == "\r\n"
    decreases |line|
  {
    if !IsBreak(line[0]) && |line| > 1 {
      OneLineMeans(line[1..]);
      forall k | 0 <= k < |line| - 1 && BreakCode(line[k] as int)
        ensures k == |line| - 2 && line[k..] == "\r\n"
      {
        assert line[k] == line[1..][k - 1] && line[k..] == line[1..][k - 1..];
      }
    }
  }

  lemma LinesPrepended(line: string, lines: seq<string>)
    requires OneLine(line) && Lines(lines) && (lines != [] ==> Separate(line, lines[0]))
    ensures Lines([line] + lines)
  {
    var all := [line] + lines;
    forall i | 0 <= i < |all|
      ensures OneLine(all[i])
      ensures i < |all| - 1 ==> Separate(all[i], all[i + 1])
    {
      if i > 0 {
        assert all[i] == lines[i - 1];
        if i < |all| - 1 {
          assert all[i + 1] == lines[i];
        }
      }
    }
  }

  // ---------------------------------------------------------------- decimal numbers

  predicate IsDigit(c: char) { '0' <= c <= '9' }

  /** The length of the longest run of digits at the start. */
  function DigitRun(s: string): (n: nat)
    ensures n <= |s|
  {
    if s == "" || !IsDigit(s[0]) then 0 else 1 + DigitRun(s[1..])
  }

  function DigitValue(c: char): nat
    requires IsDigit(c)
  {
    c as int - '0' as int
  }

  predicate AllDigits(s: string) {
    forall i :: 0 <= i < |s| ==> IsDigit(s[i])
  }

  function ParseNat(s: string): nat
    requires AllDigits(s)
  {
    if s == "" then 0 else 10 * ParseNat(s[..|s| - 1]) + DigitValue(s[|s| - 1])
  }

  function PrintNat(n: nat): (s: string)
    ensures s != "" && AllDigits(s)
  {
    if n < 10 then [('0' as int + n) as char] else PrintNat(n / 10) + [('0' as int + n % 10) as char]
  }

  /** Numbers are printed without leading zeros. */
  lemma {:induction false} NoLeadingZero(n: nat)
    ensures PrintNat(n)[0] == '0' <==> n == 0
    ensures PrintNat(0) == "0"
  {
    if n >= 10 {
      NoLeadingZero(n / 10);
    }
  }

  lemma {:induction false} PrintThenParse(n: nat)
    ensures ParseNat(PrintNat(n)) == n
  {
    if n < 10 {
      assert PrintNat(n)[..0] == "";
    } else {
      PrintThenParse(n / 10);
      var s := PrintNat(n);
      assert s[..|s| - 1] == PrintNat(n / 10);
    }
  }

  function Pow10(n: nat): nat { if n == 0 then 1 else 10 * Pow10(n - 1) }

  /** Place value: the first digit counts as many times as the power of ten for the digits behind it. */
  lemma {:induction false} PlaceValue(s: string)
    requires s != "" && AllDigits(s)
    ensures ParseNat(s) == (s[0] as int - 48) * Pow10(|s| - 1) + ParseNat(s[1..])
    decreases |s|
  {
    if |s| == 1 {
      assert s[..0] == "" && s[1..] == "";
    } else {
      var init := s[..|s| - 1];
      PlaceValue(init);
      assert s[1..][..|s| - 2] == init[1..];
      var p := Pow10(|s| - 2);
      assert ParseNat(s[1..]) == 10 * ParseNat(init[1..]) + DigitValue(s[|s| - 1]);
      Distribute(s[0] as int - 48, p, ParseNat(init[1..]));
    }
  }

  lemma Distribute(d: nat, p: nat, n: nat)
    ensures 10 * (d * p + n) == d * (10 * p) + 10 * n
  {
  }

  lemma {:induction false} DigitRunIsDigits(s: string)
    ensures AllDigits(s[..DigitRun(s)])
    decreases |s|
  {
    if s != "" && IsDigit(s[0]) {
      DigitRunIsDigits(s[1..]);
      assert s[..DigitRun(s)] == [s[0]] + s[1..][..DigitRun(s[1..])];
    }
  }

  lemma {:induction false} DigitRunStops(a: string, b: string)
    requires AllDigits(a) && (b == "" || !IsDigit(b[0]))
    ensures DigitRun(a + b) == |a|
    decreases |a|
  {
    if a == "" {
      assert a + b == b;
    } else {
      assert (a + b)[1..] == a[1..] + b;
      DigitRunStops(a[1..], b);
    }
  }

  // ---------------------------------------------------------------- hunk headers

  /** `@@ -oldStart[,oldCount] +newStart[,newCount] @@tail` */
  datatype Header = Header(oldStart: nat, oldCount: Option<nat>, newStart: nat, newCount: Option<nat>, tail: string)

  /** What is left after a fixed text at the start, if it is there. */
  function Expect(s: string, prefix: string): Option<string> {
    if prefix <= s then Some(s[|prefix|..]) else None
  }

  /** One or more digits: their value and what is left. */
  function ScanNat(s: string): Option<(nat, string)> {
    var n := DigitRun(s);
    DigitRunIsDigits(s);
    if n == 0 then None else Some((ParseNat(s[..n]), s[n..]))
  }

  /** A number and an optional comma with a second one. */
  function ScanRange(s: string): Option<(nat, Option<nat>, string)> {
    match ScanNat(s)
    case None => None
    case Some((start, rest)) =>
      match Expect(rest, ",")
      case None => Some((start, None, rest))
      case Some(after) =>
        match ScanNat(after)
        case None => Some((start, None, rest))
        case Some((count, rest')) => Some((start, Some(count), rest'))
  }

  /** The header pattern, applied to a line without its newline. */
  function ParseHeader(s: string): Option<Header> {
    match Expect(s, "@@ -")
    case None => None
    case Some(s1) =>
      match ScanRange(s1)
      case None => None
      case Some((oldStart, oldCount, s2)) =>
        match Expect(s2, " +")
        case None => None
        case Some(s3) =>
          match ScanRange(s3)
          case None => None
          case Some((newStart, newCount, s4)) =>
            match Expect(s4, " @@")
            case None => None
            case Some(tail) => Some(Header(oldStart, oldCount, newStart, newCount, tail))
  }

  function PrintHeader(oldStart: nat, oldCount: nat, newStart: nat, newCount: nat, tail: string): string {
    "@@ -" + (PrintNat(oldStart) + ("," + (PrintNat(oldCount) + (" +" + (PrintNat(newStart) + ("," + (PrintNat(newCount)
    + (" @@" + tail))))))))
  }

  lemma ScanPrinted(n: nat, rest: string)
    requires rest == "" || !IsDigit(rest[0])
    ensures ScanNat(PrintNat(n) + rest) == Some((n, rest))
  {
    var s := PrintNat(n);
    DigitRunStops(s, rest);
    PrintThenParse(n);
    assert (s + rest)[..|s|] == s && (s + rest)[|s|..] == rest;
  }

  lemma ExpectPresent(prefix: string, rest: string)
    ensures Expect(prefix + rest, prefix) == Some(rest)
  {
  }

  lemma ScanPrintedRange(start: nat, count: nat, rest: string)
    requires rest == "" || !IsDigit(rest[0])
    ensures ScanRange(PrintNat(start) + ("," + (PrintNat(count) + rest))) == Some((start, Some(count), rest))
  {
    ScanPrinted(start, "," + (PrintNat(count) + rest));
    ExpectPresent(",", PrintNat(count) + rest);
    ScanPrinted(count, rest);
  }

  /** Reading back a printed header gives the same numbers and tail. */
  lemma PrintThenParseHeader(oldStart: nat, oldCount: nat, newStart: nat, newCount: nat, tail: string)
    ensures ParseHeader(PrintHeader(oldStart, oldCount, newStart, newCount, tail)) ==
            Some(Header(oldStart, Some(oldCount), newStart, Some(newCount), tail))
  {
    var s4 := " @@" + tail;
    var s3 := PrintNat(newStart) + ("," + (PrintNat(newCount) + s4));
    var s2 := " +" + s3;
    var s1 := PrintNat(oldStart) + ("," + (PrintNat(oldCount) + s2));
    ExpectPresent("@@ -", s1);
    ScanPrintedRange(oldStart, oldCount, s2);
    ExpectPresent(" +", s3);
    ScanPrintedRange(newStart, newCount, s4);
    ExpectPresent(" @@", tail);
  }

  // ---------------------------------------------------------------- what a header is

  predicate Number(s: string) { s != "" && AllDigits(s) }

  /** A number as it is written, and an optional second one. */
  function WrittenRange(start: string, count: Option<string>): string {
    if count.Some? then start + ("," + count.value) else start
  }

  predicate Range(start: string, count: Option<string>) {
    Number(start) && (count.Some? ==> Number(count.value))
  }

  /** A header as it is written, with or without counts. */
  function WrittenHeader(old1: string, old2: Option<string>, new1: string, new2: Option<string>, tail: string): string {
    "@@ -" + (WrittenRange(old1, old2) + (" +" + (WrittenRange(new1, new2) + (" @@" + tail))))
  }

  function Numbers(count: Option<string>): Option<nat>
    requires count.Some? ==> Number(count.value)
  {
    if count.Some? then Some(ParseNat(count.value)) else None
  }

  lemma ScanNumber(s: string, rest: string)
    requires Number(s) && (rest == "" || !IsDigit(rest[0]))
    ensures ScanNat(s + rest) == Some((ParseNat(s), rest))
  {
    DigitRunStops(s, rest);
    assert (s + rest)[..|s|] == s && (s + rest)[|s|..] == rest;
  }

  lemma ScanWritten(start: string, count: Option<string>, rest: string)
    requires Range(start, count) && rest != "" && rest[0] == ' '
    ensures ScanRange(WrittenRange(start, count) + rest) == Some((ParseNat(start), Numbers(count), rest))
  {
    if count.Some? {
      var more := "," + (count.value + rest);
      assert WrittenRange(start, count) + rest == start + more;
      ScanNumber(start, more);
      ExpectPresent(",", count.value + rest);
      ScanNumber(count.value, rest);
    } else {
      ScanNumber(start, rest);
    }
  }

  /** Every written header is read, whatever the digits and whichever counts are left out. */
  lemma WrittenIsRead(old1: string, old2: Option<string>, new1: string, new2: Option<string>, tail: string)
    requires Range(old1, old2) && Range(new1, new2)
    ensures ParseHeader(WrittenHeader(old1, old2, new1, new2, tail))
         == Some(Header(ParseNat(old1), Numbers(old2), ParseNat(new1), Numbers(new2), tail))
  {
    var s4 := " @@" + tail;
    var s3 := WrittenRange(new1, new2) + s4;
    var s2 := " +" + s3;
    var s1 := WrittenRange(old1, old2) + s2;
    ExpectPresent("@@ -", s1);
    ScanWritten(old1, old2, s2);
    ExpectPresent(" +", s3);
    ScanWritten(new1, new2, s4);
    ExpectPresent(" @@", tail);
  }

  lemma NatIsWritten(s: string)
    requires ScanNat(s).Some?
    ensures var n := DigitRun(s); Number(s[..n]) && ScanNat(s) == Some((ParseNat(s[..n]), s[n..])) && s == s[..n] + s[n..]
  {
    DigitRunIsDigits(s);
  }

  lemma ExpectMeans(s: string, prefix: string)
    requires Expect(s, prefix).Some?
    ensures s == prefix + Expect(s, prefix).value
  {
  }

  lemma CountIsWritten(rest: string) returns (count: Option<string>, left: string)
    ensures count.Some? ==> Number(count.value)
    ensures rest == (if count.Some? then "," + count.value else "") + left
    ensures forall start: nat, s: string :: ScanNat(s) == Some((start, rest)) ==> ScanRange(s) == Some((start, Numbers(count), left))
  {
    count, left := None, rest;
    if Expect(rest, ",").Some? && ScanNat(rest[1..]).Some? {
      NatIsWritten(rest[1..]);
      var k := DigitRun(rest[1..]);
      count, left := Some(rest[1..][..k]), rest[1..][k..];
      ExpectMeans(rest, ",");
    }
  }

  lemma RangeIsWritten(s: string) returns (start: string, count: Option<string>)
    requires ScanRange(s).Some?
    ensures Range(start, count) && s == WrittenRange(start, count) + ScanRange(s).value.2
  {
    NatIsWritten(s);
    var n := DigitRun(s);
    start := s[..n];
    var left;
    count, left := CountIsWritten(s[n..]);
    assert ScanRange(s).value.2 == left;
  }

  /** And whatever is read is a written header. */
  lemma ReadIsWritten(s: string) returns (old1: string, old2: Option<string>, new1: string, new2: Option<string>)
    requires ParseHeader(s).Some?
    ensures Range(old1, old2) && Range(new1, new2)
    ensures s == WrittenHeader(old1, old2, new1, new2, ParseHeader(s).value.tail)
  {
    ExpectMeans(s, "@@ -");
    var s1 := Expect(s, "@@ -").value;
    old1, old2 := RangeIsWritten(s1);
    var s2 := ScanRange(s1).value.2;
    ExpectMeans(s2, " +");
    var s3 := Expect(s2, " +").value;
    new1, new2 := RangeIsWritten(s3);
    ExpectMeans(ScanRange(s3).value.2, " @@");
  }

  // ---------------------------------------------------------------- where a header's text comes from

  predicate Suffix(r: string, s: string) {
    |r| <= |s| && r == s[|s| - |r|..]
  }

  lemma SuffixTransitive(a: string, b: string, c: string)
    requires Suffix(a, b) && Suffix(b, c)
    ensures Suffix(a, c)
  {
  }

  lemma RangeLeavesSuffix(s: string)
    ensures ScanRange(s).Some? ==> Suffix(ScanRange(s).value.2, s)
  {
  }

  /** The last step of reading a header: the marker before the tail, inside a larger text. */
  lemma TailAfterMarker(r: string, s: string, tail: string)
    requires Suffix(r, s) && Expect(r, " @@") == Some(tail)
    ensures |tail| + 3 <= |s| && s == s[..|s| - |tail|] + tail && (tail == "" ==> s[|s| - 1] == '@')
  {
    var marker := " @@";
    assert |tail| + 3 == |r| && marker <= r && r[2] == marker[2];
    assert s[|s| - |r| + 2] == r[2];
    assert s[|s| - |tail|..] == tail;
  }

  /** A header starts with its marker, and its tail is the end of the text, after a second marker. */
  lemma HeaderText(s: string)
    requires ParseHeader(s).Some?
    ensures var tail := ParseHeader(s).value.tail;
            && "@@ -" <= s
            && |tail| + 3 <= |s| && s == s[..|s| - |tail|] + tail
            && (tail == "" ==> s[|s| - 1] == '@')
  {
    var s1 := Expect(s, "@@ -").value;
    RangeLeavesSuffix(s1);
    var s2 := ScanRange(s1).value.2;
    var s3 := Expect(s2, " +").value;
    RangeLeavesSuffix(s3);
    var s4 := ScanRange(s3).value.2;
    SuffixTransitive(s4, s3, s2);
    SuffixTransitive(s4, s2, s1);
    SuffixTransitive(s4, s1, s);
    TailAfterMarker(s4, s, Expect(s4, " @@").value);
  }
}
