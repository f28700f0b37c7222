/** Recounting whole texts: how many lines come out, and exactly when recounting twice changes nothing more. */
module RecountText {
  import opened Wrappers
  import opened UnifiedDiff
  import opened HunkRecount

  /** A header line that ends in a line break other than a newline or a carriage return. The recounter takes the
      break for part of the tail and adds a newline of its own, so that one line becomes two. */
  predicate Exotic(line: string) {
    var s := StripNewlines(line);
    HeaderOf(line).Some? && s != "" && IsBreak(s[|s| - 1]) && s[|s| - 1] != '\r'
  }

  function CountExotic(lines: seq<string>): nat {
    if lines == [] then 0 else (if Exotic(lines[0]) then 1 else 0) + CountExotic(lines[1..])
  }

  /** The lines of each text, in order. */
  function SplitEach(texts: seq<string>): seq<string> {
    if texts == [] then [] else SplitLines(texts[0]) + SplitEach(texts[1..])
  }

  predicate NoBreaks(s: string) {
    forall i :: 0 <= i < |s| ==> !IsBreak(s[i])
  }

  // ---------------------------------------------------------------- the shape of one line

  /** The characters before the first line break. */
  function PlainRun(s: string): (n: nat)
    ensures n <= |s|
  {
    if s == "" || IsBreak(s[0]) then 0 else 1 + PlainRun(s[1..])
  }

  lemma {:induction false} PlainRunIsPlain(s: string)
    ensures NoBreaks(s[..PlainRun(s)])
    ensures PlainRun(s) < |s| ==> IsBreak(s[PlainRun(s)])
    decreases |s|
  {
    if s != "" && !IsBreak(s[0]) {
      PlainRunIsPlain(s[1..]);
      assert s[..PlainRun(s)] == [s[0]] + s[1..][..PlainRun(s[1..])];
    }
  }

  lemma {:induction false} FirstLineAfterPlain(a: string, b: string)
    requires NoBreaks(a) && b != "" && IsBreak(b[0])
    ensures FirstLine(a + b) == |a| + FirstLine(b)
    decreases |a|
  {
    if a == "" {
      assert a + b == b;
    } else {
      assert (a + b)[0] == a[0] && (a + b)[1..] == a[1..] + b;
      FirstLineAfterPlain(a[1..], b);
    }
  }

  /** One line is plain text and a terminator of at most two characters; without its newline at most one is left. */
  predicate Shaped(line: string) {
    var s := StripNewlines(line);
    && (s != "" ==> NoBreaks(s[..|s| - 1]))
    && (s != "" && IsBreak(s[|s| - 1]) && s[|s| - 1] != '\r' ==> line == s)
    && (line == s || line == s + "\n")
  }

  lemma Terminated1(plain: string, c: char)
    requires NoBreaks(plain) && IsBreak(c)
    ensures Shaped(plain + [c])
  {
    var line := plain + [c];
    assert line[..|line| - 1] == plain;
    if c == '\n' {
      StripOne(line);
    }
  }

  lemma Terminated2(plain: string)
    requires NoBreaks(plain)
    ensures Shaped(plain + "\r\n")
  {
    var line := plain + "\r\n";
    StripOne(line);
    assert line[..|line| - 1] == plain + "\r" && (plain + "\r")[..|plain|] == plain;
  }

  lemma LineShape(line: string)
    requires OneLine(line)
    ensures Shaped(line)
  {
    var n := PlainRun(line);
    PlainRunIsPlain(line);
    var plain, rest := line[..n], line[n..];
    assert line == plain + rest;
    if rest != "" {
      FirstLineAfterPlain(plain, rest);
      assert FirstLine(rest) == |rest|;
      if |rest| == 1 {
        assert rest == [rest[0]];
        Terminated1(plain, rest[0]);
      } else {
        assert rest == "\r\n";
        Terminated2(plain);
      }
    }
  }

  lemma StripOne(line: string)
    requires line != "" && line[|line| - 1] == '\n'
    requires |line| > 1 ==> line[|line| - 2] != '\n'
    ensures StripNewlines(line) == line[..|line| - 1]
  {
  }

  lemma PrintedPlain(oldStart: nat, oldCount: nat, newStart: nat, newCount: nat, tail: string)
    requires tail != "" ==> NoBreaks(tail[..|tail| - 1])
    ensures var p := PrintHeader(oldStart, oldCount, newStart, newCount, tail);
            p != "" && NoBreaks(p[..|p| - 1])
            && p[|p| - 1] == if tail == "" then '@' else tail[|tail| - 1]
  {
    var front := PrintHeader(oldStart, oldCount, newStart, newCount, "");
    assert NoBreaks(front);
    assert PrintHeader(oldStart, oldCount, newStart, newCount, tail) == front + tail;
  }

  // ---------------------------------------------------------------- what becomes of one line

  /** What the result line `out` of a line must be: as many lines as it should be, with as many exotic headers. */
  predicate BecomesLines(line: string, out: string) {
    var extra := if Exotic(line) then 1 else 0;
    |SplitLines(out)| == 1 + extra && CountExotic(SplitLines(out)) == extra
  }

  /** Plain text and one more character, followed by a newline, is two lines if the character is exotic. */
  lemma LastCharDecides(q: string, c: char)
    requires NoBreaks(q) && c != '\n'
    ensures var p := q + [c];
            && (IsBreak(c) && c != '\r' ==> SplitLines(p + "\n") == [p, "\n"])
            && (!(IsBreak(c) && c != '\r') ==> OneLine(p + "\n"))
  {
    var p := q + [c];
    if IsBreak(c) {
      FirstLineAfterPlain(q, [c, '\n']);
      assert p + "\n" == q + [c, '\n'];
      if c != '\r' {
        SplitOneLine("\n");
        assert (p + "\n")[..|p|] == p && (p + "\n")[|p|..] == "\n";
      }
    } else {
      FirstLineAfterPlain(p, "\n");
    }
  }

  lemma NewlineIsNoHeader()
    ensures OneLine("\n") && HeaderOf("\n") == None
  {
    StripOne("\n");
  }

  lemma TailPlain(s: string, tail: string)
    requires |tail| + 3 <= |s| && NoBreaks(s[..|s| - 1]) && s == s[..|s| - |tail|] + tail
    ensures tail != "" ==> NoBreaks(tail[..|tail| - 1]) && tail[|tail| - 1] == s[|s| - 1]
  {
    assert forall k :: 0 <= k < |tail| ==> tail[k] == s[|s| - |tail| + k];
    if tail != "" {
      forall k | 0 <= k < |tail| - 1
        ensures !IsBreak(tail[k])
      {
        assert tail[k] == s[..|s| - 1][|s| - |tail| + k];
      }
    }
  }

  /** The printed form of a header line: plain but for its last character, which is that of the line. */
  lemma PrintedShape(line: string, oldStart: nat, oldCount: nat, newStart: nat, newCount: nat, tail: string)
    requires OneLine(line)
    requires var s := StripNewlines(line);
             |tail| + 3 <= |s| && s == s[..|s| - |tail|] + tail && (tail == "" ==> s[|s| - 1] == '@')
    ensures var s := StripNewlines(line);
            var p := PrintHeader(oldStart, oldCount, newStart, newCount, tail);
            p != "" && NoBreaks(p[..|p| - 1]) && p[|p| - 1] == s[|s| - 1] && s[|s| - 1] != '\n'
  {
    LineShape(line);
    TailPlain(StripNewlines(line), tail);
    PrintedPlain(oldStart, oldCount, newStart, newCount, tail);
  }

  lemma CountTwo(p: string)
    ensures CountExotic([p, "\n"]) == if Exotic(p) then 1 else 0
  {
    NewlineIsNoHeader();
    assert [p, "\n"][1..] == ["\n"] && ["\n"][1..] == [];
    assert CountExotic(["\n"]) == 0;
  }

  lemma CountOne(p: string)
    ensures CountExotic([p]) == if Exotic(p) then 1 else 0
  {
    assert [p][1..] == [];
  }

  predicate PlainButLast(p: string) {
    p != "" && NoBreaks(p[..|p| - 1]) && p[|p| - 1] != '\n'
  }

  predicate ExoticEnd(p: string) {
    p != "" && IsBreak(p[|p| - 1]) && p[|p| - 1] != '\r'
  }

  lemma LastDecides(p: string)
    requires PlainButLast(p)
    ensures ExoticEnd(p) ==> SplitLines(p + "\n") == [p, "\n"]
    ensures !ExoticEnd(p) ==> OneLine(p + "\n") && SplitLines(p + "\n") == [p + "\n"]
    ensures StripNewlines(p) == p && StripNewlines(p + "\n") == p
  {
    LastCharDecides(p[..|p| - 1], p[|p| - 1]);
    assert p[..|p| - 1] + [p[|p| - 1]] == p;
    StripAddedNewline(p);
    if !ExoticEnd(p) {
      SplitOneLine(p + "\n");
    }
  }

  lemma PrintedLines(line: string, p: string)
    requires HeaderOf(line).Some? && HeaderOf(p).Some? && PlainButLast(p)
    requires ExoticEnd(p) == Exotic(line)
    ensures BecomesLines(line, p + "\n") && (!Exotic(line) ==> OneLine(p + "\n"))
  {
    LastDecides(p);
    CountTwo(p);
    CountOne(p + "\n");
  }

  /** A header line printed again with other counts is one line again, or two if its line break was exotic. */
  lemma ReprintedLines(line: string, h: Header, oldCount: nat, newCount: nat)
    requires OneLine(line) && HeaderOf(line) == Some(h)
    ensures var out := PrintHeader(h.oldStart, oldCount, h.newStart, newCount, h.tail) + "\n";
            BecomesLines(line, out) && (!Exotic(line) ==> OneLine(out))
  {
    HeaderText(StripNewlines(line));
    PrintedShape(line, h.oldStart, oldCount, h.newStart, newCount, h.tail);
    PrintThenParseHeader(h.oldStart, oldCount, h.newStart, newCount, h.tail);
    var p := PrintHeader(h.oldStart, oldCount, h.newStart, newCount, h.tail);
    LastDecides(p);
    PrintedLines(line, p);
  }

  lemma HeaderBecomesLines(lines: seq<string>, i: nat)
    requires i < |lines| && OneLine(lines[i]) && HeaderOf(lines[i]).Some?
    ensures BecomesLines(lines[i], Recounted(lines, i))
    ensures !Exotic(lines[i]) ==> OneLine(Recounted(lines, i))
  {
    ReprintedLines(lines[i], HeaderOf(lines[i]).value, CountOld(Body(lines, i)), CountNew(Body(lines, i)));
  }

  lemma LineBecomesLines(lines: seq<string>, i: nat)
    requires i < |lines| && OneLine(lines[i])
    ensures BecomesLines(lines[i], Recounted(lines, i))
  {
    if HeaderOf(lines[i]).Some? {
      HeaderBecomesLines(lines, i);
    } else {
      SplitOneLine(lines[i]);
    }
  }

  // ---------------------------------------------------------------- whole texts

  lemma {:induction false} CountExoticConcat(a: seq<string>, b: seq<string>)
    ensures CountExotic(a + b) == CountExotic(a) + CountExotic(b)
    decreases |a|
  {
    if a == [] {
      assert a + b == b;
    } else {
      assert (a + b)[1..] == a[1..] + b;
      CountExoticConcat(a[1..], b);
    }
  }

  /** Counting lines and exotic headers over all results at once. */
  lemma {:induction false} CountSplit(lines: seq<string>, out: seq<string>)
    requires |lines| == |out| && forall i :: 0 <= i < |lines| ==> BecomesLines(lines[i], out[i])
    ensures |SplitEach(out)| == |lines| + CountExotic(lines)
    ensures CountExotic(SplitEach(out)) == CountExotic(lines)
    decreases |lines|
  {
    if lines != [] {
      CountSplit(lines[1..], out[1..]);
      CountExoticConcat(SplitLines(out[0]), SplitEach(out[1..]));
    }
  }

  /** Texts that do not run into each other, joined and split again, are split one by one. */
  lemma {:induction false} SplitJoin(texts: seq<string>)
    requires forall i :: 0 <= i < |texts| ==> texts[i] != ""
    requires forall i :: 0 <= i < |texts| - 1 ==> Separate(texts[i], texts[i + 1])
    ensures SplitLines(Join(texts)) == SplitEach(texts)
    decreases |texts|
  {
    if texts != [] {
      var rest := texts[1..];
      SplitJoin(rest);
      assert rest != [] ==> rest[0] == texts[1] && Join(rest)[0] == texts[1][0];
      SplitConcat(texts[0], Join(rest));
    }
  }

  lemma {:induction false} SplitEachOneLine(lines: seq<string>)
    requires forall i :: 0 <= i < |lines| ==> OneLine(lines[i])
    ensures SplitEach(lines) == lines
    decreases |lines|
  {
    if lines != [] {
      SplitOneLine(lines[0]);
      SplitEachOneLine(lines[1..]);
    }
  }

  lemma HeaderStartsPlain(line: string)
    requires HeaderOf(line).Some?
    ensures line != "" && line[0] == '@'
  {
    HeaderText(StripNewlines(line));
    var start := "@@ -";
    assert StripNewlines(line)[0] == start[0];
  }

  lemma RecountedSeparate(lines: seq<string>, i: nat)
    requires Lines(lines) && i < |lines|
    ensures Recounted(lines, i) != ""
    ensures i < |lines| - 1 ==> Separate(Recounted(lines, i), Recounted(lines, i + 1))
  {
    if HeaderOf(lines[i]).Some? {
      RecountedHeader(lines, i);
    }
    if i < |lines| - 1 {
      assert Separate(lines[i], lines[i + 1]);
      if HeaderOf(lines[i + 1]).Some? {
        RecountedHeader(lines, i + 1);
        HeaderStartsPlain(Recounted(lines, i + 1));
        HeaderStartsPlain(lines[i + 1]);
      }
    }
  }

  /** The lines of the result are those of the recounted lines. */
  lemma SplitRecounted(diff: string)
    ensures SplitLines(RecountDiff(diff)) == SplitEach(Recount(SplitLines(diff)))
  {
    var lines := SplitLines(diff);
    SplitThenJoin(diff);
    forall i | 0 <= i < |lines|
      ensures Recount(lines)[i] != ""
      ensures i < |lines| - 1 ==> Separate(Recount(lines)[i], Recount(lines)[i + 1])
    {
      RecountedSeparate(lines, i);
    }
    SplitJoin(Recount(lines));
  }

  /** Recounting adds one line for each exotic header, and every exotic header stays exotic. */
  lemma LineCount(diff: string)
    ensures |SplitLines(RecountDiff(diff))| == |SplitLines(diff)| + CountExotic(SplitLines(diff))
    ensures CountExotic(SplitLines(RecountDiff(diff))) == CountExotic(SplitLines(diff))
  {
    var lines := SplitLines(diff);
    SplitThenJoin(diff);
    SplitRecounted(diff);
    forall i | 0 <= i < |lines|
      ensures BecomesLines(lines[i], Recount(lines)[i])
    {
      LineBecomesLines(lines, i);
    }
    CountSplit(lines, Recount(lines));
  }

  lemma {:induction false} NoneExotic(lines: seq<string>)
    ensures CountExotic(lines) == 0 <==> forall i :: 0 <= i < |lines| ==> !Exotic(lines[i])
    decreases |lines|
  {
    if lines != [] {
      NoneExotic(lines[1..]);
      assert forall i :: 1 <= i < |lines| ==> lines[i] == lines[1..][i - 1];
    }
  }

  /** Without exotic headers the lines of the result are exactly the recounted lines, as many as before. */
  lemma ResultLines(diff: string)
    requires forall i :: 0 <= i < |SplitLines(diff)| ==> !Exotic(SplitLines(diff)[i])
    ensures SplitLines(RecountDiff(diff)) == Recount(SplitLines(diff))
  {
    var lines := SplitLines(diff);
    SplitThenJoin(diff);
    SplitRecounted(diff);
    forall i | 0 <= i < |lines|
      ensures OneLine(Recount(lines)[i])
    {
      if HeaderOf(lines[i]).Some? {
        HeaderBecomesLines(lines, i);
      }
    }
    SplitEachOneLine(Recount(lines));
  }

  /** Recounting is idempotent exactly on the texts none of whose headers ends in an exotic line break. */
  lemma IdempotentIff(diff: string)
    ensures RecountDiff(RecountDiff(diff)) == RecountDiff(diff)
       <==> forall i :: 0 <= i < |SplitLines(diff)| ==> !Exotic(SplitLines(diff)[i])
  {
    NoneExotic(SplitLines(diff));
    if CountExotic(SplitLines(diff)) == 0 {
      ResultLines(diff);
      RecountTwice(SplitLines(diff));
    } else {
      LineCount(diff);
      LineCount(RecountDiff(diff));
    }
  }

  /** In particular it is idempotent on texts whose only line breaks are newlines and carriage returns. */
  lemma IdempotentOnOrdinaryText(diff: string)
    requires forall i :: 0 <= i < |diff| && IsBreak(diff[i]) ==> diff[i] in {'\n', '\r'}
    ensures RecountDiff(RecountDiff(diff)) == RecountDiff(diff)
    ensures SplitLines(RecountDiff(diff)) == Recount(SplitLines(diff))
  {
    var lines := SplitLines(diff);
    forall i | 0 <= i < |lines|
      ensures !Exotic(lines[i])
    {
      LineIsPart(diff, i);
      var s := StripNewlines(lines[i]);
      if s != "" {
        assert s[|s| - 1] == lines[i][|s| - 1];
      }
    }
    IdempotentIff(diff);
    ResultLines(diff);
  }

  lemma {:induction false} LineIsPart(s: string, i: nat)
    requires i < |SplitLines(s)|
    ensures forall k :: 0 <= k < |SplitLines(s)[i]| ==> SplitLines(s)[i][k] in s
    decreases |s|
  {
    var n := FirstLine(s);
    if i > 0 {
      LineIsPart(s[n..], i - 1);
      assert SplitLines(s)[i] == SplitLines(s[n..])[i - 1];
    }
  }
}
