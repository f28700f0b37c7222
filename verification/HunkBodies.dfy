/** Diffs as lists of hunks: when the recounter finds the real bodies, and so the true counts. */
module HunkBodies {
  import opened Wrappers
  import opened UnifiedDiff
  import opened HunkRecount

  /** A hunk: the lines between the hunk before it and its header, such as the names of the files, where it starts on both
      sides, the text after its header, and the lines of its body. */
  datatype Hunk = Hunk(before: seq<string>, oldStart: nat, newStart: nat, tail: string, body: seq<string>)

  /** Body lines are context (possibly quite empty), added, removed, or the remark about a missing final newline. */
  predicate Marked(line: string) {
    StripNewlines(line) == "" || " " <= line || "+" <= line || "-" <= line || "\\" <= line
  }

  predicate WellFormed(h: Hunk) {
    && (forall j :: 0 <= j < |h.before| ==> HeaderOf(h.before[j]) == None)
    && (h.tail == "" || h.tail[|h.tail| - 1] != '\n')
    && forall j :: 0 <= j < |h.body| ==> Marked(h.body[j])
  }

  /** Behind a hunk only a line that ends it can follow. */
  predicate WellFormedDiff(hs: seq<Hunk>) {
    && (forall i :: 0 <= i < |hs| ==> WellFormed(hs[i]))
    && (forall i :: 1 <= i < |hs| ==> Bounded(hs[i]))
  }

  predicate Bounded(h: Hunk) { h.before == [] || EndsHunk(h.before[0]) }

  /** A removed line whose content starts with "-- ", or an added one whose content starts with "++ ". */
  predicate LooksLikeFileHeader(line: string) {
    var bl := StripNewlines(line);
    "--- " <= bl || "+++ " <= bl
  }

  predicate AllPlain(hs: seq<Hunk>) { hs == [] || (Plain(hs[0]) && AllPlain(hs[1..])) }

  predicate Plain(h: Hunk) {
    forall j :: 0 <= j < |h.body| ==> !LooksLikeFileHeader(h.body[j])
  }

  function HeaderLine(h: Hunk, oldCount: nat, newCount: nat): string {
    PrintHeader(h.oldStart, oldCount, h.newStart, newCount, h.tail) + "\n"
  }

  /** The lines of a diff whose headers claim these counts. */
  function Printed(hs: seq<Hunk>, counts: seq<(nat, nat)>): seq<string>
    requires |hs| == |counts|
  {
    if hs == [] then []
    else hs[0].before + ([HeaderLine(hs[0], counts[0].0, counts[0].1)] + hs[0].body + Printed(hs[1..], counts[1..]))
  }

  /** The counts that are true of the hunks. */
  function TrueCounts(hs: seq<Hunk>): (counts: seq<(nat, nat)>)
    ensures |counts| == |hs|
  {
    seq(|hs|, i requires 0 <= i < |hs| => (|OldLines(hs[i].body)|, |NewLines(hs[i].body)|))
  }

  lemma HeaderLineIs(h: Hunk, oldCount: nat, newCount: nat)
    requires WellFormed(h)
    ensures HeaderOf(HeaderLine(h, oldCount, newCount)) ==
            Some(Header(h.oldStart, Some(oldCount), h.newStart, Some(newCount), h.tail))
  {
    var p := PrintHeader(h.oldStart, oldCount, h.newStart, newCount, h.tail);
    PrintedEnd(h.oldStart, oldCount, h.newStart, newCount, h.tail);
    StripAddedNewline(p);
    PrintThenParseHeader(h.oldStart, oldCount, h.newStart, newCount, h.tail);
  }

  /** Among marked lines, those that end a hunk are the ones that look like a file header; none is a hunk header. */
  lemma MarkedEnds(line: string)
    requires Marked(line)
    ensures EndsHunk(line) <==> LooksLikeFileHeader(line)
    ensures HeaderOf(line) == None
  {
    StripMeans(line);
    var bl := StripNewlines(line);
    assert bl != "" ==> line[0] in {' ', '+', '-', '\\'} && bl[0] == line[0];
    assert !("@@" <= bl) && !("diff --git" <= bl) by {
      assert "@@"[0] == '@' && "diff --git"[0] == 'd';
    }
    if HeaderOf(line).Some? {
      HeaderText(bl);
      StartsWithAt(bl);
      assert false;
    }
  }

  lemma StartsWithAt(s: string)
    requires "@@ -" <= s
    ensures s != "" && s[0] == '@'
  {
    assert "@@ -"[0] == '@';
  }

  // ---------------------------------------------------------------- one hunk

  lemma {:induction false} EndFound(body: seq<string>, rest: seq<string>, i: nat)
    requires i <= |body| && (rest == [] || EndsHunk(rest[0]))
    ensures (forall j :: i <= j < |body| ==> !EndsHunk(body[j])) ==> BodyEnd(body + rest, i) == |body|
    ensures forall j :: i <= j < |body| && EndsHunk(body[j]) ==> BodyEnd(body + rest, i) <= j
    decreases |body| - i
  {
    if i < |body| {
      assert (body + rest)[i] == body[i];
      if !EndsHunk(body[i]) {
        EndFound(body, rest, i + 1);
      }
    }
  }

  lemma {:induction false} EndShifts(front: seq<string>, lines: seq<string>, i: nat)
    requires i <= |lines|
    ensures BodyEnd(front + lines, |front| + i) == |front| + BodyEnd(lines, i)
    decreases |lines| - i
  {
    if i < |lines| {
      assert (front + lines)[|front| + i] == lines[i];
      if !EndsHunk(lines[i]) {
        EndShifts(front, lines, i + 1);
      }
    }
  }

  /** The scanner delimits the real body of a hunk, followed by nothing or by a line that ends a hunk, exactly if no line of
      the body ends a hunk by itself. */
  lemma BodyFoundIff(front: seq<string>, header: string, body: seq<string>, rest: seq<string>)
    requires rest == [] || EndsHunk(rest[0])
    ensures Body(front + [header] + body + rest, |front|) == body
       <==> forall j :: 0 <= j < |body| ==> !EndsHunk(body[j])
  {
    var lines, top := front + [header] + body + rest, front + [header];
    assert lines == top + (body + rest);
    EndShifts(top, body + rest, 0);
    EndFound(body, rest, 0);
    var end := BodyEnd(body + rest, 0);
    assert Body(lines, |front|) == (body + rest)[..end];
    assert (body + rest)[..|body|] == body;
  }

  /** A hunk with three old lines and two new ones, the second of them the removed line "-- b". */
  function DashedHunk(): Hunk { Hunk([], 1, 1, "", [" a\n", "--- b\n", " c\n"]) }

  /** The scanner stops at that line, and writes a header that claims one line on each side. */
  lemma CountsCutShort()
    ensures var h := DashedHunk();
            && WellFormed(h) && TrueCounts([h]) == [(3, 2)]
            && Recount(Printed([h], [(3, 2)])) == Printed([h], [(1, 1)])
  {
    var h := DashedHunk();
    DashedBody(HeaderLine(h, 3, 2));
    CountsOf(h.body);
    CountsAreNumbers(h.body);
    ScanHunk(h, 3, 2, []);
    PrintedOne(h, 3, 2);
    PrintedOne(h, 1, 1);
  }

  lemma DashedBody(header: string)
    ensures Body([header] + DashedHunk().body + [], 0) == DashedHunk().body[..1]
  {
    var lines := [header] + DashedHunk().body + [];
    assert StripNewlines(" a\n") == " a" && StripNewlines("--- b\n") == "--- b";
    MarkedEnds(" a\n");
    assert lines[1] == " a\n" && lines[2] == "--- b\n" && EndsHunk(lines[2]);
    assert BodyEnd(lines, 2) == 2 && BodyEnd(lines, 1) == 2;
  }

  lemma PrintedOne(h: Hunk, oldCount: nat, newCount: nat)
    requires h.before == []
    ensures Printed([h], [(oldCount, newCount)]) == [HeaderLine(h, oldCount, newCount)] + h.body + []
    ensures Recount([]) == []
  {
    assert [h][1..] == [] && [(oldCount, newCount)][1..] == [];
  }

  lemma CountsOf(body: seq<string>)
    requires body == [" a\n", "--- b\n", " c\n"]
    ensures CountOld(body) == 3 && CountNew(body) == 2
    ensures CountOld(body[..1]) == 1 && CountNew(body[..1]) == 1
  {
    assert body[..2] == [" a\n", "--- b\n"] && body[..2][..1] == [" a\n"] && body[..1][..0] == [];
    FirstCharacter(" a\n");
    FirstCharacter("--- b\n");
    FirstCharacter(" c\n");
    assert CountOld(body[..2][..1]) == 1 && CountNew(body[..2][..1]) == 1;
    assert CountOld(body[..2]) == 2 && CountNew(body[..2]) == 1;
  }

  // ---------------------------------------------------------------- whole diffs

  lemma CopiesBody(lines: seq<string>, from: nat, to: nat)
    requires from <= to <= |lines| && forall j :: from <= j < to ==> Marked(lines[j])
    ensures Recount(lines)[from..to] == lines[from..to]
  {
    forall j | from <= j < to
      ensures Recount(lines)[j] == lines[j]
    {
      MarkedEnds(lines[j]);
    }
  }

  lemma RecountFront(front: seq<string>, rest: seq<string>)
    requires forall j :: 0 <= j < |front| ==> HeaderOf(front[j]) == None
    ensures Recount(front + rest) == front + Recount(rest)
  {
    RecountSuffix(front, rest);
    forall i | 0 <= i < |front|
      ensures Recount(front + rest)[i] == front[i]
    {
      assert (front + rest)[i] == front[i];
    }
    assert Recount(front + rest)[..|front|] == front;
  }

  lemma RecountSuffix(top: seq<string>, rest: seq<string>)
    ensures Recount(top + rest)[|top|..] == Recount(rest)
  {
    var all, later := Recount(top + rest), Recount(rest);
    forall i | 0 <= i < |rest|
      ensures all[|top|..][i] == later[i]
    {
      ScanLater(top, rest, i);
      assert all[|top| + i] == Recounted(top + rest, |top| + i);
    }
    assert all[|top|..] == later;
  }

  lemma InThree(out: seq<string>, n: nat)
    requires 1 <= n <= |out|
    ensures out == [out[0]] + out[1..n] + out[n..]
  {
  }

  /** What a scan makes of a hunk and of what follows it. */
  lemma ScanHunk(h: Hunk, oldCount: nat, newCount: nat, rest: seq<string>)
    requires WellFormed(h)
    ensures var lines := [HeaderLine(h, oldCount, newCount)] + h.body + rest;
            Recount(lines) == [HeaderLine(h, CountOld(Body(lines, 0)), CountNew(Body(lines, 0)))] + h.body + Recount(rest)
  {
    var top := [HeaderLine(h, oldCount, newCount)] + h.body;
    var lines := top + rest;
    HeaderLineIs(h, oldCount, newCount);
    assert lines[1..|top|] == h.body;
    forall j | 1 <= j < |top|
      ensures Marked(lines[j])
    {
      assert lines[j] == h.body[j - 1];
    }
    CopiesBody(lines, 1, |top|);
    RecountSuffix(top, rest);
    InThree(Recount(lines), |top|);
    assert Recount(lines)[0] == Recounted(lines, 0) && lines[0] == HeaderLine(h, oldCount, newCount);
  }

  lemma ScanLater(top: seq<string>, rest: seq<string>, i: nat)
    requires i < |rest|
    ensures Recounted(top + rest, |top| + i) == Recounted(rest, i)
  {
    var lines := top + rest;
    assert lines[|top| + i] == rest[i];
    EndShifts(top, rest, i + 1);
    assert Body(lines, |top| + i) == Body(rest, i);
  }

  lemma {:induction false} CountsGrow(body: seq<string>, n: nat)
    requires n <= |body|
    ensures CountOld(body[..n]) <= CountOld(body) && CountNew(body[..n]) <= CountNew(body)
    decreases |body|
  {
    if n == |body| {
      assert body[..n] == body;
    } else {
      CountsGrow(body[..|body| - 1], n);
      assert body[..|body| - 1][..n] == body[..n];
    }
  }

  /** A body cut before a line that is counted has smaller counts. */
  lemma CutCountsLess(body: seq<string>, n: nat)
    requires n < |body| && (OnOldSide(body[n]) || OnNewSide(body[n]))
    ensures CountOld(body[..n]) + CountNew(body[..n]) < CountOld(body) + CountNew(body)
  {
    CountsGrow(body, n + 1);
    assert body[..n + 1][..n] == body[..n];
  }

  lemma FileHeadersCount(line: string)
    requires Marked(line) && LooksLikeFileHeader(line)
    ensures OnOldSide(line) || OnNewSide(line)
  {
    StripMeans(line);
    assert "--- "[0] == '-' && "+++ "[0] == '+';
    assert line[0] == '-' || line[0] == '+';
  }

  /** The counts found are the true ones exactly if the body has no line that looks like a file header. */
  lemma CountsTrueIff(h: Hunk, header: string, rest: seq<string>)
    requires WellFormed(h) && (rest == [] || EndsHunk(rest[0]))
    ensures var found := Body([header] + h.body + rest, 0);
            Plain(h) <==> CountOld(found) == CountOld(h.body) && CountNew(found) == CountNew(h.body)
  {
    var lines := [header] + h.body + rest;
    forall j | 0 <= j < |h.body|
      ensures EndsHunk(h.body[j]) <==> LooksLikeFileHeader(h.body[j])
    {
      MarkedEnds(h.body[j]);
    }
    assert [] + [header] + h.body + rest == lines;
    BodyFoundIff([], header, h.body, rest);
    if !Plain(h) {
      var j :| 0 <= j < |h.body| && LooksLikeFileHeader(h.body[j]);
      CutBefore(h, header, rest, j);
    }
  }

  lemma {:induction false} StopsAtEnd(body: seq<string>, rest: seq<string>, i: nat, j: nat)
    requires i <= j < |body| && EndsHunk(body[j])
    ensures var end := BodyEnd(body + rest, i); end <= j && EndsHunk(body[end])
    decreases |body| - i
  {
    assert (body + rest)[i] == body[i];
    if !EndsHunk(body[i]) {
      StopsAtEnd(body, rest, i + 1, j);
    }
  }

  lemma EndCounts(h: Hunk, end: nat)
    requires WellFormed(h) && end < |h.body| && EndsHunk(h.body[end])
    ensures OnOldSide(h.body[end]) || OnNewSide(h.body[end])
  {
    MarkedEnds(h.body[end]);
    FileHeadersCount(h.body[end]);
  }

  lemma CutBefore(h: Hunk, header: string, rest: seq<string>, j: nat)
    requires WellFormed(h) && j < |h.body| && EndsHunk(h.body[j])
    ensures var found := Body([header] + h.body + rest, 0);
            CountOld(found) + CountNew(found) < CountOld(h.body) + CountNew(h.body)
  {
    var lines := [header] + h.body + rest;
    assert lines == [header] + (h.body + rest);
    EndShifts([header], h.body + rest, 0);
    StopsAtEnd(h.body, rest, 0, j);
    var end := BodyEnd(h.body + rest, 0);
    assert Body(lines, 0) == h.body[..end];
    EndCounts(h, end);
    CutCountsLess(h.body, end);
  }

  lemma PrintedStarts(hs: seq<Hunk>, counts: seq<(nat, nat)>)
    requires |hs| == |counts| && (hs != [] ==> WellFormed(hs[0]) && Bounded(hs[0]))
    ensures Printed(hs, counts) == [] || EndsHunk(Printed(hs, counts)[0])
  {
    if hs != [] {
      HeaderLineIs(hs[0], counts[0].0, counts[0].1);
      HeaderEndsHunk(HeaderLine(hs[0], counts[0].0, counts[0].1));
      assert hs[0].before == [] ==> Printed(hs, counts)[0] == HeaderLine(hs[0], counts[0].0, counts[0].1);
    }
  }

  lemma HeaderLinesDiffer(h: Hunk, a: nat, b: nat, c: nat, d: nat)
    requires WellFormed(h)
    ensures HeaderLine(h, a, b) == HeaderLine(h, c, d) <==> a == c && b == d
  {
    HeaderLineIs(h, a, b);
    HeaderLineIs(h, c, d);
  }

  lemma SameParts(front: seq<string>, a: string, b: string, body: seq<string>, x: seq<string>, y: seq<string>)
    ensures front + ([a] + body + x) == front + ([b] + body + y) <==> a == b && x == y
  {
    var p, q := [a] + body + x, [b] + body + y;
    assert p[0] == a && q[0] == b && p[|body| + 1..] == x && q[|body| + 1..] == y;
    assert (front + p)[|front|..] == p && (front + q)[|front|..] == q;
  }

  lemma PrintedTrue(hs: seq<Hunk>)
    requires hs != []
    ensures var h := hs[0];
            Printed(hs, TrueCounts(hs)) ==
              h.before + ([HeaderLine(h, |OldLines(h.body)|, |NewLines(h.body)|)] + h.body
                          + Printed(hs[1..], TrueCounts(hs[1..])))
  {
    assert TrueCounts(hs)[1..] == TrueCounts(hs[1..]);
  }

  /** What a scan makes of the first hunk, and when the header it writes is the true one. */
  lemma FirstHunk(h: Hunk, oldCount: nat, newCount: nat, rest: seq<string>)
    returns (oldFound: nat, newFound: nat)
    requires WellFormed(h) && (rest == [] || EndsHunk(rest[0]))
    ensures Recount(h.before + ([HeaderLine(h, oldCount, newCount)] + h.body + rest))
         == h.before + ([HeaderLine(h, oldFound, newFound)] + h.body + Recount(rest))
    ensures Plain(h) <==> HeaderLine(h, oldFound, newFound) == HeaderLine(h, |OldLines(h.body)|, |NewLines(h.body)|)
  {
    var header := HeaderLine(h, oldCount, newCount);
    var found := Body([header] + h.body + rest, 0);
    oldFound, newFound := CountOld(found), CountNew(found);
    ScanHunk(h, oldCount, newCount, rest);
    RecountFront(h.before, [header] + h.body + rest);
    CountsTrueIff(h, header, rest);
    CountsAreNumbers(h.body);
    HeaderLinesDiffer(h, oldFound, newFound, CountOld(h.body), CountNew(h.body));
  }

  /** The promise of the recounter on well-formed hunks. Whatever counts the headers claim, recounting writes the true ones
      if and only if no hunk has a removed line whose content starts with "-- " or an added one that starts with "++ ". */
  lemma {:induction false} CountsMatchIff(hs: seq<Hunk>, counts: seq<(nat, nat)>)
    requires |hs| == |counts| && WellFormedDiff(hs)
    ensures Recount(Printed(hs, counts)) == Printed(hs, TrueCounts(hs)) <==> AllPlain(hs)
    decreases |hs|
  {
    if hs == [] {
      assert Printed(hs, counts) == [] && Printed(hs, TrueCounts(hs)) == [];
    } else {
      var h, rest := hs[0], Printed(hs[1..], counts[1..]);
      PrintedStarts(hs[1..], counts[1..]);
      CountsMatchIff(hs[1..], counts[1..]);
      var oldFound, newFound := FirstHunk(h, counts[0].0, counts[0].1, rest);
      PrintedTrue(hs);
      SameParts(h.before, HeaderLine(h, oldFound, newFound), HeaderLine(h, |OldLines(h.body)|, |NewLines(h.body)|), h.body,
                Recount(rest), Printed(hs[1..], TrueCounts(hs[1..])));
    }
  }
}
