/** Diffs as texts: the promise of the recounter on what it is really given. */
module HunkTexts {
  import opened Wrappers
  import opened UnifiedDiff
  import opened HunkRecount
  import opened HunkBodies
  import opened RecountText

  /** A line of text with its newline. */
  predicate NewlineTerminated(line: string) {
    OneLine(line) && line[|line| - 1] == '\n'
  }

  /** A diff all of whose lines end with a newline. */
  predicate Textual(hs: seq<Hunk>) {
    forall i :: 0 <= i < |hs| ==> TextualHunk(hs[i])
  }

  predicate TextualHunk(h: Hunk) {
    && (forall j :: 0 <= j < |h.before| ==> NewlineTerminated(h.before[j]))
    && (forall j :: 0 <= j < |h.body| ==> NewlineTerminated(h.body[j]))
    && NoBreaks(h.tail)
  }

  lemma {:induction false} OneBreakAtEnd(s: string)
    requires NoBreaks(s)
    ensures NewlineTerminated(s + "\n")
    decreases |s|
  {
    FirstLineAfterPlain(s, "\n");
    assert (s + "\n")[|s|] == '\n';
  }

  lemma HeaderIsLine(h: Hunk, oldCount: nat, newCount: nat)
    requires NoBreaks(h.tail)
    ensures NewlineTerminated(HeaderLine(h, oldCount, newCount)) && !Exotic(HeaderLine(h, oldCount, newCount))
  {
    var p := PrintHeader(h.oldStart, oldCount, h.newStart, newCount, h.tail);
    PrintedPlain(h.oldStart, oldCount, h.newStart, newCount, h.tail);
    assert NoBreaks(p) by {
      assert p == p[..|p| - 1] + [p[|p| - 1]];
    }
    OneBreakAtEnd(p);
    StripAddedNewline(p);
  }

  /** What `Printed` lists are newline-terminated lines, and none of its headers is exotic. */
  predicate TextLine(line: string) { NewlineTerminated(line) && !Exotic(line) }

  lemma {:induction false} PrintedLines(hs: seq<Hunk>, counts: seq<(nat, nat)>)
    requires |hs| == |counts| && Textual(hs) && WellFormedDiff(hs)
    ensures forall i :: 0 <= i < |Printed(hs, counts)| ==> TextLine(Printed(hs, counts)[i])
    decreases |hs|
  {
    if hs != [] {
      var h := hs[0];
      PrintedLines(hs[1..], counts[1..]);
      HeaderIsLine(h, counts[0].0, counts[0].1);
      HunkLines(h);
      AllFour(h.before, HeaderLine(h, counts[0].0, counts[0].1), h.body, Printed(hs[1..], counts[1..]));
    }
  }

  lemma HunkLines(h: Hunk)
    requires TextualHunk(h) && WellFormed(h)
    ensures forall j :: 0 <= j < |h.before| ==> TextLine(h.before[j])
    ensures forall j :: 0 <= j < |h.body| ==> TextLine(h.body[j])
  {
    forall j | 0 <= j < |h.body|
      ensures TextLine(h.body[j])
    {
      MarkedEnds(h.body[j]);
    }
  }

  lemma AllFour(a: seq<string>, b: string, c: seq<string>, d: seq<string>)
    requires forall j :: 0 <= j < |a| ==> TextLine(a[j])
    requires TextLine(b)
    requires forall j :: 0 <= j < |c| ==> TextLine(c[j])
    requires forall j :: 0 <= j < |d| ==> TextLine(d[j])
    ensures forall j :: 0 <= j < |a + ([b] + c + d)| ==> TextLine((a + ([b] + c + d))[j])
  {
    var all := [b] + c + d;
    assert forall j :: 0 <= j < |all| ==> TextLine(all[j]);
  }

  /** Newline-terminated lines survive being joined and split. */
  lemma JoinThenSplit(lines: seq<string>)
    requires forall i :: 0 <= i < |lines| ==> NewlineTerminated(lines[i])
    ensures SplitLines(Join(lines)) == lines
  {
    SplitJoin(lines);
    SplitEachOneLine(lines);
  }

  lemma SameTexts(a: seq<string>, b: seq<string>)
    requires SplitLines(Join(a)) == a && SplitLines(Join(b)) == b
    ensures Join(a) == Join(b) <==> a == b
  {
  }

  /** The promise of the recounter, on texts: whatever counts the headers of a diff claim, the text that comes out is the
      diff with the true ones, if and only if no hunk has a removed line whose content starts with "-- " or an added one
      whose content starts with "++ ". */
  lemma TextMatchesIff(hs: seq<Hunk>, counts: seq<(nat, nat)>)
    requires |hs| == |counts| && WellFormedDiff(hs) && Textual(hs)
    ensures RecountDiff(Join(Printed(hs, counts))) == Join(Printed(hs, TrueCounts(hs))) <==> AllPlain(hs)
  {
    var lines, truth := Printed(hs, counts), Printed(hs, TrueCounts(hs));
    PrintedLines(hs, counts);
    PrintedLines(hs, TrueCounts(hs));
    JoinThenSplit(lines);
    JoinThenSplit(truth);
    ResultLines(Join(lines));
    SameTexts(Recount(lines), truth);
    CountsMatchIff(hs, counts);
  }
}
