/** Rewriting the hunk headers of a unified diff so that their counts match the hunk bodies. */
module HunkRecount {
  import opened Wrappers
  import opened UnifiedDiff

  function HeaderOf(line: string): Option<Header> {
    ParseHeader(StripNewlines(line))
  }

  /** The lines at which the body of a hunk ends. */
  predicate EndsHunk(line: string) {
    var bl := StripNewlines(line);
    "@@" <= bl || "--- " <= bl || "+++ " <= bl || "diff --git" <= bl
  }

  /** They can be told without stripping. */
  lemma EndsHunkIff(line: string)
    ensures EndsHunk(line) <==> "@@" <= line || "--- " <= line || "+++ " <= line || "diff --git" <= line
  {
    StripKeepsPrefix(line, "@@");
    StripKeepsPrefix(line, "--- ");
    StripKeepsPrefix(line, "+++ ");
    StripKeepsPrefix(line, "diff --git");
  }

  function BodyEnd(lines: seq<string>, i: nat): (end: nat)
    requires i <= |lines|
    ensures i <= end <= |lines|
    decreases |lines| - i
  {
    if i == |lines| || EndsHunk(lines[i]) then i else BodyEnd(lines, i + 1)
  }

  /** A body line is on the old side unless it is added, on the new side unless it is removed, and on neither if
      it is the remark about a missing final newline. */
  predicate OnOldSide(line: string) { !("\\" <= line) && !("+" <= line) }

  predicate OnNewSide(line: string) { !("\\" <= line) && !("-" <= line) }

  function CountOld(body: seq<string>): nat {
    if body == [] then 0 else CountOld(body[..|body| - 1]) + (if OnOldSide(body[|body| - 1]) then 1 else 0)
  }

  function CountNew(body: seq<string>): nat {
    if body == [] then 0 else CountNew(body[..|body| - 1]) + (if OnNewSide(body[|body| - 1]) then 1 else 0)
  }

  /** The body that the scanner delimits for a header on line `i`. */
  function Body(lines: seq<string>, i: nat): seq<string>
    requires i < |lines|
  {
    lines[i + 1..BodyEnd(lines, i + 1)]
  }

  /** Line `i` of the result: a header with the true counts, or the line itself. */
  function Recounted(lines: seq<string>, i: nat): string
    requires i < |lines|
  {
    match HeaderOf(lines[i])
    case None => lines[i]
    case Some(h) =>
      var body := Body(lines, i);
      PrintHeader(h.oldStart, CountOld(body), h.newStart, CountNew(body), h.tail) + "\n"
  }

  function Recount(lines: seq<string>): (out: seq<string>)
    ensures |out| == |lines|
  {
    seq(|lines|, i requires 0 <= i < |lines| => Recounted(lines, i))
  }

  function RecountDiff(diff: string): string {
    Join(Recount(SplitLines(diff)))
  }

  /** Find the end of the hunk body that starts at `bodyStart`. */
  method FindBodyEnd(lines: seq<string>, bodyStart: nat) returns (bodyEnd: nat)
    requires bodyStart <= |lines|
    ensures bodyEnd == BodyEnd(lines, bodyStart)
    ensures bodyStart <= bodyEnd <= |lines| && forall j :: bodyStart <= j < bodyEnd ==> !EndsHunk(lines[j])
    ensures bodyEnd == |lines| || EndsHunk(lines[bodyEnd])
  {
    bodyEnd := bodyStart;
    while bodyEnd < |lines| && !EndsHunk(lines[bodyEnd])
      invariant bodyStart <= bodyEnd <= |lines|
      invariant BodyEnd(lines, bodyEnd) == BodyEnd(lines, bodyStart)
      invariant forall j :: bodyStart <= j < bodyEnd ==> !EndsHunk(lines[j])
    {
      bodyEnd := bodyEnd + 1;
    }
  }

  /** The lines of a body that are on the old side: neither added nor the remark. A quite empty line is context. */
  function OldLines(body: seq<string>): set<int> {
    set k | 0 <= k < |body| && (body[k] == "" || body[k][0] !in {'\\', '+'})
  }

  function NewLines(body: seq<string>): set<int> {
    set k | 0 <= k < |body| && (body[k] == "" || body[k][0] !in {'\\', '-'})
  }

  /** The counts are the numbers of lines on the two sides. */
  lemma {:induction false} CountsAreNumbers(body: seq<string>)
    ensures CountOld(body) == |OldLines(body)| && CountNew(body) == |NewLines(body)|
    decreases |body|
  {
    if body != [] {
      CountsAreNumbers(body[..|body| - 1]);
      OneMoreOld(body);
      OneMoreNew(body);
    }
  }

  lemma OneMoreOld(body: seq<string>)
    requires body != []
    ensures var n := |body| - 1;
            |OldLines(body)| == |OldLines(body[..n])| + if OnOldSide(body[n]) then 1 else 0
  {
    var n := |body| - 1;
    FirstCharacter(body[n]);
    assert OldLines(body) == OldLines(body[..n]) + if OnOldSide(body[n]) then {n} else {};
  }

  lemma OneMoreNew(body: seq<string>)
    requires body != []
    ensures var n := |body| - 1;
            |NewLines(body)| == |NewLines(body[..n])| + if OnNewSide(body[n]) then 1 else 0
  {
    var n := |body| - 1;
    FirstCharacter(body[n]);
    assert NewLines(body) == NewLines(body[..n]) + if OnNewSide(body[n]) then {n} else {};
  }

  lemma FirstCharacter(line: string)
    ensures OnOldSide(line) <==> line == "" || line[0] !in {'\\', '+'}
    ensures OnNewSide(line) <==> line == "" || line[0] !in {'\\', '-'}
  {
    assert "\\"[0] == '\\' && "+"[0] == '+' && "-"[0] == '-';
  }

  method CountBody(body: seq<string>) returns (oldCount: nat, newCount: nat)
    ensures oldCount == CountOld(body) == |set k | 0 <= k < |body| && (body[k] == "" || body[k][0] !in {'\\', '+'})|
    ensures newCount == CountNew(body) == |set k | 0 <= k < |body| && (body[k] == "" || body[k][0] !in {'\\', '-'})|
  {
    CountsAreNumbers(body);
    oldCount, newCount := 0, 0;
    for k := 0 to |body|
      invariant oldCount == CountOld(body[..k]) && newCount == CountNew(body[..k])
    {
      var bl := body[k];
      assert body[..k + 1][..k] == body[..k];
      if "\\" <= bl {
        continue;
      }
      if "+" <= bl {
        newCount := newCount + 1;
      } else if "-" <= bl {
        oldCount := oldCount + 1;
      } else {
        oldCount := oldCount + 1;
        newCount := newCount + 1;
      }
    }
    assert body[..|body|] == body;
  }

  /** The recounter as it runs: one scan over the lines that skips from hunk to hunk. */
  method RecountHunks(diff: string) returns (result: string)
    ensures result == RecountDiff(diff)
  {
    var lines := SplitLines(diff);
    var out: seq<string> := [];
    var i := 0;
    while i < |lines|
      invariant 0 <= i <= |lines|
      invariant out == Recount(lines)[..i]
    {
      var m := ParseHeader(StripNewlines(lines[i]));
      if m == None {
        RecountPrefix(lines, i, i + 1);
        out := out + [lines[i]];
        i := i + 1;
      } else {
        var bodyEnd := FindBodyEnd(lines, i + 1);
        var oldCount, newCount := CountBody(lines[i + 1..bodyEnd]);
        var header := PrintHeader(m.value.oldStart, oldCount, m.value.newStart, newCount, m.value.tail) + "\n";
        RecountPrefix(lines, i, bodyEnd);
        assert header == Recounted(lines, i);
        out := out + [header] + lines[i + 1..bodyEnd];
        i := bodyEnd;
      }
    }
    assert out == Recount(lines);
    result := Join(out);
  }

  lemma HeaderEndsHunk(line: string)
    ensures HeaderOf(line).Some? ==> EndsHunk(line)
  {
    if HeaderOf(line).Some? {
      HeaderText(StripNewlines(line));
      assert "@@" <= "@@ -";
    }
  }

  lemma BodyIsCopied(lines: seq<string>, from: nat, to: nat)
    requires from <= to <= |lines|
    requires forall j :: from <= j < to ==> !EndsHunk(lines[j])
    ensures Recount(lines)[from..to] == lines[from..to]
  {
    forall j | from <= j < to
      ensures Recount(lines)[j] == lines[j]
    {
      HeaderEndsHunk(lines[j]);
    }
  }

  /** The result up to the end of a hunk body: what came before, the line at `i` recounted, and the body copied. */
  lemma RecountPrefix(lines: seq<string>, i: nat, to: nat)
    requires i < to <= |lines|
    requires forall j :: i < j < to ==> !EndsHunk(lines[j])
    ensures Recount(lines)[..to] == Recount(lines)[..i] + [Recounted(lines, i)] + lines[i + 1..to]
  {
    var out := Recount(lines);
    BodyIsCopied(lines, i + 1, to);
    assert out[..to] == out[..i] + [out[i]] + out[i + 1..to];
  }

  // ---------------------------------------------------------------- what the new headers say

  lemma StripAddedNewline(s: string)
    requires s != "" && s[|s| - 1] != '\n'
    ensures StripNewlines(s + "\n") == s && StripNewlines(s) == s
  {
    assert (s + "\n")[..|s + "\n"| - 1] == s;
  }

  lemma PrintedEnd(oldStart: nat, oldCount: nat, newStart: nat, newCount: nat, tail: string)
    ensures var p := PrintHeader(oldStart, oldCount, newStart, newCount, tail);
            |p| > 0 && p[|p| - 1] == if tail == "" then '@' else tail[|tail| - 1]
  {
  }

  /** On every line that is a header, the result has a header with the same start positions and the same tail,
      and with counts that are the numbers of old-side and new-side lines of its body. Every other line is
      copied. */
  lemma HeadersAreTrue(lines: seq<string>, i: nat)
    requires i < |lines|
    ensures var out := Recount(lines);
            match HeaderOf(lines[i])
            case None => out[i] == lines[i]
            case Some(h) =>
              && HeaderOf(out[i]) ==
                 Some(Header(h.oldStart, Some(|OldLines(Body(lines, i))|), h.newStart, Some(|NewLines(Body(lines, i))|), h.tail))
              && BodyEnd(out, i + 1) == BodyEnd(lines, i + 1)
              && Body(out, i) == Body(lines, i)
  {
    CountsAreNumbers(Body(lines, i));
    if HeaderOf(lines[i]).Some? {
      RecountedHeader(lines, i);
      SameBodies(lines, i);
    }
  }

  lemma RecountedHeader(lines: seq<string>, i: nat)
    requires i < |lines| && HeaderOf(lines[i]).Some?
    ensures var h := HeaderOf(lines[i]).value;
            var p := PrintHeader(h.oldStart, CountOld(Body(lines, i)), h.newStart, CountNew(Body(lines, i)), h.tail);
            && Recounted(lines, i) == p + "\n" && StripNewlines(p + "\n") == p
            && HeaderOf(Recounted(lines, i)) ==
               Some(Header(h.oldStart, Some(CountOld(Body(lines, i))), h.newStart, Some(CountNew(Body(lines, i))), h.tail))
  {
    var h, body := HeaderOf(lines[i]).value, Body(lines, i);
    var s := StripNewlines(lines[i]);
    var p := PrintHeader(h.oldStart, CountOld(body), h.newStart, CountNew(body), h.tail);
    PrintedEnd(h.oldStart, CountOld(body), h.newStart, CountNew(body), h.tail);
    HeaderText(s);
    assert h.tail != "" ==> h.tail[|h.tail| - 1] == s[|s| - 1];
    StripAddedNewline(p);
    PrintThenParseHeader(h.oldStart, CountOld(body), h.newStart, CountNew(body), h.tail);
  }

  lemma SameEnds(lines: seq<string>, i: nat)
    requires i < |lines|
    ensures EndsHunk(Recount(lines)[i]) == EndsHunk(lines[i])
  {
    if HeaderOf(lines[i]).Some? {
      RecountedHeader(lines, i);
      HeaderEndsHunk(Recount(lines)[i]);
      HeaderEndsHunk(lines[i]);
    }
  }

  lemma {:induction false} SameBodyEnd(lines: seq<string>, i: nat)
    requires i <= |lines|
    ensures BodyEnd(Recount(lines), i) == BodyEnd(lines, i)
    decreases |lines| - i
  {
    if i < |lines| {
      SameEnds(lines, i);
      if !EndsHunk(lines[i]) {
        SameBodyEnd(lines, i + 1);
      }
    }
  }

  lemma {:induction false} BodyHasNoEnds(lines: seq<string>, i: nat, j: nat)
    requires i <= |lines| && i <= j < BodyEnd(lines, i)
    ensures !EndsHunk(lines[j])
    decreases |lines| - i
  {
    if i < j {
      BodyHasNoEnds(lines, i + 1, j);
    }
  }

  lemma SameBodies(lines: seq<string>, i: nat)
    requires i < |lines|
    ensures BodyEnd(Recount(lines), i + 1) == BodyEnd(lines, i + 1)
    ensures Body(Recount(lines), i) == Body(lines, i)
  {
    SameBodyEnd(lines, i + 1);
    forall j | i + 1 <= j < BodyEnd(lines, i + 1)
      ensures !EndsHunk(lines[j])
    {
      BodyHasNoEnds(lines, i + 1, j);
    }
    BodyIsCopied(lines, i + 1, BodyEnd(lines, i + 1));
  }

  lemma RecountedTwice(lines: seq<string>, i: nat)
    requires i < |lines|
    ensures Recounted(Recount(lines), i) == Recounted(lines, i)
  {
    if HeaderOf(lines[i]).Some? {
      RecountedHeader(lines, i);
      SameBodies(lines, i);
    }
  }

  /** On lines, recounting twice is recounting once. */
  lemma RecountTwice(lines: seq<string>)
    ensures Recount(Recount(lines)) == Recount(lines)
  {
    forall i | 0 <= i < |lines|
      ensures Recounted(Recount(lines), i) == Recounted(lines, i)
    {
      RecountedTwice(lines, i);
    }
  }
}
