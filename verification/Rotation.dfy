/** Log files that rotate by size: the live file and its numbered predecessors. */
module Rotation {
  import opened Wrappers

  /** A line of a log, its size in bytes, and whether it is the header of a ledger. */
  datatype Record = Record(text: string, size: nat, header: bool)

  type File = seq<Record>

  /** `rotated[k]` is the file with the suffix `.k`. */
  datatype Files = Files(live: Option<File>, rotated: map<int, File>)

  const NOTHING := Files(None, map[])

  function Size(f: File): nat {
    if f == [] then 0 else Size(f[..|f| - 1]) + f[|f| - 1].size
  }

  /** Rename `.i` to `.i+1`, then `.i-1` to `.i`, down to `.1`, skipping files that are not there. */
  function Shift(m: map<int, File>, i: int): map<int, File>
    decreases i
  {
    if i < 1 then m
    else Shift(if i in m then (m - {i})[i + 1 := m[i]] else m, i - 1)
  }

  predicate Rotates(fs: Files, maxSize: int) {
    fs.live.Some? && Size(fs.live.value) > maxSize
  }

  function Rotate(fs: Files, maxSize: int, maxRotated: int): Files {
    if !Rotates(fs, maxSize) then fs
    else Files(None, Shift(fs.rotated - {maxRotated}, maxRotated - 1)[1 := fs.live.value])
  }

  function Append(fs: Files, r: Record): Files {
    fs.(live := Some((if fs.live.Some? then fs.live.value else []) + [r]))
  }

  /** Emit an event: rotate if there is a limit, then append. */
  function Emitted(fs: Files, limit: Option<int>, maxRotated: int, r: Record): Files {
    Append(if limit.Some? then Rotate(fs, limit.value, maxRotated) else fs, r)
  }

  function WithHeader(fs: Files, header: Record): Files {
    if fs.live == None then fs.(live := Some([header])) else fs
  }

  /** Append a ledger row: the header is ensured before and, with a limit, again after the rotation. */
  function RowAppended(fs: Files, header: Record, limit: Option<int>, maxRotated: int, r: Record): Files {
    var ready := WithHeader(fs, header);
    Append(if limit.Some? then WithHeader(Rotate(ready, limit.value, maxRotated), header) else ready, r)
  }

  /** The files on disk, renamed and appended to in place. */
  class LogFiles {
    var live: Option<File>
    var rotated: map<int, File>

    function View(): Files
      reads this
    {
      Files(live, rotated)
    }

    constructor ()
      ensures View() == NOTHING
    {
      live, rotated := None, map[];
    }

    method RotateIfNeeded(maxSize: int, maxRotated: int)
      modifies this
      ensures View() == Rotate(old(View()), maxSize, maxRotated)
    {
      if live == None || Size(live.value) <= maxSize {
        return;
      }
      rotated := rotated - {maxRotated};
      ghost var target := Shift(rotated, maxRotated - 1);
      var i := maxRotated - 1;
      while i >= 1
        invariant Shift(rotated, i) == target
        invariant live == old(live)
        decreases i
      {
        if i in rotated {
          rotated := (rotated - {i})[i + 1 := rotated[i]];
        }
        i := i - 1;
      }
      rotated := rotated[1 := live.value];
      live := None;
    }

    method AppendLine(r: Record)
      modifies `live
      ensures View() == Append(old(View()), r)
    {
      live := Some((if live.Some? then live.value else []) + [r]);
    }

    method Emit(limit: Option<int>, maxRotated: int, r: Record)
      modifies this
      ensures View() == Emitted(old(View()), limit, maxRotated, r)
    {
      if limit.Some? {
        RotateIfNeeded(limit.value, maxRotated);
      }
      AppendLine(r);
    }

    method EnsureHeader(header: Record)
      modifies `live
      ensures View() == WithHeader(old(View()), header)
    {
      if live == None {
        live := Some([header]);
      }
    }

    method AppendResultRow(header: Record, limit: Option<int>, maxRotated: int, r: Record)
      modifies this
      ensures View() == RowAppended(old(View()), header, limit, maxRotated, r)
    {
      EnsureHeader(header);
      if limit.Some? {
        RotateIfNeeded(limit.value, maxRotated);
        EnsureHeader(header);
      }
      AppendLine(r);
    }
  }

  // ---------------------------------------------------------------- reading the chain

  function Look(m: map<int, File>, k: int): Option<File> {
    if k in m then Some(m[k]) else None
  }

  function Get(fs: Files, k: int): File {
    var f := Look(fs.rotated, k);
    if f.Some? then f.value else []
  }

  function Live(fs: Files): File {
    if fs.live.Some? then fs.live.value else []
  }

  /** The files `.k`, …, `.1` and the live one, read in that order. */
  function ReadFrom(fs: Files, k: int): File
    decreases k
  {
    if k < 1 then Live(fs) else Get(fs, k) + ReadFrom(fs, k - 1)
  }

  /** How many numbered files there can be: a `maxRotated` below one behaves like one. */
  function Slots(maxRotated: int): int { Max(1, maxRotated) }

  /** Only the numbers from 1 to `n` are in use. */
  ghost predicate InSlots(fs: Files, n: int) {
    forall k :: Look(fs.rotated, k).Some? ==> 1 <= k <= n
  }

  predicate IsSuffix(s: File, of: File) {
    |s| <= |of| && s == of[|of| - |s|..]
  }

  /** After the renames every file below the gap at `i + 1` has moved up by one. */
  lemma {:induction false} ShiftMoves(m: map<int, File>, i: int, k: int)
    requires i + 1 !in m || i < 1
    ensures Look(Shift(m, i), k) ==
            if i < 1 then Look(m, k)
            else if k == 1 then None
            else if 2 <= k <= i + 1 then Look(m, k - 1)
            else Look(m, k)
    decreases i
  {
    if i >= 1 {
      ShiftMoves(if i in m then (m - {i})[i + 1 := m[i]] else m, i - 1, k);
    }
  }

  /** `fs'` is `fs` with every file moved up by one number, the file at `n` dropped, and no live file. */
  ghost predicate MovedUp(fs: Files, fs': Files, n: int) {
    && fs'.live == None
    && forall k :: Look(fs'.rotated, k) ==
         if k == 1 then fs.live else if 2 <= k <= n then Look(fs.rotated, k - 1) else None
  }

  /** That is what a rotation does. */
  lemma RotateMoves(fs: Files, maxSize: int, maxRotated: int)
    requires Rotates(fs, maxSize) && InSlots(fs, Slots(maxRotated))
    ensures MovedUp(fs, Rotate(fs, maxSize, maxRotated), Slots(maxRotated))
  {
    var m := fs.rotated - {maxRotated};
    var fs' := Rotate(fs, maxSize, maxRotated);
    forall k
      ensures Look(fs'.rotated, k) ==
         if k == 1 then fs.live else if 2 <= k <= Slots(maxRotated) then Look(fs.rotated, k - 1) else None
    {
      ShiftMoves(m, maxRotated - 1, k);
      assert Look(fs.rotated, k).Some? ==> 1 <= k <= Slots(maxRotated);
      assert Look(m, k) == if k == maxRotated then None else Look(fs.rotated, k);
      assert Look(m, k - 1) == if k - 1 == maxRotated then None else Look(fs.rotated, k - 1);
    }
  }

  lemma {:induction false} ReadMoved(fs: Files, fs': Files, n: int, k: int)
    requires MovedUp(fs, fs', n) && 1 <= k <= n && fs.live.Some?
    ensures ReadFrom(fs', k) == ReadFrom(fs, k - 1)
    decreases k
  {
    if k > 1 {
      ReadMoved(fs, fs', n, k - 1);
      assert Get(fs', k) == Get(fs, k - 1);
    } else {
      assert Get(fs', 1) == Live(fs);
    }
  }

  /** A rotation loses the oldest file, and nothing else: what was read before is that file and what is read now. */
  lemma RotateDropsOldest(fs: Files, maxSize: int, maxRotated: int)
    requires InSlots(fs, Slots(maxRotated))
    ensures var n := Slots(maxRotated);
            var fs' := Rotate(fs, maxSize, maxRotated);
            && InSlots(fs', n)
            && ReadFrom(fs, n) == (if Rotates(fs, maxSize) then Get(fs, n) else []) + ReadFrom(fs', n)
            && Size(Live(fs')) <= Max(0, maxSize)
  {
    if Rotates(fs, maxSize) {
      RotateMoves(fs, maxSize, maxRotated);
      ReadMoved(fs, Rotate(fs, maxSize, maxRotated), Slots(maxRotated), Slots(maxRotated));
    }
  }

  lemma {:induction false} ReadAppended(fs: Files, r: Record, k: int)
    ensures ReadFrom(Append(fs, r), k) == ReadFrom(fs, k) + [r]
    decreases k
  {
    if k >= 1 {
      ReadAppended(fs, r, k - 1);
    }
  }

  // ---------------------------------------------------------------- any sequence of events

  /** Emit events one after the other, each with or without the limit. */
  function EmitAll(maxSize: int, maxRotated: int, events: seq<(Record, bool)>): Files {
    if events == [] then NOTHING
    else
      var (r, limited) := events[|events| - 1];
      Emitted(EmitAll(maxSize, maxRotated, events[..|events| - 1]), if limited then Some(maxSize) else None, maxRotated, r)
  }

  function Records(events: seq<(Record, bool)>): (rs: File)
    ensures |rs| == |events|
  {
    seq(|events|, i requires 0 <= i < |events| => events[i].0)
  }

  lemma SuffixOfExtended(before: File, after: File, dropped: File, all: File, r: Record)
    requires IsSuffix(before, all) && before + [r] == dropped + after
    ensures IsSuffix(after, all + [r])
  {
    assert (all + [r])[|all| - |before|..] == before + [r];
    assert after == (before + [r])[|dropped|..];
  }

  /** One event more: what was read before, without the oldest file if that was dropped, and the event. */
  lemma EmitAppends(fs: Files, limit: Option<int>, maxRotated: int, r: Record)
    requires InSlots(fs, Slots(maxRotated))
    ensures var n := Slots(maxRotated);
            var fs' := Emitted(fs, limit, maxRotated, r);
            && InSlots(fs', n)
            && ReadFrom(fs, n) + [r] ==
               (if limit.Some? && Rotates(fs, limit.value) then Get(fs, n) else []) + ReadFrom(fs', n)
  {
    var n := Slots(maxRotated);
    if limit.Some? {
      RotateDropsOldest(fs, limit.value, maxRotated);
      ReadAppended(Rotate(fs, limit.value, maxRotated), r, n);
    } else {
      ReadAppended(fs, r, n);
    }
  }

  /** A record goes behind a live file within the limit, and the numbered files stay as they are. Only a live file that is
      larger becomes the first of them: then each of the others moves up by one, the last one is dropped, and the record
      starts a new live file. */
  lemma EmitRotatesIff(fs: Files, limit: Option<int>, maxRotated: int, r: Record)
    requires InSlots(fs, Slots(maxRotated))
    ensures var fs' := Emitted(fs, limit, maxRotated, r);
            if limit.Some? && fs.live.Some? && Size(fs.live.value) > limit.value then
              && fs'.live == Some([r])
              && forall k :: Look(fs'.rotated, k) ==
                   if k == 1 then fs.live else if 2 <= k <= Max(1, maxRotated) then Look(fs.rotated, k - 1) else None
            else
              fs'.live == Some(Live(fs) + [r]) && fs'.rotated == fs.rotated
  {
    if limit.Some? && Rotates(fs, limit.value) {
      RotateMoves(fs, limit.value, maxRotated);
      assert [] + [r] == [r];
    }
  }

  /** The size of a file is that of its records together. */
  lemma {:induction false} SizeConcat(a: File, b: File)
    ensures Size(a + b) == Size(a) + Size(b)
    ensures |a| == 1 ==> Size(a) == a[0].size
    decreases |b|
  {
    if b == [] {
      assert a + b == a;
    } else {
      SizeConcat(a, b[..|b| - 1]);
      assert (a + b)[..|a + b| - 1] == a + b[..|b| - 1];
    }
    if |a| == 1 {
      assert a[..0] == [];
    }
  }

  lemma EmitKeepsSuffix(fs: Files, all: File, limit: Option<int>, maxRotated: int, r: Record)
    requires InSlots(fs, Slots(maxRotated)) && IsSuffix(ReadFrom(fs, Slots(maxRotated)), all)
    ensures var fs' := Emitted(fs, limit, maxRotated, r);
            InSlots(fs', Slots(maxRotated)) && IsSuffix(ReadFrom(fs', Slots(maxRotated)), all + [r])
  {
    var n := Slots(maxRotated);
    EmitAppends(fs, limit, maxRotated, r);
    SuffixOfExtended(ReadFrom(fs, n), ReadFrom(Emitted(fs, limit, maxRotated, r), n),
                     if limit.Some? && Rotates(fs, limit.value) then Get(fs, n) else [], all, r);
  }

  /** After any events, what the files hold, read from the oldest to the live one, is a contiguous suffix of
      everything emitted. */
  lemma {:induction false} FilesHoldSuffix(maxSize: int, maxRotated: int, events: seq<(Record, bool)>)
    ensures var fs := EmitAll(maxSize, maxRotated, events);
            && InSlots(fs, Slots(maxRotated))
            && IsSuffix(ReadFrom(fs, Slots(maxRotated)), Records(events))
    decreases |events|
  {
    if events == [] {
      ReadNothing(Slots(maxRotated));
    } else {
      var init := events[..|events| - 1];
      var (r, limited) := events[|events| - 1];
      FilesHoldSuffix(maxSize, maxRotated, init);
      EmitKeepsSuffix(EmitAll(maxSize, maxRotated, init), Records(init),
                      if limited then Some(maxSize) else None, maxRotated, r);
      assert Records(events) == Records(init) + [r];
    }
  }

  lemma {:induction false} ReadNothing(k: int)
    ensures ReadFrom(NOTHING, k) == []
    decreases k
  {
    if k >= 1 {
      ReadNothing(k - 1);
    }
  }

  /** There are never more than `Slots` numbered files. */
  lemma AtMostSlots(fs: Files, n: nat)
    requires InSlots(fs, n)
    ensures |fs.rotated| <= n
  {
    forall k | k in fs.rotated.Keys
      ensures 1 <= k <= n
    {
      assert Look(fs.rotated, k).Some?;
    }
    BoundedKeys(fs.rotated.Keys, n);
    assert |fs.rotated| == |fs.rotated.Keys|;
  }

  lemma {:induction false} BoundedKeys(keys: set<int>, n: nat)
    requires forall k :: k in keys ==> 1 <= k <= n
    ensures |keys| <= n
    decreases n
  {
    if n == 0 {
      assert forall k :: k !in keys;
    } else {
      BoundedKeys(keys - {n}, n - 1);
      assert keys <= keys - {n} + {n};
    }
  }

  lemma SizeAppend(f: File, r: Record)
    ensures Size(f + [r]) == Size(f) + r.size
  {
    assert (f + [r])[..|f|] == f;
  }

  /** With the limit on, the live file exceeds it by no more than its last record. */
  lemma LiveStaysSmall(maxSize: int, maxRotated: int, events: seq<(Record, bool)>)
    requires maxSize >= 0 && events != [] && events[|events| - 1].1
    ensures var last := events[|events| - 1].0;
            var live := Live(EmitAll(maxSize, maxRotated, events));
            && live != [] && live[|live| - 1] == last
            && Size(live) <= maxSize + last.size
  {
    var init, r := events[..|events| - 1], events[|events| - 1].0;
    FilesHoldSuffix(maxSize, maxRotated, init);
    var fs := EmitAll(maxSize, maxRotated, init);
    RotateDropsOldest(fs, maxSize, maxRotated);
    SizeAppend(Live(Rotate(fs, maxSize, maxRotated)), r);
  }

  // ---------------------------------------------------------------- the ledger

  function LedgerAll(header: Record, maxSize: int, maxRotated: int, rows: seq<(Record, bool)>): Files {
    if rows == [] then WithHeader(NOTHING, header)
    else
      var (r, limited) := rows[|rows| - 1];
      RowAppended(LedgerAll(header, maxSize, maxRotated, rows[..|rows| - 1]), header,
                  if limited then Some(maxSize) else None, maxRotated, r)
  }

  /** A ledger file: the header, once, at the start. */
  predicate IsLedger(f: File, header: Record) {
    f != [] && f[0] == header && forall i :: 1 <= i < |f| ==> !f[i].header
  }

  /** The rows of a file, or of several files read together. */
  function Rows(f: File): File {
    if f == [] then [] else (if f[0].header then [] else [f[0]]) + Rows(f[1..])
  }

  lemma {:induction false} RowsConcat(a: File, b: File)
    ensures Rows(a + b) == Rows(a) + Rows(b)
    decreases |a|
  {
    if a == [] {
      assert a + b == b;
    } else {
      assert (a + b)[1..] == a[1..] + b;
      RowsConcat(a[1..], b);
    }
  }

  ghost predicate AllLedgers(fs: Files, header: Record) {
    && (fs.live.Some? ==> IsLedger(fs.live.value, header))
    && (forall k :: k in fs.rotated ==> IsLedger(fs.rotated[k], header))
  }

  lemma RotateKeepsLedgers(fs: Files, header: Record, maxSize: int, maxRotated: int)
    requires AllLedgers(fs, header) && InSlots(fs, Slots(maxRotated))
    ensures AllLedgers(Rotate(fs, maxSize, maxRotated), header)
  {
    if Rotates(fs, maxSize) {
      RotateMoves(fs, maxSize, maxRotated);
      var fs' := Rotate(fs, maxSize, maxRotated);
      forall k | k in fs'.rotated
        ensures IsLedger(fs'.rotated[k], header)
      {
        assert Look(fs'.rotated, k) == Some(fs'.rotated[k]);
        if k != 1 {
          assert Look(fs.rotated, k - 1) == Look(fs'.rotated, k);
        }
      }
    }
  }

  lemma {:induction false} ReadWithHeader(fs: Files, header: Record, k: int)
    requires header.header
    ensures Rows(ReadFrom(WithHeader(fs, header), k)) == Rows(ReadFrom(fs, k))
    decreases k
  {
    if k >= 1 {
      ReadWithHeader(fs, header, k - 1);
      RowsConcat(Get(fs, k), ReadFrom(fs, k - 1));
      RowsConcat(Get(fs, k), ReadFrom(WithHeader(fs, header), k - 1));
    } else if fs.live == None {
      assert [header][1..] == [];
    }
  }

  /** The rows before a rotation are those of the oldest file, if that was dropped, and those after it. */
  lemma RotateRows(fs: Files, maxSize: int, maxRotated: int)
    requires InSlots(fs, Slots(maxRotated))
    ensures var n := Slots(maxRotated);
            var fs' := Rotate(fs, maxSize, maxRotated);
            && InSlots(fs', n)
            && Rows(ReadFrom(fs, n)) == Rows(if Rotates(fs, maxSize) then Get(fs, n) else []) + Rows(ReadFrom(fs', n))
  {
    var n := Slots(maxRotated);
    RotateDropsOldest(fs, maxSize, maxRotated);
    RowsConcat(if Rotates(fs, maxSize) then Get(fs, n) else [], ReadFrom(Rotate(fs, maxSize, maxRotated), n));
  }

  /** A row appended below a header that is put there if it is missing. */
  lemma AppendRow(fs: Files, header: Record, r: Record, k: int)
    requires header.header && !r.header && AllLedgers(fs, header) && InSlots(fs, k)
    ensures var fs' := Append(WithHeader(fs, header), r);
            && fs'.live.Some? && AllLedgers(fs', header) && InSlots(fs', k)
            && Rows(ReadFrom(fs', k)) == Rows(ReadFrom(fs, k)) + [r]
  {
    var ready := WithHeader(fs, header);
    ReadWithHeader(fs, header, k);
    ReadAppended(ready, r, k);
    RowsConcat(ReadFrom(ready, k), [r]);
    assert Rows([r]) == [r] by {
      assert [r][1..] == [];
    }
  }

  /** One appended row: every file still starts with its one header, and the rows read are those read before, without
      the rows of the oldest file if that was dropped, followed by the new one. */
  lemma RowAppends(fs: Files, header: Record, limit: Option<int>, maxRotated: int, r: Record)
    requires header.header && !r.header
    requires fs.live.Some? && AllLedgers(fs, header) && InSlots(fs, Slots(maxRotated))
    ensures var n := Slots(maxRotated);
            var fs' := RowAppended(fs, header, limit, maxRotated, r);
            && fs'.live.Some? && AllLedgers(fs', header) && InSlots(fs', n)
            && Rows(ReadFrom(fs, n)) + [r] ==
               Rows(if limit.Some? && Rotates(fs, limit.value) then Get(fs, n) else []) + Rows(ReadFrom(fs', n))
  {
    RowAppendedIs(fs, header, limit, maxRotated, r);
    if limit.Some? {
      RotatedRow(fs, header, limit.value, maxRotated, r);
    } else {
      AppendRow(fs, header, r, Slots(maxRotated));
    }
  }

  lemma RotatedRow(fs: Files, header: Record, maxSize: int, maxRotated: int, r: Record)
    requires header.header && !r.header
    requires fs.live.Some? && AllLedgers(fs, header) && InSlots(fs, Slots(maxRotated))
    ensures var n := Slots(maxRotated);
            var fs' := Append(WithHeader(Rotate(fs, maxSize, maxRotated), header), r);
            && fs'.live.Some? && AllLedgers(fs', header) && InSlots(fs', n)
            && Rows(ReadFrom(fs, n)) + [r] == Rows(if Rotates(fs, maxSize) then Get(fs, n) else []) + Rows(ReadFrom(fs', n))
  {
    RotateRows(fs, maxSize, maxRotated);
    RotateKeepsLedgers(fs, header, maxSize, maxRotated);
    AppendRow(Rotate(fs, maxSize, maxRotated), header, r, Slots(maxRotated));
    Regroup(Rows(if Rotates(fs, maxSize) then Get(fs, Slots(maxRotated)) else []),
            Rows(ReadFrom(Rotate(fs, maxSize, maxRotated), Slots(maxRotated))), [r]);
  }

  lemma Regroup(a: File, b: File, c: File)
    ensures a + b + c == a + (b + c)
  {
  }

  /** With a live file, only the rotation can make the header go missing. */
  lemma RowAppendedIs(fs: Files, header: Record, limit: Option<int>, maxRotated: int, r: Record)
    requires fs.live.Some?
    ensures RowAppended(fs, header, limit, maxRotated, r)
         == Append(WithHeader(if limit.Some? then Rotate(fs, limit.value, maxRotated) else fs, header), r)
  {
  }

  lemma RowKeepsSuffix(fs: Files, all: File, header: Record, limit: Option<int>, maxRotated: int, r: Record)
    requires header.header && !r.header
    requires fs.live.Some? && AllLedgers(fs, header) && InSlots(fs, Slots(maxRotated))
    requires IsSuffix(Rows(ReadFrom(fs, Slots(maxRotated))), all)
    ensures var fs' := RowAppended(fs, header, limit, maxRotated, r);
            && fs'.live.Some? && AllLedgers(fs', header) && InSlots(fs', Slots(maxRotated))
            && IsSuffix(Rows(ReadFrom(fs', Slots(maxRotated))), all + [r])
  {
    RowAppends(fs, header, limit, maxRotated, r);
    var before := Rows(ReadFrom(fs, Slots(maxRotated)));
    var after := Rows(ReadFrom(RowAppended(fs, header, limit, maxRotated, r), Slots(maxRotated)));
    var dropped := if limit.Some? && Rotates(fs, limit.value) then Get(fs, Slots(maxRotated)) else [];
    SuffixOfExtended(before, after, Rows(dropped), all, r);
  }

  /** After any rows, every ledger file has exactly one header, at its start, and the rows in the files, read in
      order, are a contiguous suffix of the rows appended. */
  lemma {:induction false} LedgerHoldsSuffix(header: Record, maxSize: int, maxRotated: int, rows: seq<(Record, bool)>)
    requires header.header && forall i :: 0 <= i < |rows| ==> !rows[i].0.header
    ensures var fs := LedgerAll(header, maxSize, maxRotated, rows);
            && fs.live.Some? && AllLedgers(fs, header) && InSlots(fs, Slots(maxRotated))
            && IsSuffix(Rows(ReadFrom(fs, Slots(maxRotated))), Records(rows))
    decreases |rows|
  {
    if rows == [] {
      ReadWithHeader(NOTHING, header, Slots(maxRotated));
      ReadNothing(Slots(maxRotated));
    } else {
      var init := rows[..|rows| - 1];
      var (r, limited) := rows[|rows| - 1];
      assert forall i :: 0 <= i < |init| ==> init[i] == rows[i];
      LedgerHoldsSuffix(header, maxSize, maxRotated, init);
      RowKeepsSuffix(LedgerAll(header, maxSize, maxRotated, init), Records(init), header,
                     if limited then Some(maxSize) else None, maxRotated, r);
      assert Records(rows) == Records(init) + [r];
    }
  }

  /** For the ledger the file that is measured has its header already: a row goes behind it if it is within the limit, and
      otherwise starts a new file behind a new header. */
  lemma RowRotatesIff(fs: Files, header: Record, limit: Option<int>, maxRotated: int, r: Record)
    requires InSlots(fs, Slots(maxRotated))
    ensures var fs' := RowAppended(fs, header, limit, maxRotated, r);
            var ready := if fs.live == None then [header] else fs.live.value;
            if limit.Some? && Size(ready) > limit.value then
              && fs'.live == Some([header, r])
              && forall k :: Look(fs'.rotated, k) ==
                   if k == 1 then Some(ready) else if 2 <= k <= Max(1, maxRotated) then Look(fs.rotated, k - 1) else None
            else
              fs'.live == Some(ready + [r]) && fs'.rotated == fs.rotated
  {
    var ready := WithHeader(fs, header);
    if limit.Some? && Rotates(ready, limit.value) {
      assert InSlots(ready, Slots(maxRotated));
      RotateMoves(ready, limit.value, maxRotated);
      assert [header] + [r] == [header, r];
    }
  }
}
