/** The line segmentation of `ClipGroup.lines` (coldtype/time/sequence.py),
    stated on the clip types of a group alone. A line is a list of slots:
    `Orig(k)` is the group's clip `k` itself, `Mark(k)` the copy of the
    GrafBreak clip `k` whose text is the paragraph mark. */
module LineLayout {
  import opened ClipSyntax
  import Partition

  datatype Slot = Orig(k: nat) | Mark(k: nat)

  /** A slot that `lines` puts at the head of a line: a paragraph mark, a
      GrafBreak clip, or a NewLine clip unless newlines are ignored. */
  predicate IsBreak(kinds: seq<ClipType>, ignoreNewlines: bool, s: Slot) {
    match s
    case Mark(_) => true
    case Orig(k) => k < |kinds| && (kinds[k] == GrafBreak || (kinds[k] == NewLine && !ignoreNewlines))
  }

  /** The loop's two accumulators: the finished lines and the open line. */
  datatype LineState = LineState(done: seq<seq<Slot>>, line: seq<Slot>)

  /** One turn of the loop, for clip `k` of type `kind`. */
  function Step(st: LineState, kind: ClipType, k: nat, ignoreNewlines: bool): (r: LineState)
    ensures st.done <= r.done
  {
    if kind == NewLine && !ignoreNewlines then LineState(st.done + [st.line], [Orig(k)])
    else if kind == GrafBreak then LineState(st.done + [st.line] + [[Mark(k)]], [Orig(k)])
    else LineState(st.done, st.line + [Orig(k)])
  }

  /** The accumulators after the first `m` clips. */
  function Scan(kinds: seq<ClipType>, ignoreNewlines: bool, m: nat): LineState
    requires m <= |kinds|
  {
    if m == 0 then LineState([], [])
    else Step(Scan(kinds, ignoreNewlines, m - 1), kinds[m - 1], m - 1, ignoreNewlines)
  }

  /** The lines: the finished ones, and the open one unless it is empty. */
  function Lines(kinds: seq<ClipType>, ignoreNewlines: bool): seq<seq<Slot>> {
    var st := Scan(kinds, ignoreNewlines, |kinds|);
    if |st.line| > 0 then st.done + [st.line] else st.done
  }

  /** The first `m` clips in order, each GrafBreak clip preceded by its mark. */
  function Expand(kinds: seq<ClipType>, m: nat): seq<Slot>
    requires m <= |kinds|
  {
    if m == 0 then []
    else Expand(kinds, m - 1) + (if kinds[m - 1] == GrafBreak then [Mark(m - 1), Orig(m - 1)] else [Orig(m - 1)])
  }

  /** Breaks stand only at the head of a line. */
  predicate BreaksLead(kinds: seq<ClipType>, ignoreNewlines: bool, line: seq<Slot>) {
    forall j :: 0 < j < |line| ==> !IsBreak(kinds, ignoreNewlines, line[j])
  }

  /** A paragraph mark is alone on its line. */
  predicate MarkAlone(line: seq<Slot>) {
    forall j :: 0 <= j < |line| && line[j].Mark? ==> |line| == 1
  }

  /** What holds of the accumulators after the first `m` clips. */
  predicate ScanInv(kinds: seq<ClipType>, ignoreNewlines: bool, m: nat, st: LineState)
    requires m <= |kinds|
  {
    && Partition.Concat(st.done) + st.line == Expand(kinds, m)
    && (forall li :: 0 <= li < |st.done| ==> BreaksLead(kinds, ignoreNewlines, st.done[li]) && MarkAlone(st.done[li]))
    && (forall li :: 0 < li < |st.done| ==> |st.done[li]| > 0 && IsBreak(kinds, ignoreNewlines, st.done[li][0]))
    && BreaksLead(kinds, ignoreNewlines, st.line)
    && (forall j :: 0 <= j < |st.line| ==> st.line[j].Orig?)
    && (|st.done| > 0 ==> |st.line| > 0 && IsBreak(kinds, ignoreNewlines, st.line[0]))
    && (m > 0 <==> |st.line| > 0)
    && (m > 0 ==> (|st.done| > 0 && |st.done[0]| == 0 <==> IsBreak(kinds, ignoreNewlines, Orig(0))))
  }

  lemma {:induction false} ScanKeepsInv(kinds: seq<ClipType>, ignoreNewlines: bool, m: nat)
    requires m <= |kinds|
    ensures ScanInv(kinds, ignoreNewlines, m, Scan(kinds, ignoreNewlines, m))
  {
    if m > 0 {
      ScanKeepsInv(kinds, ignoreNewlines, m - 1);
      var st := Scan(kinds, ignoreNewlines, m - 1);
      var k := m - 1;
      if kinds[k] == NewLine && !ignoreNewlines {
        StepOpensLine(kinds, ignoreNewlines, k, st);
      } else if kinds[k] == GrafBreak {
        StepAddsMark(kinds, ignoreNewlines, k, st);
      } else {
        StepExtendsLine(kinds, ignoreNewlines, k, st);
      }
    }
  }

  lemma StepOpensLine(kinds: seq<ClipType>, ignoreNewlines: bool, k: nat, st: LineState)
    requires k < |kinds| && kinds[k] == NewLine && !ignoreNewlines
    requires ScanInv(kinds, ignoreNewlines, k, st)
    ensures ScanInv(kinds, ignoreNewlines, k + 1, Step(st, kinds[k], k, ignoreNewlines))
  {
    var next := Step(st, kinds[k], k, ignoreNewlines);
    var done := st.done + [st.line];
    assert next == LineState(done, [Orig(k)]);
    Partition.ConcatSnoc(st.done, st.line);
    assert Expand(kinds, k + 1) == Expand(kinds, k) + [Orig(k)];
    assert Partition.Concat(done) + [Orig(k)] == Expand(kinds, k + 1);
    assert MarkAlone(st.line);
    CloseLine(kinds, ignoreNewlines, st.done, st.line);
    assert IsBreak(kinds, ignoreNewlines, Orig(k));
  }

  /** Closing a line that keeps the shape of the finished ones keeps it. */
  lemma CloseLine(kinds: seq<ClipType>, ignoreNewlines: bool, done: seq<seq<Slot>>, line: seq<Slot>)
    requires forall li :: 0 <= li < |done| ==> BreaksLead(kinds, ignoreNewlines, done[li]) && MarkAlone(done[li])
    requires forall li :: 0 < li < |done| ==> |done[li]| > 0 && IsBreak(kinds, ignoreNewlines, done[li][0])
    requires BreaksLead(kinds, ignoreNewlines, line) && MarkAlone(line)
    requires |done| > 0 ==> |line| > 0 && IsBreak(kinds, ignoreNewlines, line[0])
    ensures var ds := done + [line];
      && (forall li :: 0 <= li < |ds| ==> BreaksLead(kinds, ignoreNewlines, ds[li]) && MarkAlone(ds[li]))
      && (forall li :: 0 < li < |ds| ==> |ds[li]| > 0 && IsBreak(kinds, ignoreNewlines, ds[li][0]))
  {
    var ds := done + [line];
    forall li | 0 <= li < |ds|
      ensures ds[li] == if li < |done| then done[li] else line
    {
    }
  }

  lemma StepAddsMark(kinds: seq<ClipType>, ignoreNewlines: bool, k: nat, st: LineState)
    requires k < |kinds| && kinds[k] == GrafBreak
    requires ScanInv(kinds, ignoreNewlines, k, st)
    ensures ScanInv(kinds, ignoreNewlines, k + 1, Step(st, kinds[k], k, ignoreNewlines))
  {
    var next := Step(st, kinds[k], k, ignoreNewlines);
    var done := st.done + [st.line] + [[Mark(k)]];
    assert next == LineState(done, [Orig(k)]);
    Partition.ConcatSnoc(st.done, st.line);
    Partition.ConcatSnoc(st.done + [st.line], [Mark(k)]);
    assert Expand(kinds, k + 1) == Expand(kinds, k) + [Mark(k), Orig(k)];
    assert Partition.Concat(done) + [Orig(k)] == Expand(kinds, k + 1);
    assert MarkAlone(st.line);
    CloseLine(kinds, ignoreNewlines, st.done, st.line);
    CloseLine(kinds, ignoreNewlines, st.done + [st.line], [Mark(k)]);
    assert IsBreak(kinds, ignoreNewlines, Orig(k));
  }

  lemma StepExtendsLine(kinds: seq<ClipType>, ignoreNewlines: bool, k: nat, st: LineState)
    requires k < |kinds| && kinds[k] != GrafBreak && !(kinds[k] == NewLine && !ignoreNewlines)
    requires ScanInv(kinds, ignoreNewlines, k, st)
    ensures ScanInv(kinds, ignoreNewlines, k + 1, Step(st, kinds[k], k, ignoreNewlines))
  {
    var line := st.line + [Orig(k)];
    assert Step(st, kinds[k], k, ignoreNewlines) == LineState(st.done, line);
    assert Expand(kinds, k + 1) == Expand(kinds, k) + [Orig(k)];
    assert (Partition.Concat(st.done) + st.line) + [Orig(k)] == Partition.Concat(st.done) + line;
    assert !IsBreak(kinds, ignoreNewlines, Orig(k));
    assert forall j :: 0 <= j < |st.line| ==> line[j] == st.line[j];
  }

  /** The lines hold every clip of the group once, in order, with each
      GrafBreak clip's mark just before it; a mark is alone on its line;
      breaks stand only at the head of a line and every line but the first
      starts with one, so the lines are exactly the pieces between breaks.
      Only the first line can be empty (when the group starts with a
      break), and there are no lines exactly when there are no clips. */
  lemma LinesShape(kinds: seq<ClipType>, ignoreNewlines: bool)
    ensures var ls := Lines(kinds, ignoreNewlines);
      && Partition.Concat(ls) == Expand(kinds, |kinds|)
      && (forall li :: 0 <= li < |ls| ==> BreaksLead(kinds, ignoreNewlines, ls[li]) && MarkAlone(ls[li]))
      && (forall li :: 0 < li < |ls| ==> |ls[li]| > 0 && IsBreak(kinds, ignoreNewlines, ls[li][0]))
      && (|ls| == 0 <==> |kinds| == 0)
      && (|kinds| > 0 ==> (|ls[0]| == 0 <==> IsBreak(kinds, ignoreNewlines, Orig(0))))
  {
    var st := Scan(kinds, ignoreNewlines, |kinds|);
    ScanKeepsInv(kinds, ignoreNewlines, |kinds|);
    if |st.line| > 0 {
      ClosedShape(kinds, ignoreNewlines, st);
      assert Lines(kinds, ignoreNewlines) == st.done + [st.line];
    } else {
      assert |kinds| == 0 && st.done == [];
    }
  }

  /** `LinesShape` once the open line, which is not empty, is closed. */
  lemma ClosedShape(kinds: seq<ClipType>, ignoreNewlines: bool, st: LineState)
    requires ScanInv(kinds, ignoreNewlines, |kinds|, st) && |st.line| > 0
    ensures var ls := st.done + [st.line];
      && Partition.Concat(ls) == Expand(kinds, |kinds|)
      && (forall li :: 0 <= li < |ls| ==> BreaksLead(kinds, ignoreNewlines, ls[li]) && MarkAlone(ls[li]))
      && (forall li :: 0 < li < |ls| ==> |ls[li]| > 0 && IsBreak(kinds, ignoreNewlines, ls[li][0]))
      && |ls| > 0 && |kinds| > 0
      && (|ls[0]| == 0 <==> IsBreak(kinds, ignoreNewlines, Orig(0)))
  {
    Partition.ConcatSnoc(st.done, st.line);
    var ls := st.done + [st.line];
    forall li | 0 <= li < |ls|
      ensures ls[li] == if li < |st.done| then st.done[li] else st.line
    {
    }
    assert MarkAlone(st.line);
  }

  /** Every clip of the group is in the expansion. */
  lemma {:induction false} OrigInExpand(kinds: seq<ClipType>, m: nat, k: nat)
    requires k < m <= |kinds|
    ensures Orig(k) in Expand(kinds, m)
  {
    if k < m - 1 {
      OrigInExpand(kinds, m - 1, k);
    }
  }

  /** A slot of the flattened lines stands on one of the lines. */
  lemma {:induction false} InFlatten(lines: seq<seq<Slot>>, s: Slot)
    requires s in Partition.Concat(lines)
    ensures exists li, j :: 0 <= li < |lines| && 0 <= j < |lines[li]| && lines[li][j] == s
  {
    var n := |lines|;
    var init := lines[..n - 1];
    if s in Partition.Concat(init) {
      InFlatten(init, s);
      var li, j :| 0 <= li < |init| && 0 <= j < |init[li]| && init[li][j] == s;
      assert lines[li] == init[li];
    } else {
      var j :| 0 <= j < |lines[n - 1]| && lines[n - 1][j] == s;
    }
  }

  /** Every clip of the group stands on some line. */
  lemma EveryClipOnALine(kinds: seq<ClipType>, ignoreNewlines: bool, k: nat)
    requires k < |kinds|
    ensures exists li, j :: 0 <= li < |Lines(kinds, ignoreNewlines)| && 0 <= j < |Lines(kinds, ignoreNewlines)[li]|
                         && Lines(kinds, ignoreNewlines)[li][j] == Orig(k)
  {
    LinesShape(kinds, ignoreNewlines);
    OrigInExpand(kinds, |kinds|, k);
    InFlatten(Lines(kinds, ignoreNewlines), Orig(k));
  }

  /** Where the source only tests each clip's own type: a NewLine clip is
      the head of a line unless newlines are ignored, and a GrafBreak clip
      always is. */
  lemma BreakClipsLead(kinds: seq<ClipType>, ignoreNewlines: bool, li: nat, j: nat)
    requires li < |Lines(kinds, ignoreNewlines)| && j < |Lines(kinds, ignoreNewlines)[li]|
    requires Lines(kinds, ignoreNewlines)[li][j].Orig?
    requires Lines(kinds, ignoreNewlines)[li][j].k < |kinds|
    requires kinds[Lines(kinds, ignoreNewlines)[li][j].k] == GrafBreak
          || (kinds[Lines(kinds, ignoreNewlines)[li][j].k] == NewLine && !ignoreNewlines)
    ensures j == 0
  {
    LinesShape(kinds, ignoreNewlines);
  }
}
