/** The partition of a track into groups by `ClipTrack.groupedClips`
    (coldtype/time/sequence.py), stated on the clip types alone. A group is
    the span `[lo, hi)` of track positions it holds. */
module Partition {
  import opened ClipSyntax

  datatype Span = Span(lo: nat, hi: nat)

  /** The loop's accumulators: the groups closed so far, and where the open
      group (`group` in the source) starts; it holds the clips from `lo` up
      to the clip being visited. */
  datatype GroupState = GroupState(closed: seq<Span>, lo: nat)

  /** One turn of the loop for clip `k`: a ClearScreen clip closes the open
      group if it holds any clip, and the open group then starts at the
      ClearScreen clip, which the loop appends to it like every other clip. */
  function GStep(st: GroupState, kind: ClipType, k: nat): GroupState {
    if kind == ClearScreen then
      if k > st.lo then GroupState(st.closed + [Span(st.lo, k)], k) else GroupState(st.closed, k)
    else st
  }

  function GScan(kinds: seq<ClipType>, m: nat): GroupState
    requires m <= |kinds|
  {
    if m == 0 then GroupState([], 0) else GStep(GScan(kinds, m - 1), kinds[m - 1], m - 1)
  }

  /** The groups: the closed ones, and the open one unless it is empty. */
  function Groups(kinds: seq<ClipType>): seq<Span> {
    var st := GScan(kinds, |kinds|);
    if |kinds| > st.lo then st.closed + [Span(st.lo, |kinds|)] else st.closed
  }

  /** `spans` cut `[0, n)` into non-empty consecutive pieces, in order. */
  predicate Tiles(spans: seq<Span>, n: nat) {
    && (|spans| == 0 <==> n == 0)
    && (|spans| > 0 ==> spans[0].lo == 0 && spans[|spans| - 1].hi == n)
    && (forall g :: 0 <= g < |spans| ==> spans[g].lo < spans[g].hi <= n)
    && (forall g, h :: 0 <= g < |spans| && 0 <= h < |spans| && h == g + 1 ==> spans[g].hi == spans[h].lo)
    && (forall g, h :: 0 <= g < h < |spans| ==> spans[g].hi <= spans[h].lo)
  }

  /** Group `g` after the first starts at a ClearScreen clip, and no
      ClearScreen clip stands anywhere in a group but at its head. */
  predicate ClearScreenLeads(kinds: seq<ClipType>, spans: seq<Span>)
    requires forall g :: 0 <= g < |spans| ==> spans[g].hi <= |kinds|
  {
    && (forall g :: 0 < g < |spans| ==> spans[g].lo < |kinds| && kinds[spans[g].lo] == ClearScreen)
    && (forall g, k :: 0 <= g < |spans| && spans[g].lo < k < spans[g].hi ==> kinds[k] != ClearScreen)
  }

  predicate GScanInv(kinds: seq<ClipType>, m: nat, st: GroupState)
    requires m <= |kinds|
  {
    && st.lo <= m
    && (|st.closed| > 0 ==> st.lo < m)
    && Tiles(st.closed, st.lo)
    && ClearScreenLeads(kinds, st.closed)
    && (|st.closed| > 0 ==> kinds[st.lo] == ClearScreen)
    && (forall k :: st.lo < k < m ==> kinds[k] != ClearScreen)
  }

  lemma {:induction false} GScanKeepsInv(kinds: seq<ClipType>, m: nat)
    requires m <= |kinds|
    ensures GScanInv(kinds, m, GScan(kinds, m))
  {
    if m > 0 {
      GScanKeepsInv(kinds, m - 1);
      GScanNext(kinds, m);
    }
  }

  lemma GScanNext(kinds: seq<ClipType>, m: nat)
    requires 0 < m <= |kinds| && GScanInv(kinds, m - 1, GScan(kinds, m - 1))
    ensures GScanInv(kinds, m, GScan(kinds, m))
  {
    var st := GScan(kinds, m - 1);
    GStepKeepsInv(kinds, m - 1, st);
    assert GScan(kinds, m) == GStep(st, kinds[m - 1], m - 1);
  }

  lemma GStepKeepsInv(kinds: seq<ClipType>, k: nat, st: GroupState)
    requires k < |kinds| && GScanInv(kinds, k, st)
    ensures GScanInv(kinds, k + 1, GStep(st, kinds[k], k))
  {
    if kinds[k] != ClearScreen {
      GStepPasses(kinds, k, st);
    } else if k > st.lo {
      GStepCloses(kinds, k, st);
    } else {
      GStepRestarts(kinds, k, st);
    }
  }

  lemma GStepPasses(kinds: seq<ClipType>, k: nat, st: GroupState)
    requires k < |kinds| && kinds[k] != ClearScreen
    requires GScanInv(kinds, k, st)
    ensures GScanInv(kinds, k + 1, GStep(st, kinds[k], k))
  {
    assert GStep(st, kinds[k], k) == st;
  }

  lemma GStepRestarts(kinds: seq<ClipType>, k: nat, st: GroupState)
    requires k < |kinds| && kinds[k] == ClearScreen && k == st.lo
    requires GScanInv(kinds, k, st)
    ensures GScanInv(kinds, k + 1, GStep(st, kinds[k], k))
  {
    assert GStep(st, kinds[k], k) == st;
  }

  /** The closed groups tile the clips before the open group. */
  lemma GScanTiles(kinds: seq<ClipType>, m: nat)
    requires m <= |kinds|
    ensures GScan(kinds, m).lo <= m && Tiles(GScan(kinds, m).closed, GScan(kinds, m).lo)
  {
    GScanKeepsInv(kinds, m);
  }

  lemma GStepCloses(kinds: seq<ClipType>, k: nat, st: GroupState)
    requires k < |kinds| && kinds[k] == ClearScreen && k > st.lo
    requires GScanInv(kinds, k, st)
    ensures GScanInv(kinds, k + 1, GStep(st, kinds[k], k))
  {
    var closed := st.closed + [Span(st.lo, k)];
    assert GStep(st, kinds[k], k) == GroupState(closed, k);
    CloseGroup(kinds, st.closed, st.lo, k);
  }

  /** The span holding position `k`: the last span starting at or before
      it. */
  function SpanOf(spans: seq<Span>, k: nat): (g: nat)
    ensures |spans| > 0 ==> g < |spans|
  {
    if |spans| <= 1 then 0
    else if spans[|spans| - 1].lo <= k then |spans| - 1
    else SpanOf(spans[..|spans| - 1], k)
  }

  /** In a tiling, `SpanOf` finds the span that holds `k`, and only that
      span holds it. */
  lemma {:induction false} SpanOfIn(spans: seq<Span>, n: nat, g: nat, k: nat)
    requires Tiles(spans, n) && g < |spans| && spans[g].lo <= k < spans[g].hi
    ensures SpanOf(spans, k) == g
  {
    if |spans| > 1 && g < |spans| - 1 {
      assert spans[g].hi <= spans[|spans| - 1].lo;
      TilesInit(spans, n);
      SpanOfIn(spans[..|spans| - 1], spans[|spans| - 1].lo, g, k);
    }
  }

  /** A new span after a tiling of `[0, lo)` tiles `[0, hi)`. */
  lemma TilesSnoc(spans: seq<Span>, lo: nat, hi: nat)
    requires lo < hi && Tiles(spans, lo)
    ensures Tiles(spans + [Span(lo, hi)], hi)
  {
    var next := spans + [Span(lo, hi)];
    assert forall g :: 0 <= g < |spans| ==> next[g] == spans[g];
  }

  /** Closing the open group `[lo, hi)` after the closed ones keeps the
      tiling and the place of the ClearScreen clips. */
  lemma CloseGroup(kinds: seq<ClipType>, closed: seq<Span>, lo: nat, hi: nat)
    requires lo < hi <= |kinds|
    requires Tiles(closed, lo) && ClearScreenLeads(kinds, closed)
    requires |closed| > 0 ==> kinds[lo] == ClearScreen
    requires forall k :: lo < k < hi ==> kinds[k] != ClearScreen
    ensures Tiles(closed + [Span(lo, hi)], hi)
    ensures ClearScreenLeads(kinds, closed + [Span(lo, hi)])
  {
    TilesSnoc(closed, lo, hi);
    LeadsSnoc(kinds, closed, lo, hi);
  }

  lemma LeadsSnoc(kinds: seq<ClipType>, closed: seq<Span>, lo: nat, hi: nat)
    requires lo < hi <= |kinds|
    requires Tiles(closed, lo) && ClearScreenLeads(kinds, closed)
    requires |closed| > 0 ==> kinds[lo] == ClearScreen
    requires forall k :: lo < k < hi ==> kinds[k] != ClearScreen
    ensures forall g :: 0 <= g < |closed + [Span(lo, hi)]| ==> (closed + [Span(lo, hi)])[g].hi <= |kinds|
    ensures ClearScreenLeads(kinds, closed + [Span(lo, hi)])
  {
    var spans := closed + [Span(lo, hi)];
    forall g | 0 <= g < |spans|
      ensures spans[g] == if g < |closed| then closed[g] else Span(lo, hi)
    {
    }
  }

  /** The groups tile the track in order (so concatenating them gives the
      track's clips back, each once); each group after the first starts
      with its ClearScreen clip, which is kept; and a ClearScreen clip
      stands nowhere else in a group. */
  lemma GroupsShape(kinds: seq<ClipType>)
    ensures Tiles(Groups(kinds), |kinds|)
    ensures ClearScreenLeads(kinds, Groups(kinds))
  {
    var st := GScan(kinds, |kinds|);
    GScanKeepsInv(kinds, |kinds|);
    if |kinds| > st.lo {
      CloseGroup(kinds, st.closed, st.lo, |kinds|);
    }
  }

  /** The group that holds track position `k`. */
  lemma GroupOf(kinds: seq<ClipType>, k: nat) returns (g: nat)
    requires k < |kinds|
    ensures g < |Groups(kinds)| && Groups(kinds)[g].lo <= k < Groups(kinds)[g].hi
  {
    GroupsShape(kinds);
    var gs := Groups(kinds);
    g := 0;
    while gs[g].hi <= k
      invariant g < |gs| && gs[g].lo <= k
      decreases |gs| - g
    {
      g := g + 1;
    }
  }

  /** A JoinPrev clip other than the track's first is never the first clip
      of its group, so the predecessor it is linked to is in its group: join
      links never cross a group boundary. */
  lemma JoinPrevKeepsGroup(kinds: seq<ClipType>, g: nat, k: nat)
    requires g < |Groups(kinds)| && Groups(kinds)[g].lo <= k < Groups(kinds)[g].hi
    requires 0 < k < |kinds| && kinds[k] == JoinPrev
    ensures Groups(kinds)[g].lo < k
  {
    GroupsShape(kinds);
  }

  /** The clips of a track, cut along the spans. */
  function Pieces<T>(xs: seq<T>, spans: seq<Span>): (r: seq<seq<T>>)
    requires forall g :: 0 <= g < |spans| ==> spans[g].lo <= spans[g].hi <= |xs|
    ensures |r| == |spans| && forall g :: 0 <= g < |spans| ==> r[g] == xs[spans[g].lo..spans[g].hi]
  {
    if |spans| == 0 then [] else Pieces(xs, spans[..|spans| - 1]) + [xs[spans[|spans| - 1].lo..spans[|spans| - 1].hi]]
  }

  function Concat<T>(xss: seq<seq<T>>): seq<T> {
    if |xss| == 0 then [] else Concat(xss[..|xss| - 1]) + xss[|xss| - 1]
  }

  /** Cutting along a tiling and concatenating the pieces gives the whole. */
  lemma {:induction false} ConcatPieces<T>(xs: seq<T>, spans: seq<Span>)
    requires Tiles(spans, |xs|)
    ensures Concat(Pieces(xs, spans)) == xs
  {
    if |spans| > 0 {
      var n := |spans|;
      var init := spans[..n - 1];
      var cut := spans[n - 1].lo;
      assert spans[n - 1].hi == |xs|;
      var last := xs[cut..spans[n - 1].hi];
      TilesInit(spans, |xs|);
      assert cut <= |xs| && |xs[..cut]| == cut;
      ConcatPieces(xs[..cut], init);
      PiecesOfPrefix(xs, cut, init);
      assert Pieces(xs, spans) == Pieces(xs, init) + [last];
      ConcatSnoc(Pieces(xs, init), last);
      SplitAt(xs, cut);
    }
  }

  lemma SplitAt<T>(xs: seq<T>, cut: nat)
    requires cut <= |xs|
    ensures xs[..cut] + xs[cut..|xs|] == xs
  {
  }

  lemma ConcatSnoc<T>(xss: seq<seq<T>>, xs: seq<T>)
    ensures Concat(xss + [xs]) == Concat(xss) + xs
  {
    assert (xss + [xs])[..|xss|] == xss;
  }

  lemma TilesInit(spans: seq<Span>, n: nat)
    requires Tiles(spans, n) && |spans| > 0
    ensures Tiles(spans[..|spans| - 1], spans[|spans| - 1].lo)
  {
    var init := spans[..|spans| - 1];
    if |spans| > 1 {
      assert init[|spans| - 2] == spans[|spans| - 2];
    }
  }

  lemma {:induction false} PiecesOfPrefix<T>(xs: seq<T>, cut: nat, spans: seq<Span>)
    requires cut <= |xs|
    requires forall g :: 0 <= g < |spans| ==> spans[g].lo <= spans[g].hi <= cut
    ensures Pieces(xs[..cut], spans) == Pieces(xs, spans)
  {
    if |spans| > 0 {
      var last := spans[|spans| - 1];
      PiecesOfPrefix(xs, cut, spans[..|spans| - 1]);
      assert xs[..cut][last.lo..last.hi] == xs[last.lo..last.hi];
    }
  }
}
