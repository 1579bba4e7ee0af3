/** The tree of pens `ClipGroup.pens` returns (coldtype/time/sequence.py),
    as values: a list of line pens, each a list of slugs, each a list of
    clip pens, each a list of glyphs. The source builds it from DATPens
    objects tagged "line", "slug" and "clip"; here each such object is the
    value it holds. `ClipGroupPens.remove_futures` empties the pens of the
    clips still to come and prunes what is left empty. */
module PenTree {
  import opened ClipSequence
  import opened Partition

  /** The pens of one clip (tag "clip"): one glyph per character of the
      text the clip was rendered with, the clip and its line's index. */
  datatype ClipPen = ClipPen(clip: Clip, line: nat, glyphs: seq<char>)

  /** A slug (tag "slug"): a clip's pens and those of the JoinPrev clips
      joined to it. */
  type Slug = seq<ClipPen>

  /** A line (tag "line"): its index, the position of its last clip that
      is current or past, the text of its clips, and its slugs. */
  datatype LinePen = LinePen(index: nat, position: int, text: string, slugs: seq<Slug>)

  /** `[x for x in xs if p(x)]`. */
  function Keep<T>(xs: seq<T>, p: T -> bool): (r: seq<T>)
    ensures |r| <= |xs| && forall j :: 0 <= j < |r| ==> p(r[j]) && r[j] in xs
  {
    if |xs| == 0 then [] else Keep(xs[..|xs| - 1], p) + if p(xs[|xs| - 1]) then [xs[|xs| - 1]] else []
  }

  /** Keeping distributes over concatenation. */
  lemma {:induction false} KeepAppend<T>(xs: seq<T>, ys: seq<T>, p: T -> bool)
    ensures Keep(xs + ys, p) == Keep(xs, p) + Keep(ys, p)
    decreases |ys|
  {
    if |ys| > 0 {
      var init := ys[..|ys| - 1];
      assert (xs + ys)[..|xs + ys| - 1] == xs + init;
      KeepAppend(xs, init, p);
    } else {
      assert xs + ys == xs;
    }
  }

  /** Nothing is dropped from a list whose every element passes. */
  lemma {:induction false} KeepAll<T>(xs: seq<T>, p: T -> bool)
    requires forall j :: 0 <= j < |xs| ==> p(xs[j])
    ensures Keep(xs, p) == xs
  {
    if |xs| > 0 {
      KeepAll(xs[..|xs| - 1], p);
    }
  }

  // ---------------------------------------------------------------------
  // Flattening

  lemma {:induction false} ConcatAppend<T>(xss: seq<seq<T>>, yss: seq<seq<T>>)
    ensures Concat(xss + yss) == Concat(xss) + Concat(yss)
    decreases |yss|
  {
    if |yss| > 0 {
      var init := yss[..|yss| - 1];
      assert (xss + yss)[..|xss + yss| - 1] == xss + init;
      ConcatAppend(xss, init);
    } else {
      assert xss + yss == xss;
    }
  }

  /** The clip pens of a line, slug by slug. */
  function LineClipPens(l: LinePen): seq<ClipPen> {
    Concat(l.slugs)
  }

  /** The clip pens of a tree, line by line (what `iterate_clips` walks). */
  function ClipPens(tree: seq<LinePen>): seq<ClipPen> {
    if |tree| == 0 then [] else ClipPens(tree[..|tree| - 1]) + LineClipPens(tree[|tree| - 1])
  }

  /** The clips a tree holds pens of. */
  function ClipsIn(tree: seq<LinePen>): set<Clip> {
    set i, j, k | 0 <= i < |tree| && 0 <= j < |tree[i].slugs| && 0 <= k < |tree[i].slugs[j]| :: tree[i].slugs[j][k].clip
  }

  // ---------------------------------------------------------------------
  // `remove_futures(clean)`

  /** The clips still to come: those whose position is 1. */
  function FutureClips(tree: seq<LinePen>): set<Clip>
    reads ClipsIn(tree)
  {
    set c | c in ClipsIn(tree) && c.position > 0
  }

  function EmptyIfFuture(cp: ClipPen, fut: set<Clip>): ClipPen {
    if cp.clip in fut then cp.(glyphs := []) else cp
  }

  function EmptySlug(s: Slug, fut: set<Clip>): (r: Slug)
    ensures |r| == |s| && forall k :: 0 <= k < |s| ==> r[k] == EmptyIfFuture(s[k], fut)
  {
    seq(|s|, k requires 0 <= k < |s| => EmptyIfFuture(s[k], fut))
  }

  function EmptySlugs(slugs: seq<Slug>, fut: set<Clip>): (r: seq<Slug>)
    ensures |r| == |slugs| && forall j :: 0 <= j < |slugs| ==> r[j] == EmptySlug(slugs[j], fut)
  {
    seq(|slugs|, j requires 0 <= j < |slugs| => EmptySlug(slugs[j], fut))
  }

  function EmptyLine(l: LinePen, fut: set<Clip>): (r: LinePen)
    ensures r.index == l.index && r.position == l.position && r.text == l.text && |r.slugs| == |l.slugs|
    ensures forall j :: 0 <= j < |l.slugs| ==> r.slugs[j] == EmptySlug(l.slugs[j], fut)
  {
    l.(slugs := EmptySlugs(l.slugs, fut))
  }

  /** Every pen of a clip in `fut` loses its glyphs (the first loop of
      `remove_futures`, and the emptying of blank clips in `pens`). */
  function Emptied(tree: seq<LinePen>, fut: set<Clip>): (r: seq<LinePen>)
    ensures |r| == |tree| && forall i :: 0 <= i < |tree| ==> r[i] == EmptyLine(tree[i], fut)
  {
    seq(|tree|, i requires 0 <= i < |tree| => EmptyLine(tree[i], fut))
  }

  /** Emptying the pens of no clip changes nothing. */
  lemma EmptiedNone(tree: seq<LinePen>)
    ensures Emptied(tree, {}) == tree
  {
    forall i | 0 <= i < |tree|
      ensures EmptyLine(tree[i], {}) == tree[i]
    {
      var l := tree[i];
      forall j | 0 <= j < |l.slugs|
        ensures EmptySlug(l.slugs[j], {}) == l.slugs[j]
      {
      }
    }
  }

  predicate HasGlyphs(cp: ClipPen) {
    |cp.glyphs| > 0
  }

  predicate SlugFilled(s: Slug) {
    |s| > 0
  }

  predicate LineFilled(l: LinePen) {
    |l.slugs| > 0
  }

  /** The second loop, on one line's slugs: each keeps its clip pens that
      have glyphs. */
  function PruneSlugs(slugs: seq<Slug>): (r: seq<Slug>)
    ensures |r| == |slugs| && forall j :: 0 <= j < |slugs| ==> r[j] == Keep(slugs[j], HasGlyphs)
  {
    seq(|slugs|, j requires 0 <= j < |slugs| => Keep(slugs[j], HasGlyphs))
  }

  /** The second and third loops on one line: its slugs are pruned, then
      it keeps the slugs left with a pen. */
  function PruneLine(l: LinePen): LinePen {
    l.(slugs := Keep(PruneSlugs(l.slugs), SlugFilled))
  }

  /** The clean-up: slugs, then lines, then the group keep only what is
      not empty. */
  function Prune(tree: seq<LinePen>): seq<LinePen> {
    Keep(PruneLines(tree), LineFilled)
  }

  function PruneLines(tree: seq<LinePen>): (r: seq<LinePen>)
    ensures |r| == |tree| && forall i :: 0 <= i < |tree| ==> r[i] == PruneLine(tree[i])
  {
    seq(|tree|, i requires 0 <= i < |tree| => PruneLine(tree[i]))
  }

  function RemovedFutures(tree: seq<LinePen>, fut: set<Clip>, clean: bool): seq<LinePen> {
    if clean then Prune(Emptied(tree, fut)) else Emptied(tree, fut)
  }

  /** A tree with nothing empty: every line has a slug, every slug a clip
      pen, every clip pen a glyph, and no pen is of a clip in `fut`. */
  predicate Settled(tree: seq<LinePen>, fut: set<Clip>) {
    forall i :: 0 <= i < |tree| ==> LineSettled(tree[i], fut)
  }

  predicate LineSettled(l: LinePen, fut: set<Clip>) {
    && |l.slugs| > 0
    && forall j :: 0 <= j < |l.slugs| ==> SlugSettled(l.slugs[j], fut)
  }

  predicate SlugSettled(s: Slug, fut: set<Clip>) {
    |s| > 0 && forall k :: 0 <= k < |s| ==> |s[k].glyphs| > 0 && s[k].clip !in fut
  }

  /** `remove_futures(clean)`: the pens of future clips are emptied, and
      with `clean` every empty clip pen, slug and line is dropped. */
  method RemoveFutures(tree: seq<LinePen>, clean: bool) returns (r: seq<LinePen>)
    ensures r == RemovedFutures(tree, FutureClips(tree), clean)
  {
    ghost var fut := FutureClips(tree);
    ghost var emptied := Emptied(tree, fut);
    r := [];
    for i := 0 to |tree|
      invariant |r| == i && forall i' :: 0 <= i' < i ==> r[i'] == emptied[i']
    {
      var slugs := [];
      for j := 0 to |tree[i].slugs|
        invariant |slugs| == j && forall j' :: 0 <= j' < j ==> slugs[j'] == emptied[i].slugs[j']
      {
        var slug := tree[i].slugs[j];
        var pens := [];
        for k := 0 to |slug|
          invariant |pens| == k && forall k' :: 0 <= k' < k ==> pens[k'] == emptied[i].slugs[j][k']
        {
          var cp := slug[k];
          pens := pens + [if cp.clip.position > 0 then cp.(glyphs := []) else cp];
        }
        slugs := slugs + [pens];
      }
      r := r + [tree[i].(slugs := slugs)];
    }
    assert r == emptied;
    if clean {
      for i := 0 to |r|
        invariant |r| == |tree|
        invariant forall i' :: 0 <= i' < |r| ==>
          r[i'] == if i' < i then emptied[i'].(slugs := PruneSlugs(emptied[i'].slugs)) else emptied[i']
      {
        r := r[i := r[i].(slugs := PruneSlugs(r[i].slugs))];
      }
      for i := 0 to |r|
        invariant |r| == |tree|
        invariant forall i' :: 0 <= i' < |r| ==>
          r[i'] == if i' < i then PruneLine(emptied[i']) else emptied[i'].(slugs := PruneSlugs(emptied[i'].slugs))
      {
        r := r[i := r[i].(slugs := Keep(r[i].slugs, SlugFilled))];
      }
      assert r == PruneLines(emptied);
      r := Keep(r, LineFilled);
      assert r == Prune(emptied);
    }

  }

  // ---------------------------------------------------------------------
  // What `remove_futures` leaves

  /** With `clean`, nothing empty is left and no pen of a future clip. */
  lemma RemoveFuturesSettles(tree: seq<LinePen>, fut: set<Clip>)
    ensures Settled(RemovedFutures(tree, fut, true), fut)
  {
    var emptied := Emptied(tree, fut);
    var pruned := PruneLines(emptied);
    var r := Keep(pruned, LineFilled);
    forall i | 0 <= i < |r|
      ensures LineSettled(r[i], fut)
    {
      var i0 :| 0 <= i0 < |pruned| && pruned[i0] == r[i];
      PruneLineSettles(tree[i0], fut);
    }
  }

  /** A line, once emptied and pruned, is settled if it kept a slug. */
  lemma PruneLineSettles(l: LinePen, fut: set<Clip>)
    ensures |PruneLine(EmptyLine(l, fut)).slugs| > 0 ==> LineSettled(PruneLine(EmptyLine(l, fut)), fut)
  {
    var e := EmptyLine(l, fut);
    var slugs := PruneSlugs(e.slugs);
    var kept := PruneLine(e).slugs;
    forall j | 0 <= j < |kept|
      ensures SlugSettled(kept[j], fut)
    {
      var j0 :| 0 <= j0 < |slugs| && slugs[j0] == kept[j];
      PruneSlugSettles(l.slugs[j0], fut);
    }
  }

  /** The pens a slug keeps once emptied all have glyphs, so none is of a
      future clip. */
  lemma PruneSlugSettles(s: Slug, fut: set<Clip>)
    ensures forall k :: 0 <= k < |Keep(EmptySlug(s, fut), HasGlyphs)| ==>
      Keep(EmptySlug(s, fut), HasGlyphs)[k].clip !in fut
  {
    var e := EmptySlug(s, fut);
    var kept := Keep(e, HasGlyphs);
    forall k | 0 <= k < |kept|
      ensures kept[k].clip !in fut
    {
      var k0 :| 0 <= k0 < |e| && e[k0] == kept[k];
    }
  }

  /** A settled tree is left as it is. */
  lemma SettledIsKept(tree: seq<LinePen>, fut: set<Clip>)
    requires Settled(tree, fut)
    ensures RemovedFutures(tree, fut, true) == tree
  {
    var emptied := Emptied(tree, fut);
    forall i | 0 <= i < |tree|
      ensures emptied[i] == tree[i] && PruneLine(tree[i]) == tree[i]
    {
      forall j | 0 <= j < |tree[i].slugs|
        ensures EmptySlug(tree[i].slugs[j], fut) == tree[i].slugs[j]
        ensures Keep(tree[i].slugs[j], HasGlyphs) == tree[i].slugs[j]
      {
        KeepAll(tree[i].slugs[j], HasGlyphs);
      }
      assert emptied[i].slugs == tree[i].slugs;
      assert PruneSlugs(tree[i].slugs) == tree[i].slugs;
      KeepAll(tree[i].slugs, SlugFilled);
    }
    assert emptied == tree;
    assert PruneLines(tree) == tree;
    KeepAll(tree, LineFilled);
  }

  /** Removing the futures twice removes no more than once. */
  lemma RemoveFuturesIdempotent(tree: seq<LinePen>, fut: set<Clip>, clean: bool)
    ensures RemovedFutures(RemovedFutures(tree, fut, clean), fut, clean) == RemovedFutures(tree, fut, clean)
  {
    var r := RemovedFutures(tree, fut, clean);
    if clean {
      RemoveFuturesSettles(tree, fut);
      SettledIsKept(r, fut);
    } else {
      forall i | 0 <= i < |r|
        ensures EmptyLine(r[i], fut) == r[i]
      {
        forall j | 0 <= j < |r[i].slugs|
          ensures EmptySlug(r[i].slugs[j], fut) == r[i].slugs[j]
        {
        }
        assert EmptyLine(r[i], fut).slugs == r[i].slugs;
      }
      assert Emptied(r, fut) == r;
    }
  }

  /** The clip pens that outlive `remove_futures(clean=True)`: those of
      clips not in `fut` that have glyphs, in their order. */
  function Surviving(cps: seq<ClipPen>, fut: set<Clip>): seq<ClipPen> {
    if |cps| == 0 then []
    else
      var cp := cps[|cps| - 1];
      Surviving(cps[..|cps| - 1], fut) + if cp.clip !in fut && |cp.glyphs| > 0 then [cp] else []
  }

  /** With `clean`, the clip pens left, read line by line and slug by slug,
      are exactly the surviving pens of the tree, in the same order. */
  lemma {:induction false} RemoveFuturesKeepsSurvivors(tree: seq<LinePen>, fut: set<Clip>)
    ensures ClipPens(RemovedFutures(tree, fut, true)) == Surviving(ClipPens(tree), fut)
  {
    var lines := PruneLines(Emptied(tree, fut));
    DropEmptyLines(lines);
    LinesSurvive(tree, fut);
  }

  lemma {:induction false} LinesSurvive(tree: seq<LinePen>, fut: set<Clip>)
    ensures ClipPens(PruneLines(Emptied(tree, fut))) == Surviving(ClipPens(tree), fut)
  {
    var n := |tree|;
    if n > 0 {
      var init := tree[..n - 1];
      LinesSurvive(init, fut);
      assert PruneLines(Emptied(tree, fut))[..n - 1] == PruneLines(Emptied(init, fut));
      LineSurvives(tree[n - 1], fut);
      SurvivingAppend(ClipPens(init), LineClipPens(tree[n - 1]), fut);
    }
  }

  lemma LineSurvives(l: LinePen, fut: set<Clip>)
    ensures LineClipPens(PruneLine(EmptyLine(l, fut))) == Surviving(LineClipPens(l), fut)
  {
    DropEmptySlugs(PruneSlugs(EmptySlugs(l.slugs, fut)));
    SlugsSurvive(l.slugs, fut);
  }

  lemma {:induction false} SlugsSurvive(slugs: seq<Slug>, fut: set<Clip>)
    ensures Concat(PruneSlugs(EmptySlugs(slugs, fut))) == Surviving(Concat(slugs), fut)
  {
    var n := |slugs|;
    if n > 0 {
      var init := slugs[..n - 1];
      SlugsSurvive(init, fut);
      assert PruneSlugs(EmptySlugs(slugs, fut))[..n - 1] == PruneSlugs(EmptySlugs(init, fut));
      SlugSurvives(slugs[n - 1], fut);
      SurvivingAppend(Concat(init), slugs[n - 1], fut);
    }
  }

  /** Within a slug, emptying then keeping the pens with glyphs keeps the
      surviving pens. */
  lemma {:induction false} SlugSurvives(s: Slug, fut: set<Clip>)
    ensures Keep(EmptySlug(s, fut), HasGlyphs) == Surviving(s, fut)
  {
    var n := |s|;
    if n > 0 {
      SlugSurvives(s[..n - 1], fut);
      assert EmptySlug(s, fut)[..n - 1] == EmptySlug(s[..n - 1], fut);
    }
  }

  lemma {:induction false} SurvivingAppend(xs: seq<ClipPen>, ys: seq<ClipPen>, fut: set<Clip>)
    ensures Surviving(xs + ys, fut) == Surviving(xs, fut) + Surviving(ys, fut)
    decreases |ys|
  {
    if |ys| > 0 {
      var init := ys[..|ys| - 1];
      assert (xs + ys)[..|xs + ys| - 1] == xs + init;
      SurvivingAppend(xs, init, fut);
    } else {
      assert xs + ys == xs;
    }
  }

  /** Dropping the empty slugs leaves the pens of a line as they are. */
  lemma {:induction false} DropEmptySlugs(slugs: seq<Slug>)
    ensures Concat(Keep(slugs, SlugFilled)) == Concat(slugs)
  {
    var n := |slugs|;
    if n > 0 {
      var init := slugs[..n - 1];
      DropEmptySlugs(init);
      if SlugFilled(slugs[n - 1]) {
        var kept := Keep(init, SlugFilled) + [slugs[n - 1]];
        assert kept[..|kept| - 1] == Keep(init, SlugFilled);
      } else {
        assert slugs[n - 1] == [];
        assert Keep(slugs, SlugFilled) == Keep(init, SlugFilled) + [];
        assert Keep(init, SlugFilled) + [] == Keep(init, SlugFilled);
        assert Concat(slugs) == Concat(init) + [];
        assert Concat(init) + [] == Concat(init);
      }
    }
  }

  /** Dropping the lines without slugs leaves the pens of a tree as they
      are. */
  lemma {:induction false} DropEmptyLines(lines: seq<LinePen>)
    ensures ClipPens(Keep(lines, LineFilled)) == ClipPens(lines)
  {
    var n := |lines|;
    if n > 0 {
      var init := lines[..n - 1];
      DropEmptyLines(init);
      if LineFilled(lines[n - 1]) {
        var kept := Keep(init, LineFilled) + [lines[n - 1]];
        assert kept[..|kept| - 1] == Keep(init, LineFilled);
      } else {
        assert Keep(lines, LineFilled) == Keep(init, LineFilled) + [];
        assert Keep(init, LineFilled) + [] == Keep(init, LineFilled);
        assert LineClipPens(lines[n - 1]) == [];
        assert ClipPens(lines) == ClipPens(init) + [];
        assert ClipPens(init) + [] == ClipPens(init);
      }
    }
  }

  // ---------------------------------------------------------------------
  // The reversals at the end of `pens`

  /** `xs` back to front. */
  function Reversed<T>(xs: seq<T>): (r: seq<T>)
    ensures |r| == |xs| && forall i :: 0 <= i < |xs| ==> r[i] == xs[|xs| - 1 - i]
  {
    seq(|xs|, i requires 0 <= i < |xs| => xs[|xs| - 1 - i])
  }

  /** A clip's `reversePens()`: its glyphs back to front. */
  function ReversePen(cp: ClipPen): ClipPen {
    cp.(glyphs := Reversed(cp.glyphs))
  }

  /** A slug's `reversePens()`, with each of its clips reversed too. */
  function ReverseSlug(s: seq<ClipPen>): (r: seq<ClipPen>)
    ensures |r| == |s| && forall i :: 0 <= i < |s| ==> r[i] == ReversePen(s[|s| - 1 - i])
  {
    seq(|s|, i requires 0 <= i < |s| => ReversePen(s[|s| - 1 - i]))
  }

  function ReverseSlugs(slugs: seq<Slug>): (r: seq<Slug>)
    ensures |r| == |slugs| && forall i :: 0 <= i < |slugs| ==> r[i] == ReverseSlug(slugs[|slugs| - 1 - i])
  {
    seq(|slugs|, i requires 0 <= i < |slugs| => ReverseSlug(slugs[|slugs| - 1 - i]))
  }

  /** A line's `reversePens()`, with each of its slugs reversed too. */
  function ReverseLine(l: LinePen): LinePen {
    l.(slugs := ReverseSlugs(l.slugs))
  }

  /** The group's `reversePens()`, with each of its lines reversed too. */
  function ReverseTree(tree: seq<LinePen>): (r: seq<LinePen>)
    ensures |r| == |tree| && forall i :: 0 <= i < |tree| ==> r[i] == ReverseLine(tree[|tree| - 1 - i])
  {
    seq(|tree|, i requires 0 <= i < |tree| => ReverseLine(tree[|tree| - 1 - i]))
  }

  lemma ReverseSlugInvolution(s: seq<ClipPen>)
    ensures ReverseSlug(ReverseSlug(s)) == s
  {
    forall i | 0 <= i < |s|
      ensures ReverseSlug(ReverseSlug(s))[i] == s[i]
    {
      var g := s[i].glyphs;
      assert Reversed(Reversed(g)) == g;
    }
  }

  lemma ReverseLineInvolution(l: LinePen)
    ensures ReverseLine(ReverseLine(l)) == l
  {
    forall i | 0 <= i < |l.slugs|
      ensures ReverseSlugs(ReverseSlugs(l.slugs))[i] == l.slugs[i]
    {
      ReverseSlugInvolution(l.slugs[i]);
    }
  }

  /** Reversing the tree at every level twice gives it back: the
      reversals at the end of `pens` lose nothing. */
  lemma ReverseTreeInvolution(tree: seq<LinePen>)
    ensures ReverseTree(ReverseTree(tree)) == tree
  {
    forall i | 0 <= i < |tree|
      ensures ReverseTree(ReverseTree(tree))[i] == tree[i]
    {
      ReverseLineInvolution(tree[i]);
    }
  }

  lemma ReverseSlugAppend(xs: seq<ClipPen>, ys: seq<ClipPen>)
    ensures ReverseSlug(xs + ys) == ReverseSlug(ys) + ReverseSlug(xs)
  {
    var l, r := ReverseSlug(xs + ys), ReverseSlug(ys) + ReverseSlug(xs);
    assert forall i :: 0 <= i < |l| ==> l[i] == r[i];
  }

  lemma ConcatCons<T>(xs: seq<T>, xss: seq<seq<T>>)
    ensures Concat([xs] + xss) == xs + Concat(xss)
  {
    ConcatAppend([xs], xss);
    assert [xs][..0] == [];
  }

  /** Read slug by slug, a reversed line's pens are the line's pens back
      to front, each reversed. */
  lemma {:induction false} ReverseSlugsOrder(slugs: seq<Slug>)
    ensures Concat(ReverseSlugs(slugs)) == ReverseSlug(Concat(slugs))
  {
    var n := |slugs|;
    if n > 0 {
      var init := slugs[..n - 1];
      ReverseSlugsOrder(init);
      assert ReverseSlugs(slugs) == [ReverseSlug(slugs[n - 1])] + ReverseSlugs(init);
      ConcatCons(ReverseSlug(slugs[n - 1]), ReverseSlugs(init));
      ReverseSlugAppend(Concat(init), slugs[n - 1]);
    } else {
      assert ReverseSlugs(slugs) == [];
    }
  }

  lemma {:induction false} ClipPensAppend(xs: seq<LinePen>, ys: seq<LinePen>)
    ensures ClipPens(xs + ys) == ClipPens(xs) + ClipPens(ys)
    decreases |ys|
  {
    if |ys| > 0 {
      var init := ys[..|ys| - 1];
      assert (xs + ys)[..|xs + ys| - 1] == xs + init;
      ClipPensAppend(xs, init);
    } else {
      assert xs + ys == xs;
    }
  }

  /** Walked clip by clip, the reversed tree holds the tree's pens back to
      front, each with its glyphs reversed: the reversals turn the order
      in which the pens were built around. */
  lemma {:induction false} ReverseTreeOrder(tree: seq<LinePen>)
    ensures ClipPens(ReverseTree(tree)) == ReverseSlug(ClipPens(tree))
  {
    var n := |tree|;
    if n > 0 {
      var init := tree[..n - 1];
      ReverseTreeOrder(init);
      var last := ReverseLine(tree[n - 1]);
      assert ReverseTree(tree) == [last] + ReverseTree(init);
      ClipPensAppend([last], ReverseTree(init));
      assert [last][..0] == [];
      ReverseSlugsOrder(tree[n - 1].slugs);
      ReverseSlugAppend(ClipPens(init), LineClipPens(tree[n - 1]));
    } else {
      assert ReverseTree(tree) == [];
    }
  }
}
