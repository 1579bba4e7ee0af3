/** The structural half of `ClipGroup.pens` (coldtype/time/sequence.py):
    the group's lines are rendered clip by clip through a callback, cut into
    runs of one style, laid out, and the laid-out glyphs are cut back into
    one pen per clip, gathered into slugs and lines. The layout engine is
    taken to give one glyph per character of the text it is handed, which
    is what the slicing by text length assumes. */
module GroupPens {
  import opened Results
  import opened ClipSyntax
  import opened ClipSequence
  import opened PenTree
  import opened Partition
  import LineLayout

  /** What the callback made of one clip: the text to lay out, the clip's
      index in its group and the style (`[text, clip.idx, style]`). */
  datatype Piece<S> = Piece(text: string, idx: int, style: S)

  /** Why `pens` raises: the callback did not give a text and a style for a
      clip of line `line`, or line `line` holds no clip to render, which
      makes the grouping loop read past the end of its empty list. */
  datatype PensError = RenderFailed(line: nat) | NothingToRender(line: nat)

  /** A clip `pens` hands to the callback: neither Meta nor blank. */
  predicate Renderable(c: Clip) {
    c.kind != Meta && !c.blank
  }

  predicate Numbers(line: seq<Clip>)
    reads line`idx
  {
    forall j :: 0 <= j < |line| ==> line[j].idx.Some?
  }

  /** `p` is what the callback gave for clip `c` on line `li`. */
  predicate PieceOf<S(==)>(li: nat, c: Clip, render: (nat, Clip, string) -> Option<(string, S)>, p: Piece<S>)
    reads c`text, c`idx
  {
    render(li, c, c.FText()) == Some((p.text, p.style)) && c.idx == Some(p.idx)
  }

  // ---------------------------------------------------------------------
  // Rendering a line

  /** The pieces of line `li`: the callback's answer for each renderable
      clip, in order; it fails as soon as the callback fails. */
  function Rendered<S(==)>(li: nat, line: seq<Clip>, render: (nat, Clip, string) -> Option<(string, S)>): (r: Result<seq<Piece<S>>, PensError>)
    requires Numbers(line)
    reads line`text, line`idx
    ensures r.Failure? ==> r.error == RenderFailed(li)
  {
    if |line| == 0 then Success([])
    else
      var c := line[|line| - 1];
      match Rendered(li, line[..|line| - 1], render)
      case Failure(e) => Failure(e)
      case Success(ps) =>
        if !Renderable(c) then Success(ps)
        else
          match render(li, c, c.FText())
          case None => Failure(RenderFailed(li))
          case Some(out) => Success(ps + [Piece(out.0, c.idx.value, out.1)])
  }

  /** The first loop of `pens` on one line: the callback is called on every
      clip that is neither Meta nor blank, and its failure is raised. */
  method RenderLine<S(==)>(li: nat, line: seq<Clip>, render: (nat, Clip, string) -> Option<(string, S)>)
    returns (r: Result<seq<Piece<S>>, PensError>)
    requires Numbers(line)
    ensures r == Rendered(li, line, render)
  {
    var pieces := [];
    for j := 0 to |line|
      invariant Rendered(li, line[..j], render) == Success(pieces)
    {
      var c := line[j];
      assert line[..j + 1][..j] == line[..j];
      if c.kind == Meta || c.blank {
        continue;
      }
      var out := render(li, c, c.FText());
      if out.None? {
        RenderedFails(li, line, j + 1, render);
        return Failure(RenderFailed(li));
      }
      pieces := pieces + [Piece(out.value.0, c.idx.value, out.value.1)];
    }
    assert line[..|line|] == line;
    r := Success(pieces);
  }

  /** Rendering succeeds exactly when the callback answers for every
      renderable clip, and then gives its answers in order, one per
      renderable clip. */
  lemma {:induction false} RenderedMaps<S>(li: nat, line: seq<Clip>, render: (nat, Clip, string) -> Option<(string, S)>)
    requires Numbers(line)
    ensures var rs := Keep(line, Renderable); var r := Rendered(li, line, render);
      && (r.Success? <==> forall q :: 0 <= q < |rs| ==> render(li, rs[q], rs[q].FText()).Some?)
      && (r.Success? ==> |r.value| == |rs| && forall q :: 0 <= q < |rs| ==> PieceOf(li, rs[q], render, r.value[q]))
  {
    var n := |line|;
    if n > 0 {
      var init := line[..n - 1];
      var c := line[n - 1];
      RenderedMaps(li, init, render);
      var before := Keep(init, Renderable);
      if Renderable(c) {
        var rs := before + [c];
        assert Keep(line, Renderable) == rs;
        assert rs[|before|] == c;
        assert forall q :: 0 <= q < |before| ==> rs[q] == before[q];
      } else {
        assert Keep(line, Renderable) == before + [];
        assert before + [] == before;
      }
    }
  }

  /** A failure on a prefix of the line is the line's failure. */
  lemma {:induction false} RenderedFails<S>(li: nat, line: seq<Clip>, j: nat, render: (nat, Clip, string) -> Option<(string, S)>)
    requires Numbers(line) && j <= |line|
    requires Rendered(li, line[..j], render).Failure?
    ensures Rendered(li, line, render) == Failure(RenderFailed(li))
    decreases |line| - j
  {
    if j < |line| {
      assert line[..j + 1][..j] == line[..j];
      RenderedFails(li, line, j + 1, render);
    } else {
      assert line[..j] == line;
    }
  }

  // ---------------------------------------------------------------------
  // Runs of one style

  /** The pieces cut into maximal runs of consecutive pieces of one style,
      each run keeping the style of its first piece. */
  function Runs<S(==)>(ps: seq<Piece<S>>): (r: seq<seq<Piece<S>>>)
    ensures forall g :: 0 <= g < |r| ==> |r[g]| > 0
  {
    if |ps| == 0 then []
    else
      var rs := Runs(ps[..|ps| - 1]);
      var p := ps[|ps| - 1];
      if |rs| > 0 && rs[|rs| - 1][0].style == p.style then rs[..|rs| - 1] + [rs[|rs| - 1] + [p]]
      else rs + [[p]]
  }

  /** One more piece either joins the last run or opens a new one. */
  lemma RunsNext<S>(ps: seq<Piece<S>>, i: nat)
    requires i < |ps|
    ensures var rs := Runs(ps[..i]);
      Runs(ps[..i + 1]) ==
        if |rs| > 0 && rs[|rs| - 1][0].style == ps[i].style then rs[..|rs| - 1] + [rs[|rs| - 1] + [ps[i]]]
        else rs + [[ps[i]]]
  {
    assert ps[..i + 1][..i] == ps[..i];
  }

  /** A piece of another style than the last run's opens a run. */
  lemma RunsOpen<S>(ps: seq<Piece<S>>, i: nat, runs: seq<seq<Piece<S>>>)
    requires i < |ps| && runs == Runs(ps[..i])
    requires |runs| > 0 ==> runs[|runs| - 1][0].style != ps[i].style
    ensures runs + [[ps[i]]] == Runs(ps[..i + 1])
  {
    RunsNext(ps, i);
  }

  /** A piece of the open run's style joins it. */
  lemma RunsJoin<S>(ps: seq<Piece<S>>, i: nat, runs: seq<seq<Piece<S>>>, group: seq<Piece<S>>)
    requires i < |ps| && |group| > 0 && runs + [group] == Runs(ps[..i]) && group[0].style == ps[i].style
    ensures runs + [group + [ps[i]]] == Runs(ps[..i + 1])
  {
    RunsNext(ps, i);
    var rs := runs + [group];
    assert rs[..|rs| - 1] == runs;
  }

  /** The grouping loop of `pens`: a run is opened at a piece, and every
      following piece of the same style is added to it; the first piece of
      another style closes it, and so does the end of the line. */
  method StyleRuns<S(==)>(ps: seq<Piece<S>>) returns (runs: seq<seq<Piece<S>>>)
    requires |ps| > 0
    ensures runs == Runs(ps)
  {
    runs := [];
    var i := 0;
    var done := false;
    while !done
      invariant 0 <= i <= |ps|
      invariant done ==> runs == Runs(ps)
      invariant !done ==> i < |ps| && runs == Runs(ps[..i]) && (|runs| > 0 ==> runs[|runs| - 1][0].style != ps[i].style)
      decreases if done then 0 else |ps| - i + 1
    {
      runs, i, done := GrowRun(ps, i, runs);
    }
  }

  /** The inner loop: the run opened at piece `i` takes the following
      pieces of its style and is closed at the first piece of another style
      or at the end of the line. */
  method GrowRun<S(==)>(ps: seq<Piece<S>>, i0: nat, runs0: seq<seq<Piece<S>>>)
    returns (runs: seq<seq<Piece<S>>>, i: nat, done: bool)
    requires i0 < |ps| && runs0 == Runs(ps[..i0])
    requires |runs0| > 0 ==> runs0[|runs0| - 1][0].style != ps[i0].style
    ensures i0 < i <= |ps| && (done <==> i == |ps|)
    ensures done ==> runs == Runs(ps)
    ensures !done ==> runs == Runs(ps[..i]) && |runs| > 0 && runs[|runs| - 1][0].style != ps[i].style
  {
    runs := runs0;
    i := i0;
    done := false;
    var style := ps[i].style;
    var group := [ps[i]];
    RunsOpen(ps, i, runs);
    var same := true;
    while same
      invariant i0 <= i < |ps| && |group| > 0 && group[0].style == style
      invariant same ==> runs + [group] == Runs(ps[..i + 1])
      invariant !same ==> i0 < i && runs == Runs(ps[..i]) && |runs| > 0 && runs[|runs| - 1][0].style != ps[i].style
      decreases |ps| - i, same
    {
      if i + 1 < |ps| {
        var closed := runs + [group];
        i := i + 1;
        if ps[i].style == style {
          RunsJoin(ps, i, runs, group);
          group := group + [ps[i]];
        } else {
          same := false;
          runs := closed;
        }
      } else {
        assert ps[..i + 1] == ps;
        runs := runs + [group];
        return runs, i + 1, true;
      }
    }
  }

  /** The runs, put back together, are the pieces. */
  lemma {:induction false} RunsCover<S>(ps: seq<Piece<S>>)
    ensures Concat(Runs(ps)) == ps
  {
    var n := |ps|;
    if n > 0 {
      var init := ps[..n - 1];
      RunsCover(init);
      var rs: seq<seq<Piece<S>>> := Runs(init);
      if |rs| > 0 && rs[|rs| - 1][0].style == ps[n - 1].style {
        var last := rs[|rs| - 1];
        var next := rs[..|rs| - 1] + [last + [ps[n - 1]]];
        assert next[..|next| - 1] == rs[..|rs| - 1];
        assert Concat(rs) == Concat(rs[..|rs| - 1]) + last;
      } else {
        assert (rs + [[ps[n - 1]]])[..|rs|] == rs;
      }
      assert init + [ps[n - 1]] == ps;
    }
  }

  /** Every run is of one style, and two neighbouring runs differ in style:
      the runs are maximal. */
  lemma {:induction false} RunsMaximal<S>(ps: seq<Piece<S>>)
    ensures forall g, k :: 0 <= g < |Runs(ps)| && 0 <= k < |Runs(ps)[g]| ==> Runs(ps)[g][k].style == Runs(ps)[g][0].style
    ensures forall g :: 0 < g < |Runs(ps)| ==> Runs(ps)[g - 1][0].style != Runs(ps)[g][0].style
  {
    var n := |ps|;
    if n > 0 {
      var init := ps[..n - 1];
      var p := ps[n - 1];
      RunsMaximal(init);
      var rs: seq<seq<Piece<S>>> := Runs(init);
      var m := |rs|;
      if m > 0 && rs[m - 1][0].style == p.style {
        var r: seq<seq<Piece<S>>> := rs[..m - 1] + [rs[m - 1] + [p]];
        assert Runs(ps) == r;
        forall g, k | 0 <= g < |r| && 0 <= k < |r[g]|
          ensures r[g][k].style == r[g][0].style
        {
          if g < m - 1 {
            assert r[g] == rs[g];
          } else if k < |rs[m - 1]| {
            assert r[g][k] == rs[m - 1][k];
          } else {
            assert r[g][k] == p;
          }
        }
        assert forall g :: 0 <= g < m - 1 ==> r[g] == rs[g];
        assert r[m - 1][0] == rs[m - 1][0];
      } else {
        var r: seq<seq<Piece<S>>> := rs + [[p]];
        assert Runs(ps) == r;
        assert forall g :: 0 <= g < m ==> r[g] == rs[g];
      }
    }
  }

  // ---------------------------------------------------------------------
  // Slugs

  /** Every piece names a clip of the group. */
  predicate Indexes<S>(ps: seq<Piece<S>>, clips: seq<Clip>) {
    forall j :: 0 <= j < |ps| ==> 0 <= ps[j].idx < |clips|
  }

  /** The pen of a piece: the group's clip it names (`self.clips[cidx]`),
      the line, and the glyphs laid out for its text. */
  function PenOf<S>(p: Piece<S>, clips: seq<Clip>, li: nat): ClipPen
    requires 0 <= p.idx < |clips|
  {
    ClipPen(clips[p.idx], li, p.text)
  }

  function PensOf<S>(ps: seq<Piece<S>>, clips: seq<Clip>, li: nat): (r: seq<ClipPen>)
    requires Indexes(ps, clips)
    ensures |r| == |ps| && forall j :: 0 <= j < |ps| ==> r[j] == PenOf(ps[j], clips, li)
  {
    seq(|ps|, j requires 0 <= j < |ps| => PenOf(ps[j], clips, li))
  }

  /** The slugs of one run: the pen of a JoinPrev clip joins the slug before
      it when the run has one, and every other pen opens a slug. */
  function RunSlugs<S>(run: seq<Piece<S>>, clips: seq<Clip>, li: nat): (r: seq<Slug>)
    requires Indexes(run, clips)
    ensures |run| > 0 <==> |r| > 0
  {
    if |run| == 0 then []
    else
      var ss := RunSlugs(run[..|run| - 1], clips, li);
      var cp := PenOf(run[|run| - 1], clips, li);
      if cp.clip.kind == JoinPrev && |ss| > 0 then ss[..|ss| - 1] + [ss[|ss| - 1] + [cp]]
      else ss + [[cp]]
  }

  /** Read slug by slug, the pens of a run are those of its pieces, one
      each, in order. */
  lemma {:induction false} RunSlugsFlatten<S>(run: seq<Piece<S>>, clips: seq<Clip>, li: nat)
    requires Indexes(run, clips)
    ensures Concat(RunSlugs(run, clips, li)) == PensOf(run, clips, li)
  {
    var n := |run|;
    if n > 0 {
      var init := run[..n - 1];
      RunSlugsFlatten(init, clips, li);
      var ss := RunSlugs(init, clips, li);
      var cp := PenOf(run[n - 1], clips, li);
      if cp.clip.kind == JoinPrev && |ss| > 0 {
        var next := ss[..|ss| - 1] + [ss[|ss| - 1] + [cp]];
        assert next[..|next| - 1] == ss[..|ss| - 1];
        assert Concat(ss) == Concat(ss[..|ss| - 1]) + ss[|ss| - 1];
      } else {
        assert (ss + [[cp]])[..|ss|] == ss;
      }
      assert PensOf(run, clips, li) == PensOf(init, clips, li) + [cp];
    }
  }

  /** A slug is a pen followed by the pens of JoinPrev clips. */
  predicate SlugChained(s: Slug) {
    |s| > 0 && forall k :: 0 < k < |s| ==> s[k].clip.kind == JoinPrev
  }

  /** The slugs of a run are its pens cut before every clip that is not
      JoinPrev: each slug is a pen followed by the pens of the JoinPrev
      clips after it, and a slug after the run's first starts with a clip
      that is not JoinPrev. */
  lemma {:induction false} RunSlugsShape<S>(run: seq<Piece<S>>, clips: seq<Clip>, li: nat)
    requires Indexes(run, clips)
    ensures forall s :: 0 <= s < |RunSlugs(run, clips, li)| ==>
      SlugChained(RunSlugs(run, clips, li)[s]) && (s > 0 ==> RunSlugs(run, clips, li)[s][0].clip.kind != JoinPrev)
  {
    var n := |run|;
    if n > 0 {
      var init := run[..n - 1];
      RunSlugsShape(init, clips, li);
      var ss := RunSlugs(init, clips, li);
      var cp := PenOf(run[n - 1], clips, li);
      if cp.clip.kind == JoinPrev && |ss| > 0 {
        var last := ss[|ss| - 1];
        var r: seq<Slug> := ss[..|ss| - 1] + [last + [cp]];
        assert RunSlugs(run, clips, li) == r;
        assert SlugChained(last);
        assert SlugChained(last + [cp]) by {
          assert forall k :: 0 < k < |last| ==> (last + [cp])[k] == last[k];
        }
        assert forall s :: 0 <= s < |ss| - 1 ==> r[s] == ss[s];
        assert r[|ss| - 1][0] == last[0];
      } else {
        var r: seq<Slug> := ss + [[cp]];
        assert RunSlugs(run, clips, li) == r;
        assert forall s :: 0 <= s < |ss| ==> r[s] == ss[s];
      }
    }
  }

  // ---------------------------------------------------------------------
  // Lines

  /** The slugs of a line: those of its runs, run after run. */
  function LineSlugs<S>(runs: seq<seq<Piece<S>>>, clips: seq<Clip>, li: nat): seq<Slug>
    requires forall g :: 0 <= g < |runs| ==> Indexes(runs[g], clips)
  {
    if |runs| == 0 then []
    else LineSlugs(runs[..|runs| - 1], clips, li) + RunSlugs(runs[|runs| - 1], clips, li)
  }

  /** The position of a line: that of its last clip that is current (0) or
      past (-1), or 1 when every clip is still to come. */
  function LinePosition<S>(ps: seq<Piece<S>>, clips: seq<Clip>): int
    requires Indexes(ps, clips)
    reads clips`position
  {
    if |ps| == 0 then 1
    else
      var c := clips[ps[|ps| - 1].idx];
      if c.position == 0 then 0
      else if c.position == -1 then -1
      else LinePosition(ps[..|ps| - 1], clips)
  }

  /** A line is still to come exactly when none of its clips is current or
      past; otherwise it takes the position of the last one that is. */
  lemma {:induction false} LinePositionIs<S>(ps: seq<Piece<S>>, clips: seq<Clip>)
    requires Indexes(ps, clips)
    ensures var r := LinePosition(ps, clips);
      && (r == 1 <==> forall j :: 0 <= j < |ps| ==> clips[ps[j].idx].position !in {0, -1})
      && (r != 1 ==> exists j :: (0 <= j < |ps| && clips[ps[j].idx].position == r &&
            forall j' :: j < j' < |ps| ==> clips[ps[j'].idx].position !in {0, -1}))
  {
    var n := |ps|;
    if n > 0 {
      var init := ps[..n - 1];
      LinePositionIs(init, clips);
      assert forall j :: 0 <= j < n - 1 ==> init[j] == ps[j];
      if clips[ps[n - 1].idx].position !in {0, -1} {
        if LinePosition(init, clips) != 1 {
          var j :| 0 <= j < |init| && clips[init[j].idx].position == LinePosition(init, clips) &&
            forall j' :: j < j' < |init| ==> clips[init[j'].idx].position !in {0, -1};
          assert clips[ps[j].idx].position == LinePosition(ps, clips);
        }
      }
    }
  }

  /** `line_text`: the texts (`ftext()`) of the group's clips the pieces
      name, in order. */
  function LineText<S>(ps: seq<Piece<S>>, clips: seq<Clip>): string
    requires Indexes(ps, clips)
    reads clips`text
  {
    if |ps| == 0 then "" else LineText(ps[..|ps| - 1], clips) + clips[ps[|ps| - 1].idx].FText()
  }

  /** The texts of the pieces, end to end (`full_text`). */
  function Texts<S>(ps: seq<Piece<S>>): string {
    if |ps| == 0 then "" else Texts(ps[..|ps| - 1]) + ps[|ps| - 1].text
  }

  lemma {:induction false} TextsPrefix<S>(ps: seq<Piece<S>>, j: nat)
    requires j <= |ps|
    ensures Texts(ps[..j]) <= Texts(ps)
    decreases |ps| - j
  {
    if j < |ps| {
      TextsPrefix(ps, j + 1);
      assert ps[..j + 1][..j] == ps[..j];
    } else {
      assert ps[..j] == ps;
    }
  }

  lemma {:induction false} IndexesConcat<S>(runs: seq<seq<Piece<S>>>, clips: seq<Clip>)
    requires forall g :: 0 <= g < |runs| ==> Indexes(runs[g], clips)
    ensures Indexes(Concat(runs), clips)
  {
    if |runs| > 0 {
      IndexesConcat(runs[..|runs| - 1], clips);
    }
  }

  /** Line `li` as `pens` builds it from its runs. */
  function LineOf<S>(li: nat, runs: seq<seq<Piece<S>>>, clips: seq<Clip>): LinePen
    requires forall g :: 0 <= g < |runs| ==> Indexes(runs[g], clips)
    reads clips`position, clips`text
  {
    IndexesConcat(runs, clips);
    var ps := Concat(runs);
    LinePen(li, LinePosition(ps, clips), LineText(ps, clips), LineSlugs(runs, clips, li))
  }

  /** One more piece at the end of a line moves its position when its clip
      is current or past, and adds its clip's text to the line's text. */
  lemma PieceSnoc<S>(xs: seq<Piece<S>>, p: Piece<S>, clips: seq<Clip>)
    requires Indexes(xs, clips) && 0 <= p.idx < |clips|
    ensures Indexes(xs + [p], clips)
    ensures var c := clips[p.idx];
      LinePosition(xs + [p], clips) == (if c.position == 0 then 0 else if c.position == -1 then -1 else LinePosition(xs, clips))
    ensures LineText(xs + [p], clips) == LineText(xs, clips) + clips[p.idx].FText()
  {
    assert (xs + [p])[..|xs|] == xs;
    assert forall j :: 0 <= j < |xs| ==> (xs + [p])[j] == xs[j];
  }

  /** One more piece in a run: its pen joins the last slug or opens one. */
  lemma RunSlugsSnoc<S>(run: seq<Piece<S>>, j: nat, clips: seq<Clip>, li: nat)
    requires j < |run| && Indexes(run, clips)
    ensures var ss := RunSlugs(run[..j], clips, li); var cp := PenOf(run[j], clips, li);
      RunSlugs(run[..j + 1], clips, li) ==
        if cp.clip.kind == JoinPrev && |ss| > 0 then ss[..|ss| - 1] + [ss[|ss| - 1] + [cp]] else ss + [[cp]]
  {
    assert run[..j + 1][..j] == run[..j];
  }

  /** The glyphs of piece `j` of a run are cut from the run's glyphs right
      after those of the pieces before it. */
  lemma GlyphCut<S>(run: seq<Piece<S>>, j: nat)
    requires j < |run|
    ensures Texts(run[..j + 1]) == Texts(run[..j]) + run[j].text
    ensures |Texts(run[..j])| + |run[j].text| <= |Texts(run)|
    ensures Texts(run)[|Texts(run[..j])|..|Texts(run[..j])| + |run[j].text|] == run[j].text
  {
    assert run[..j + 1][..j] == run[..j];
    TextsPrefix(run, j + 1);
    var t := Texts(run[..j]);
    var u := Texts(run[..j + 1]);
    assert Texts(run)[|t|..|t| + |run[j].text|] == u[|t|..];
  }

  /** Adding a pen to the last slug of `slugs0 + ss`, when `ss` has one, is
      adding it to the last slug of `ss`. */
  lemma MergeLast(slugs0: seq<Slug>, ss: seq<Slug>, cp: ClipPen)
    requires |ss| > 0
    ensures var all := slugs0 + ss;
      all[|all| - 1 := all[|all| - 1] + [cp]] == slugs0 + (ss[..|ss| - 1] + [ss[|ss| - 1] + [cp]])
  {
    var all := slugs0 + ss;
    assert all[|all| - 1 := all[|all| - 1] + [cp]] == all[..|all| - 1] + [all[|all| - 1] + [cp]];
    assert all[..|all| - 1] == slugs0 + ss[..|ss| - 1];
  }

  /** What one turn of the innermost loop needs: the piece's pen, the
      line's position and text, the run's slugs and its text so far, one
      piece further. */
  lemma LineStep<S>(run: seq<Piece<S>>, j: nat, clips: seq<Clip>, before: seq<Piece<S>>)
    requires j < |run| && Indexes(before, clips) && Indexes(run, clips)
    ensures Indexes(before + run[..j], clips) && Indexes(before + run[..j + 1], clips)
    ensures var c := clips[run[j].idx];
      LinePosition(before + run[..j + 1], clips) ==
        (if c.position == 0 then 0 else if c.position == -1 then -1 else LinePosition(before + run[..j], clips))
    ensures LineText(before + run[..j + 1], clips) == LineText(before + run[..j], clips) + clips[run[j].idx].FText()
  {
    assert before + run[..j + 1] == (before + run[..j]) + [run[j]];
    assert forall k :: 0 <= k < |before + run[..j]| ==> (before + run[..j])[k] == if k < |before| then before[k] else run[k - |before|];
    PieceSnoc(before + run[..j], run[j], clips);
  }

  /** The state of the innermost loop of `pens` after the first `j`
      pieces of `run`: the glyph index, whether a slug is open, the slugs,
      and the line's position and text. */
  predicate RunState<S>(li: nat, run: seq<Piece<S>>, j: nat, clips: seq<Clip>, before: seq<Piece<S>>,
                        tidx: int, open: bool, slugs0: seq<Slug>, position: int, text: string, slugs: seq<Slug>)
    requires j <= |run| && Indexes(run, clips)
    reads clips`position, clips`text
  {
    && Indexes(before + run[..j], clips)
    && tidx == |Texts(run[..j])|
    && (open <==> j > 0)
    && slugs == slugs0 + RunSlugs(run[..j], clips, li)
    && position == LinePosition(before + run[..j], clips) && text == LineText(before + run[..j], clips)
  }

  /** The slugs after one more piece of a run, given the pen `cp` it adds
      and whether this run has opened a slug yet. */
  function AddPen(slugs: seq<Slug>, cp: ClipPen, open: bool): (r: seq<Slug>)
    requires open ==> |slugs| > 0
    ensures |r| > 0 && (cp.clip.kind == JoinPrev && open <==> |r| == |slugs|)
  {
    if cp.clip.kind == JoinPrev && open then slugs[|slugs| - 1 := slugs[|slugs| - 1] + [cp]]
    else slugs + [[cp]]
  }

  /** One turn of the innermost loop of `pens`, on piece `j` of a run: its
      pen takes its glyphs from the run's, right after those of the pieces
      before it, and is added to the slug `last_clip_dps` holds when it is
      a JoinPrev clip's and this run has opened one, and opens a slug
      otherwise; its clip's position and text go to the line's. */
  method PlacePiece<S>(li: nat, run: seq<Piece<S>>, j: nat, clips: seq<Clip>,
                       glyphs: string, tidx: nat, open: bool,
                       position: int, text: string, slugs: seq<Slug>)
    returns (tidx': nat, open': bool, position': int, text': string, slugs': seq<Slug>)
    requires j < |run| && Indexes(run, clips) && (open ==> |slugs| > 0)
    requires tidx + |run[j].text| <= |glyphs| && glyphs[tidx..tidx + |run[j].text|] == run[j].text
    ensures tidx' == tidx + |run[j].text| && open'
    ensures var c := clips[run[j].idx];
      position' == (if c.position == 0 then 0 else if c.position == -1 then -1 else position)
    ensures text' == text + clips[run[j].idx].FText()
    ensures slugs' == AddPen(slugs, PenOf(run[j], clips, li), open)
  {
    var p := run[j];
    var clip := clips[p.idx];
    position' := position;
    if clip.position == 0 {
      position' := 0;
    } else if clip.position == -1 {
      position' := -1;
    }
    text' := text + clip.FText();
    var cp := ClipPen(clip, li, glyphs[tidx..tidx + |p.text|]);
    if clip.kind == JoinPrev && open {
      slugs' := slugs[|slugs| - 1 := slugs[|slugs| - 1] + [cp]];
    } else {
      slugs' := slugs + [[cp]];
    }
    open' := true;
    tidx' := tidx + |p.text|;
  }

  /** Adding piece `j`'s pen keeps the slugs those of the pieces so far. */
  lemma SlugsNext<S>(run: seq<Piece<S>>, j: nat, clips: seq<Clip>, li: nat, slugs0: seq<Slug>, open: bool, slugs: seq<Slug>)
    requires j < |run| && Indexes(run, clips) && (open <==> j > 0)
    requires slugs == slugs0 + RunSlugs(run[..j], clips, li)
    ensures open ==> |slugs| > 0
    ensures AddPen(slugs, PenOf(run[j], clips, li), open) == slugs0 + RunSlugs(run[..j + 1], clips, li)
  {
    var ss := RunSlugs(run[..j], clips, li);
    var cp := PenOf(run[j], clips, li);
    RunSlugsSnoc(run, j, clips, li);
    if cp.clip.kind == JoinPrev && open {
      MergeLast(slugs0, ss, cp);
    } else {
      assert slugs0 + ss + [[cp]] == slugs0 + (ss + [[cp]]);
    }
  }

  /** A turn of the innermost loop keeps its state that of the pieces so
      far. */
  lemma RunStateNext<S>(li: nat, run: seq<Piece<S>>, j: nat, clips: seq<Clip>, before: seq<Piece<S>>,
                        tidx: int, open: bool, slugs0: seq<Slug>, position: int, text: string, slugs: seq<Slug>,
                        tidx': int, open': bool, position': int, text': string, slugs': seq<Slug>)
    requires j < |run| && Indexes(before, clips) && Indexes(run, clips)
    requires RunState(li, run, j, clips, before, tidx, open, slugs0, position, text, slugs)
    requires tidx' == tidx + |run[j].text| && open'
    requires var c := clips[run[j].idx];
      position' == (if c.position == 0 then 0 else if c.position == -1 then -1 else position)
    requires text' == text + clips[run[j].idx].FText()
    requires open ==> |slugs| > 0
    requires slugs' == AddPen(slugs, PenOf(run[j], clips, li), open)
    ensures RunState(li, run, j + 1, clips, before, tidx', open', slugs0, position', text', slugs')
  {
    GlyphCut(run, j);
    SlugsNext(run, j, clips, li, slugs0, open, slugs);
    LineStep(run, j, clips, before);
  }

  /** The innermost loop of `pens`, on one run: the run's glyphs (laid out
      from `full_text`, one per character) are cut by text length into one
      pen per piece, placed by `PlacePiece`. The line's position and text
      are carried along from the runs before. */
  method BuildRun<S>(li: nat, run: seq<Piece<S>>, clips: seq<Clip>, ghost before: seq<Piece<S>>,
                     position0: int, text0: string, slugs0: seq<Slug>)
    returns (position: int, text: string, slugs: seq<Slug>)
    requires Indexes(before, clips) && Indexes(run, clips) && Indexes(before + run, clips)
    requires position0 == LinePosition(before, clips) && text0 == LineText(before, clips)
    ensures position == LinePosition(before + run, clips) && text == LineText(before + run, clips)
    ensures slugs == slugs0 + RunSlugs(run, clips, li)
  {
    var glyphs := Texts(run);
    var tidx := 0;
    var open := false;
    position, text, slugs := position0, text0, slugs0;
    RunStateInit(li, run, clips, before, slugs0, position, text);
    for j := 0 to |run|
      invariant RunState(li, run, j, clips, before, tidx, open, slugs0, position, text, slugs)
    {
      RunStateFits(li, run, j, clips, before, tidx, open, slugs0, position, text, slugs);
      label placing:
      var tidx', open', position', text', slugs' := PlacePiece(li, run, j, clips, glyphs, tidx, open, position, text, slugs);
      assert unchanged@placing(clips);
      RunStateNext(li, run, j, clips, before, tidx, open, slugs0, position, text, slugs, tidx', open', position', text', slugs');
      tidx, open, position, text, slugs := tidx', open', position', text', slugs';
    }
    RunStateDone(li, run, clips, before, tidx, open, slugs0, position, text, slugs);
  }

  lemma RunStateInit<S>(li: nat, run: seq<Piece<S>>, clips: seq<Clip>, before: seq<Piece<S>>,
                        slugs0: seq<Slug>, position: int, text: string)
    requires Indexes(before, clips) && Indexes(run, clips)
    requires position == LinePosition(before, clips) && text == LineText(before, clips)
    ensures RunState(li, run, 0, clips, before, 0, false, slugs0, position, text, slugs0)
  {
    assert before + run[..0] == before;
  }

  /** Piece `j` fits the glyphs at the glyph index, and an open slug is
      there to extend. */
  lemma RunStateFits<S>(li: nat, run: seq<Piece<S>>, j: nat, clips: seq<Clip>, before: seq<Piece<S>>,
                        tidx: int, open: bool, slugs0: seq<Slug>, position: int, text: string, slugs: seq<Slug>)
    requires j < |run| && Indexes(run, clips)
    requires RunState(li, run, j, clips, before, tidx, open, slugs0, position, text, slugs)
    ensures 0 <= tidx && (open ==> |slugs| > 0)
    ensures tidx + |run[j].text| <= |Texts(run)| && Texts(run)[tidx..tidx + |run[j].text|] == run[j].text
  {
    GlyphCut(run, j);
    SlugsNext(run, j, clips, li, slugs0, open, slugs);
  }

  lemma RunStateDone<S>(li: nat, run: seq<Piece<S>>, clips: seq<Clip>, before: seq<Piece<S>>,
                        tidx: int, open: bool, slugs0: seq<Slug>, position: int, text: string, slugs: seq<Slug>)
    requires Indexes(run, clips)
    requires RunState(li, run, |run|, clips, before, tidx, open, slugs0, position, text, slugs)
    ensures Indexes(before + run, clips)
    ensures position == LinePosition(before + run, clips) && text == LineText(before + run, clips)
    ensures slugs == slugs0 + RunSlugs(run, clips, li)
  {
    assert run[..|run|] == run;
  }

  /** The second loop of `pens` on line `li`: its runs, one after the
      other, give the line's slugs, position and text. */
  method BuildLine<S>(li: nat, runs: seq<seq<Piece<S>>>, clips: seq<Clip>) returns (l: LinePen)
    requires forall g :: 0 <= g < |runs| ==> Indexes(runs[g], clips)
    ensures l == LineOf(li, runs, clips)
  {
    var position := 1;
    var text := "";
    var slugs: seq<Slug> := [];
    for g := 0 to |runs|
      invariant Indexes(Concat(runs[..g]), clips)
      invariant position == LinePosition(Concat(runs[..g]), clips) && text == LineText(Concat(runs[..g]), clips)
      invariant slugs == LineSlugs(runs[..g], clips, li)
    {
      assert runs[..g + 1][..g] == runs[..g];
      IndexesConcat(runs[..g + 1], clips);
      assert Concat(runs[..g + 1]) == Concat(runs[..g]) + runs[g];
      position, text, slugs := BuildRun(li, runs[g], clips, Concat(runs[..g]), position, text, slugs);
    }
    assert runs[..|runs|] == runs;
    l := LinePen(li, position, text, slugs);
  }

  // ---------------------------------------------------------------------
  // The group

  /** Each clip of line `li` is among the clips on the lines. */
  lemma LineInMembers(lines: seq<seq<Clip>>, li: nat)
    requires li < |lines|
    ensures forall c :: c in lines[li] ==> c in Members(lines)
  {
    forall c | c in lines[li]
      ensures c in Members(lines)
    {
      var j :| 0 <= j < |lines[li]| && lines[li][j] == c;
    }
  }

  /** The clips on the first lines are among the clips on the lines. */
  lemma MembersPrefix(lines: seq<seq<Clip>>, n: nat)
    requires n <= |lines|
    ensures Members(lines[..n]) <= Members(lines)
  {
    forall c | c in Members(lines[..n])
      ensures c in Members(lines)
    {
      var li, j :| 0 <= li < n && 0 <= j < |lines[..n][li]| && lines[..n][li][j] == c;
      assert lines[li][j] == c;
    }
  }

  /** Every clip on the lines has its index. */
  predicate AllNumbered(lines: seq<seq<Clip>>)
    reads Members(lines)
  {
    forall li, j :: 0 <= li < |lines| && 0 <= j < |lines[li]| ==> lines[li][j].idx.Some?
  }

  /** Each clip on the lines knows its place in the group, and shares
      its blankness with the group's clip there (a paragraph-mark copy
      shares its original's). */
  predicate Faithful(clips: seq<Clip>, lines: seq<seq<Clip>>)
    reads Members(lines)
  {
    && AllNumbered(lines)
    && forall li, j :: 0 <= li < |lines| && 0 <= j < |lines[li]| ==>
      lines[li][j].idx.Some? && 0 <= lines[li][j].idx.value < |clips| && clips[lines[li][j].idx.value].blank == lines[li][j].blank
  }

  /** The first loop of `pens`: the runs of every line, or the first error
      it raises. */
  function Groupings<S(==)>(lines: seq<seq<Clip>>, render: (nat, Clip, string) -> Option<(string, S)>)
    : (r: Result<seq<seq<seq<Piece<S>>>>, PensError>)
    requires AllNumbered(lines)
    reads Members(lines)
    ensures r.Success? ==> |r.value| == |lines|
  {
    if |lines| == 0 then Success([])
    else
      var li := |lines| - 1;
      LineInMembers(lines, li);
      match Groupings(lines[..li], render)
      case Failure(e) => Failure(e)
      case Success(gs) =>
        match Rendered(li, lines[li], render)
        case Failure(e) => Failure(e)
        case Success(ps) => if |ps| == 0 then Failure(NothingToRender(li)) else Success(gs + [Runs(ps)])
  }

  /** One more line: its pieces' runs are added unless it fails. */
  lemma GroupingsNext<S>(lines: seq<seq<Clip>>, li: nat, render: (nat, Clip, string) -> Option<(string, S)>)
    requires li < |lines| && AllNumbered(lines)
    ensures AllNumbered(lines[..li]) && AllNumbered(lines[..li + 1]) && Numbers(lines[li])
    ensures Groupings(lines[..li + 1], render) ==
      match Groupings(lines[..li], render)
      case Failure(e) => Failure(e)
      case Success(gs) =>
        match Rendered(li, lines[li], render)
        case Failure(e) => Failure(e)
        case Success(ps) => if |ps| == 0 then Failure(NothingToRender(li)) else Success(gs + [Runs(ps)])
  {
    assert lines[..li + 1][..li] == lines[..li];
  }

  /** A failure on the first lines is the failure of `pens`. */
  lemma {:induction false} GroupingsFail<S>(lines: seq<seq<Clip>>, j: nat, render: (nat, Clip, string) -> Option<(string, S)>)
    requires j <= |lines| && AllNumbered(lines)
    requires Groupings(lines[..j], render).Failure?
    ensures Groupings(lines, render) == Groupings(lines[..j], render)
    decreases |lines| - j
  {
    if j < |lines| {
      assert lines[..j + 1][..j] == lines[..j];
      GroupingsFail(lines, j + 1, render);
    } else {
      assert lines[..j] == lines;
    }
  }

  /** `pens` fails exactly when the callback fails for a renderable clip
      of some line or some line has no clip to render; otherwise the runs
      of each line are those of its pieces. */
  lemma {:induction false} GroupingsIs<S>(lines: seq<seq<Clip>>, render: (nat, Clip, string) -> Option<(string, S)>)
    requires AllNumbered(lines)
    ensures Groupings(lines, render).Success? <==>
      forall li :: 0 <= li < |lines| ==> Rendered(li, lines[li], render).Success? && |Rendered(li, lines[li], render).value| > 0
    ensures Groupings(lines, render).Success? ==>
      forall li :: 0 <= li < |lines| ==> Groupings(lines, render).value[li] == Runs(Rendered(li, lines[li], render).value)
  {
    var n := |lines|;
    if n > 0 {
      var init := lines[..n - 1];
      assert forall li :: 0 <= li < n - 1 ==> init[li] == lines[li];
      GroupingsIs(init, render);
    }
  }

  // ---------------------------------------------------------------------
  // What the pieces name

  /** A piece names a clip of the group that is not blank. */
  predicate Drawn<S>(p: Piece<S>, clips: seq<Clip>) {
    0 <= p.idx < |clips| && !clips[p.idx].blank
  }

  /** Every piece of every run of every line is drawn. */
  predicate AllDrawn<S>(gs: seq<seq<seq<Piece<S>>>>, clips: seq<Clip>) {
    forall li, g, m :: 0 <= li < |gs| && 0 <= g < |gs[li]| && 0 <= m < |gs[li][g]| ==> Drawn(gs[li][g][m], clips)
  }

  /** The pieces of a line name the group's clips its renderable clips
      stand for, none of them blank. */
  lemma RenderedDrawn<S>(clips: seq<Clip>, lines: seq<seq<Clip>>, li: nat, render: (nat, Clip, string) -> Option<(string, S)>)
    requires Faithful(clips, lines) && li < |lines|
    ensures Rendered(li, lines[li], render).Success? ==>
      forall k :: 0 <= k < |Rendered(li, lines[li], render).value| ==> Drawn(Rendered(li, lines[li], render).value[k], clips)
  {
    RenderedMaps(li, lines[li], render);
    var r := Rendered(li, lines[li], render);
    if r.Success? {
      var rs := Keep(lines[li], Renderable);
      forall k | 0 <= k < |r.value|
        ensures Drawn(r.value[k], clips)
      {
        assert PieceOf(li, rs[k], render, r.value[k]);
        assert rs[k] in lines[li] && Renderable(rs[k]);
        var j :| 0 <= j < |lines[li]| && lines[li][j] == rs[k];
      }
    }
  }

  /** When every piece is drawn, so is every piece of every run. */
  lemma {:induction false} RunsDrawn<S>(ps: seq<Piece<S>>, clips: seq<Clip>)
    requires forall k :: 0 <= k < |ps| ==> Drawn(ps[k], clips)
    ensures forall g, m :: 0 <= g < |Runs(ps)| && 0 <= m < |Runs(ps)[g]| ==> Drawn(Runs(ps)[g][m], clips)
  {
    var n := |ps|;
    if n > 0 {
      var init := ps[..n - 1];
      var p := ps[n - 1];
      assert forall k :: 0 <= k < n - 1 ==> init[k] == ps[k];
      RunsDrawn(init, clips);
      var rs: seq<seq<Piece<S>>> := Runs(init);
      var m := |rs|;
      if m > 0 && rs[m - 1][0].style == p.style {
        var r: seq<seq<Piece<S>>> := rs[..m - 1] + [rs[m - 1] + [p]];
        assert Runs(ps) == r;
        forall g, k | 0 <= g < |r| && 0 <= k < |r[g]|
          ensures Drawn(r[g][k], clips)
        {
          if g < m - 1 {
            assert r[g] == rs[g];
          } else if k < |rs[m - 1]| {
            assert r[g][k] == rs[m - 1][k];
          }
        }
      } else {
        var r: seq<seq<Piece<S>>> := rs + [[p]];
        assert Runs(ps) == r;
        assert forall g :: 0 <= g < m ==> r[g] == rs[g];
      }
    }
  }

  /** Every piece `pens` groups names a group clip that is not blank. */
  lemma GroupingsSound<S>(clips: seq<Clip>, lines: seq<seq<Clip>>, render: (nat, Clip, string) -> Option<(string, S)>)
    requires Faithful(clips, lines)
    ensures Groupings(lines, render).Success? ==> AllDrawn(Groupings(lines, render).value, clips)
  {
    GroupingsIs(lines, render);
    if Groupings(lines, render).Success? {
      var gs := Groupings(lines, render).value;
      forall li | 0 <= li < |gs|
        ensures forall g, m :: 0 <= g < |gs[li]| && 0 <= m < |gs[li][g]| ==> Drawn(gs[li][g][m], clips)
      {
        RenderedDrawn(clips, lines, li, render);
        RunsDrawn(Rendered(li, lines[li], render).value, clips);
      }
    }
  }

  // ---------------------------------------------------------------------
  // The tree

  /** The second loop of `pens`: line `li` of the tree is built from the
      runs of line `li`. */
  function Built<S>(gs: seq<seq<seq<Piece<S>>>>, clips: seq<Clip>): (r: seq<LinePen>)
    requires AllDrawn(gs, clips)
    reads clips`position, clips`text
    ensures |r| == |gs| && forall li :: 0 <= li < |gs| ==> r[li] == LineOf(li, gs[li], clips)
  {
    if |gs| == 0 then []
    else
      var n := |gs| - 1;
      assert forall g :: 0 <= g < |gs[n]| ==> Indexes(gs[n][g], clips);
      Built(gs[..n], clips) + [LineOf(n, gs[n], clips)]
  }

  /** No pen's clip is blank. */
  predicate Unblank(slugs: seq<Slug>) {
    forall j, k :: 0 <= j < |slugs| && 0 <= k < |slugs[j]| ==> !slugs[j][k].clip.blank
  }

  lemma {:induction false} RunSlugsUnblank<S>(run: seq<Piece<S>>, clips: seq<Clip>, li: nat)
    requires forall m :: 0 <= m < |run| ==> Drawn(run[m], clips)
    ensures Indexes(run, clips) && Unblank(RunSlugs(run, clips, li))
  {
    var n := |run|;
    if n > 0 {
      var init := run[..n - 1];
      RunSlugsUnblank(init, clips, li);
      var ss := RunSlugs(init, clips, li);
      var cp := PenOf(run[n - 1], clips, li);
      if cp.clip.kind == JoinPrev && |ss| > 0 {
        var r: seq<Slug> := ss[..|ss| - 1] + [ss[|ss| - 1] + [cp]];
        assert RunSlugs(run, clips, li) == r;
        forall j, k | 0 <= j < |r| && 0 <= k < |r[j]|
          ensures !r[j][k].clip.blank
        {
          if j < |ss| - 1 {
            assert r[j] == ss[j];
          } else if k < |ss[|ss| - 1]| {
            assert r[j][k] == ss[|ss| - 1][k];
          }
        }
      } else {
        var r: seq<Slug> := ss + [[cp]];
        assert RunSlugs(run, clips, li) == r;
        assert forall j :: 0 <= j < |ss| ==> r[j] == ss[j];
      }
    }
  }

  lemma {:induction false} LineSlugsUnblank<S>(runs: seq<seq<Piece<S>>>, clips: seq<Clip>, li: nat)
    requires forall g, m :: 0 <= g < |runs| && 0 <= m < |runs[g]| ==> Drawn(runs[g][m], clips)
    ensures (forall g :: 0 <= g < |runs| ==> Indexes(runs[g], clips)) && Unblank(LineSlugs(runs, clips, li))
  {
    var n := |runs|;
    if n > 0 {
      var init := runs[..n - 1];
      LineSlugsUnblank(init, clips, li);
      RunSlugsUnblank(runs[n - 1], clips, li);
      var a, b := LineSlugs(init, clips, li), RunSlugs(runs[n - 1], clips, li);
      assert LineSlugs(runs, clips, li) == a + b;
      assert forall j :: 0 <= j < |a| ==> (a + b)[j] == a[j];
      assert forall j :: |a| <= j < |a + b| ==> (a + b)[j] == b[j - |a|];
    }
  }

  /** The clips whose pens `pens` empties because they are blank. */
  function BlankClips(tree: seq<LinePen>): set<Clip> {
    set c | c in ClipsIn(tree) && c.blank
  }

  /** Blank clips are never rendered, so no pen of the tree is a blank
      clip's, and emptying their pens changes nothing. */
  lemma BlankPensUntouched<S>(gs: seq<seq<seq<Piece<S>>>>, clips: seq<Clip>)
    requires AllDrawn(gs, clips)
    ensures Emptied(Built(gs, clips), BlankClips(Built(gs, clips))) == Built(gs, clips)
  {
    var t := Built(gs, clips);
    forall li | 0 <= li < |gs|
      ensures Unblank(t[li].slugs)
    {
      LineSlugsUnblank(gs[li], clips, li);
    }
    assert BlankClips(t) == {};
    EmptiedNone(t);
  }

  /** What `pens` returns for the lines of the group: the first failure of
      its first loop, or the tree its second loop builds, with the pens of
      blank clips emptied and every level reversed. */
  function Assembled<S(==)>(clips: seq<Clip>, lines: seq<seq<Clip>>, render: (nat, Clip, string) -> Option<(string, S)>)
    : Result<seq<LinePen>, PensError>
    requires Faithful(clips, lines)
    reads Members(lines), clips`position, clips`text
  {
    match Groupings(lines, render)
    case Failure(e) => Failure(e)
    case Success(gs) =>
      GroupingsSound(clips, lines, render);
      var t := Built(gs, clips);
      Success(ReverseTree(Emptied(t, BlankClips(t))))
  }

  lemma PensOfAppend<S>(xs: seq<Piece<S>>, ys: seq<Piece<S>>, clips: seq<Clip>, li: nat)
    requires Indexes(xs, clips) && Indexes(ys, clips)
    ensures Indexes(xs + ys, clips) && PensOf(xs + ys, clips, li) == PensOf(xs, clips, li) + PensOf(ys, clips, li)
  {
    assert forall k :: 0 <= k < |xs + ys| ==> (xs + ys)[k] == if k < |xs| then xs[k] else ys[k - |xs|];
    var l, r := PensOf(xs + ys, clips, li), PensOf(xs, clips, li) + PensOf(ys, clips, li);
    assert forall k :: 0 <= k < |l| ==> l[k] == r[k];
  }

  /** Read slug by slug, the pens of a line are those of the pieces of its
      runs, one each, in order. */
  lemma {:induction false} LineSlugsFlatten<S>(runs: seq<seq<Piece<S>>>, clips: seq<Clip>, li: nat)
    requires forall g :: 0 <= g < |runs| ==> Indexes(runs[g], clips)
    ensures Indexes(Concat(runs), clips) && Concat(LineSlugs(runs, clips, li)) == PensOf(Concat(runs), clips, li)
  {
    var n := |runs|;
    IndexesConcat(runs, clips);
    if n > 0 {
      var init := runs[..n - 1];
      LineSlugsFlatten(init, clips, li);
      RunSlugsFlatten(runs[n - 1], clips, li);
      ConcatAppend(LineSlugs(init, clips, li), RunSlugs(runs[n - 1], clips, li));
      PensOfAppend(Concat(init), runs[n - 1], clips, li);
    }
  }

  /** `l` is line `li` drawn from its pieces `ps`: its pens are, back to
      front and each with its glyphs reversed, one pen per piece, in
      order, holding the glyphs of the piece's text; its position and text
      are those of the pieces' clips. */
  predicate DrawsLine<S>(l: LinePen, li: nat, ps: seq<Piece<S>>, clips: seq<Clip>)
    reads clips`position, clips`text
  {
    && Indexes(ps, clips)
    && l.index == li
    && LineClipPens(l) == ReverseSlug(PensOf(ps, clips, li))
    && l.position == LinePosition(ps, clips)
    && l.text == LineText(ps, clips)
  }

  lemma BuiltLine<S>(gs: seq<seq<seq<Piece<S>>>>, clips: seq<Clip>, li: nat)
    requires li < |gs| && AllDrawn(gs, clips)
    ensures forall g :: 0 <= g < |gs[li]| ==> Indexes(gs[li][g], clips)
    ensures Built(gs, clips)[li] == LineOf(li, gs[li], clips)
  {
  }

  /** Line `li` of the group stands at `|gs| - 1 - li` in the reversed
      tree, in terms of the pieces `ps` it was rendered into. */
  lemma PensLine<S>(clips: seq<Clip>, gs: seq<seq<seq<Piece<S>>>>, li: nat, ps: seq<Piece<S>>)
    requires li < |gs| && AllDrawn(gs, clips)
    requires gs[li] == Runs(ps) && forall k :: 0 <= k < |ps| ==> Drawn(ps[k], clips)
    ensures DrawsLine(ReverseTree(Built(gs, clips))[|gs| - 1 - li], li, ps, clips)
  {
    var t := Built(gs, clips);
    var l := t[li];
    BuiltLine(gs, clips, li);
    assert ReverseTree(t)[|gs| - 1 - li] == ReverseLine(l);
    LineSlugsUnblank(gs[li], clips, li);
    RunsCover(ps);
    LineSlugsFlatten(gs[li], clips, li);
    ReverseSlugsOrder(l.slugs);
  }

  /** What `pens` draws: line `li` of the group is drawn, at place
      `|lines| - 1 - li` of the result, from the pieces the callback gave
      for its renderable clips. */
  lemma PensContent<S>(clips: seq<Clip>, lines: seq<seq<Clip>>, render: (nat, Clip, string) -> Option<(string, S)>)
    requires Faithful(clips, lines)
    ensures var r := Assembled(clips, lines, render);
      r.Success? ==> |r.value| == |lines| && forall li :: 0 <= li < |lines| ==>
        && Rendered(li, lines[li], render).Success?
        && DrawsLine(r.value[|lines| - 1 - li], li, Rendered(li, lines[li], render).value, clips)
  {
    GroupingsSound(clips, lines, render);
    if Groupings(lines, render).Success? {
      var gs := Groupings(lines, render).value;
      var tree := ReverseTree(Built(gs, clips));
      AssembledTree(clips, lines, render);
      assert Assembled(clips, lines, render).value == tree && |tree| == |lines|;
      forall li | 0 <= li < |lines|
        ensures Rendered(li, lines[li], render).Success?
        ensures DrawsLine(tree[|lines| - 1 - li], li, Rendered(li, lines[li], render).value, clips)
      {
        AssembledLine(clips, lines, render, li);
      }
    }
  }

  /** With the blank emptying a no-op, `pens` gives the reversed tree. */
  lemma AssembledTree<S>(clips: seq<Clip>, lines: seq<seq<Clip>>, render: (nat, Clip, string) -> Option<(string, S)>)
    requires Faithful(clips, lines) && Groupings(lines, render).Success?
    ensures AllDrawn(Groupings(lines, render).value, clips)
    ensures Assembled(clips, lines, render) == Success(ReverseTree(Built(Groupings(lines, render).value, clips)))
  {
    GroupingsSound(clips, lines, render);
    BlankPensUntouched(Groupings(lines, render).value, clips);
  }

  /** Line `li` of the group, drawn in the reversed tree. */
  lemma AssembledLine<S>(clips: seq<Clip>, lines: seq<seq<Clip>>, render: (nat, Clip, string) -> Option<(string, S)>, li: nat)
    requires Faithful(clips, lines) && Groupings(lines, render).Success? && li < |lines|
    requires AllDrawn(Groupings(lines, render).value, clips)
    ensures Rendered(li, lines[li], render).Success?
    ensures DrawsLine(ReverseTree(Built(Groupings(lines, render).value, clips))[|lines| - 1 - li], li,
      Rendered(li, lines[li], render).value, clips)
  {
    var gs := Groupings(lines, render).value;
    GroupingsIs(lines, render);
    assert Rendered(li, lines[li], render).Success? && gs[li] == Runs(Rendered(li, lines[li], render).value);
    RenderedDrawn(clips, lines, li, render);
    PensLine(clips, gs, li, Rendered(li, lines[li], render).value);
  }

  // ---------------------------------------------------------------------
  // `ClipGroup.pens`

  /** The lines of a numbered group are faithful to it: a clip on a line
      is the group's clip its slot names, or a paragraph-mark copy of it. */
  lemma LinesFaithful(clips: seq<Clip>, ls: seq<seq<LineLayout.Slot>>, lines: seq<seq<Clip>>)
    requires forall k :: 0 <= k < |clips| ==> clips[k].idx == Some(k)
    requires NamesAll(clips, ls, lines)
    requires forall li, j :: 0 <= li < |ls| && 0 <= j < |ls[li]| && ls[li][j].Mark? ==>
      MarkCopy(lines[li][j], clips[ls[li][j].k])
    ensures Faithful(clips, lines)
  {
    forall li, j | 0 <= li < |lines| && 0 <= j < |lines[li]|
      ensures lines[li][j].idx == Some(ls[li][j].k) && ls[li][j].k < |clips|
      ensures clips[ls[li][j].k].blank == lines[li][j].blank
    {
      assert Names(clips, ls[li], lines[li]);
      if ls[li][j].Mark? {
        assert MarkCopy(lines[li][j], clips[ls[li][j].k]);
      }
    }
  }

  /** The first loop of `pens`: each line is rendered and cut into runs,
      and the first error ends it. */
  method GroupLines<S(==)>(lines: seq<seq<Clip>>, render: (nat, Clip, string) -> Option<(string, S)>)
    returns (r: Result<seq<seq<seq<Piece<S>>>>, PensError>)
    requires AllNumbered(lines)
    ensures r == Groupings(lines, render)
  {
    var gs: seq<seq<seq<Piece<S>>>> := [];
    for li := 0 to |lines|
      invariant Groupings(lines[..li], render) == Success(gs)
    {
      assert Numbers(lines[li]);
      MembersPrefix(lines, li);
      label before:
      var rendered := RenderLine(li, lines[li], render);
      assert unchanged@before(Members(lines));
      assert Groupings(lines[..li], render) == Success(gs);
      GroupingsNext(lines, li, render);
      if rendered.Failure? {
        assert Groupings(lines[..li + 1], render) == Failure(rendered.error);
        GroupingsFail(lines, li + 1, render);
        return Failure(rendered.error);
      }
      var ps := rendered.value;
      if |ps| == 0 {
        GroupingsFail(lines, li + 1, render);
        return Failure(NothingToRender(li));
      }
      assert Groupings(lines[..li + 1], render) == Success(gs + [Runs(ps)]);
      MembersPrefix(lines, li + 1);
      label grouped:
      var runs := StyleRuns(ps);
      assert unchanged@grouped(Members(lines));
      gs := gs + [runs];
    }
    assert lines[..|lines|] == lines;
    r := Success(gs);
  }

  /** The second loop of `pens`: the tree, built line by line. */
  method BuildTree<S>(gs: seq<seq<seq<Piece<S>>>>, clips: seq<Clip>) returns (tree: seq<LinePen>)
    requires AllDrawn(gs, clips)
    ensures tree == Built(gs, clips)
  {
    tree := [];
    for li := 0 to |gs|
      invariant |tree| == li && forall k :: 0 <= k < li ==> tree[k] == LineOf(k, gs[k], clips)
    {
      assert forall g :: 0 <= g < |gs[li]| ==> Indexes(gs[li][g], clips);
      var l := BuildLine(li, gs[li], clips);
      tree := tree + [l];
    }
  }

  /** `ClipGroup.pens`, structurally: the group's lines are rendered and
      cut into runs line by line, stopping at the first error; the tree is
      built line by line from the runs; the pens of blank clips are
      emptied and every level is reversed. The lines `lines` computes are
      returned as a ghost result. */
  method Pens<S(==)>(grp: ClipGroup, ignoreNewlines: bool, render: (nat, Clip, string) -> Option<(string, S)>)
    returns (r: Result<seq<LinePen>, PensError>, ghost lines: seq<seq<Clip>>)
    requires grp.Numbered()
    modifies grp.clips`text
    ensures NamesAll(grp.clips, LineLayout.Lines(Kinds(grp.clips), ignoreNewlines), lines)
    ensures forall k {:trigger grp.clips[k].text} :: 0 <= k < |grp.clips| ==>
      grp.clips[k].text == if ignoreNewlines && grp.clips[k].kind == NewLine then LeadSpace(old(grp.clips[k].text)) else old(grp.clips[k].text)
    ensures Faithful(grp.clips, lines) && r == Assembled(grp.clips, lines, render)
  {
    var ls := grp.Lines(ignoreNewlines);
    lines := ls;
    var clips := grp.clips;
    LinesFaithful(clips, LineLayout.Lines(Kinds(clips), ignoreNewlines), ls);
    label laid:
    var grouped := GroupLines(ls, render);
    assert unchanged@laid(Members(ls)) && unchanged@laid(clips);
    assert Faithful(clips, ls);
    if grouped.Failure? {
      r := Failure(grouped.error);
    } else {
      var gs := grouped.value;
      GroupingsSound(clips, ls, render);
      label grouped:
      var tree := BuildTree(gs, clips);
      assert unchanged@grouped(Members(ls)) && unchanged@grouped(clips);
      assert Faithful(clips, ls) && Groupings(ls, render) == Success(gs);
      tree := Emptied(tree, BlankClips(tree));
      r := Success(ReverseTree(tree));
      assert r == Assembled(clips, ls, render);
    }
  }
}
