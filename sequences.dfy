/** The queries `Sequence` answers in coldtype/time/sequence.py: which group
    of a track a frame falls in (resolving that group for the frame on the
    way), the work area, the jump list, and the text of the syllable that
    starts at a frame. The parts `Sequence` inherits from `Timeline` (the
    tracks, the current frame `cti`, the list `_jumps`) are plain fields. */
module Sequences {
  import opened Results
  import opened Partition
  import opened ClipSequence

  // ---------------------------------------------------------------------
  // Which group answers a frame

  /** Group `g` answers frame `fi`: it has begun, and it has not ended (the
      strict mode, `check_end`), or no later group has begun (the open-ended
      mode, where the last group never ends). */
  predicate FrameMatch(groups: seq<ClipGroup>, g: nat, fi: int, checkEnd: bool)
    requires g < |groups|
  {
    groups[g].start <= fi
    && if checkEnd then fi < groups[g].end else g + 1 == |groups| || fi < groups[g + 1].start
  }

  /** The first group from `g` on that answers `fi`. */
  function FrameGroupFrom(groups: seq<ClipGroup>, g: nat, fi: int, checkEnd: bool): (r: Option<nat>)
    requires g <= |groups|
    ensures r.Some? ==> g <= r.value < |groups| && FrameMatch(groups, r.value, fi, checkEnd)
    ensures forall h :: g <= h < |groups| && (r.None? || h < r.value) ==> !FrameMatch(groups, h, fi, checkEnd)
    decreases |groups| - g
  {
    if g == |groups| then None
    else if FrameMatch(groups, g, fi, checkEnd) then Some(g)
    else FrameGroupFrom(groups, g + 1, fi, checkEnd)
  }

  function FrameGroup(groups: seq<ClipGroup>, fi: int, checkEnd: bool): Option<nat> {
    FrameGroupFrom(groups, 0, fi, checkEnd)
  }

  lemma FirstMatch(groups: seq<ClipGroup>, g: nat, fi: int, checkEnd: bool)
    requires g < |groups| && FrameMatch(groups, g, fi, checkEnd)
    requires forall h :: 0 <= h < g ==> !FrameMatch(groups, h, fi, checkEnd)
    ensures FrameGroup(groups, fi, checkEnd) == Some(g)
  {
  }

  lemma NoMatch(groups: seq<ClipGroup>, fi: int, checkEnd: bool)
    requires forall h :: 0 <= h < |groups| ==> !FrameMatch(groups, h, fi, checkEnd)
    ensures FrameGroup(groups, fi, checkEnd).None?
  {
  }

  /** Each group ends no earlier than it starts, and no later than the next
      one starts. */
  predicate InOrder(groups: seq<ClipGroup>) {
    && (forall g :: 0 <= g < |groups| ==> groups[g].start <= groups[g].end)
    && (forall g :: 0 <= g < |groups| - 1 ==> groups[g].end <= groups[g + 1].start)
  }

  lemma {:induction false} StartsGrow(groups: seq<ClipGroup>, a: nat, b: nat)
    requires InOrder(groups) && a <= b < |groups|
    ensures groups[a].start <= groups[b].start
    decreases b - a
  {
    if a < b {
      StartsGrow(groups, a + 1, b);
    }
  }

  /** In ordered groups at most one group holds a frame, so "the first
      group that holds it" is "the group that holds it". */
  lemma StrictMatchIsUnique(groups: seq<ClipGroup>, g: nat, h: nat, fi: int)
    requires InOrder(groups) && g < h < |groups|
    requires FrameMatch(groups, g, fi, true)
    ensures !FrameMatch(groups, h, fi, true)
  {
    StartsGrow(groups, g + 1, h);
  }

  /** In ordered groups, the group the strict lookup finds is also the one
      the open-ended lookup finds. */
  lemma StrictAgreesWithOpenEnded(groups: seq<ClipGroup>, fi: int)
    requires InOrder(groups) && FrameGroup(groups, fi, true).Some?
    ensures FrameGroup(groups, fi, false) == FrameGroup(groups, fi, true)
  {
    var g := FrameGroup(groups, fi, true).value;
    forall h | 0 <= h < g ensures !FrameMatch(groups, h, fi, false) {
      StartsGrow(groups, h + 1, g);
    }
    assert FrameMatch(groups, g, fi, false);
  }

  /** A track whose clips come in order, each ending no earlier than it
      starts, has its groups in order: a group runs from the start of its
      first clip to the end of its last, and the groups are consecutive
      slices of the clips. */
  lemma TrackGroupsInOrder(track: ClipTrack)
    requires track.Grouped() && Ordered(track.clips)
    requires forall k :: 0 <= k < |track.clips| ==> track.clips[k].start <= track.clips[k].end
    ensures InOrder(track.clipGroups)
  {
    var clips, groups := track.clips, track.clipGroups;
    var spans := Groups(Kinds(clips));
    GroupsShape(Kinds(clips));
    forall g | 0 <= g < |groups| ensures groups[g].start <= groups[g].end {
      GroupSpansItsClips(clips, groups[g], g, spans[g]);
    }
    forall g | 0 <= g < |groups| - 1 ensures groups[g].end <= groups[g + 1].start {
      assert spans[g + 1].lo == spans[g].hi;
      GroupsMeet(clips, groups[g], groups[g + 1], g, spans[g], spans[g + 1]);
    }
  }

  /** A group of ordered clips ends no earlier than it starts. */
  lemma GroupSpansItsClips(clips: seq<Clip>, grp: ClipGroup, g: nat, span: Span)
    requires Ordered(clips) && GroupHolds(clips, grp, g, span)
    requires forall k :: 0 <= k < |clips| ==> clips[k].start <= clips[k].end
    ensures grp.start <= grp.end
  {
    if span.lo < span.hi - 1 {
      assert clips[span.lo].end <= clips[span.hi - 1].start;
    }
  }

  /** Of two groups of ordered clips over adjacent spans, the first ends no
      later than the second starts. */
  lemma GroupsMeet(clips: seq<Clip>, a: ClipGroup, b: ClipGroup, g: nat, sa: Span, sb: Span)
    requires Ordered(clips) && GroupHolds(clips, a, g, sa) && GroupHolds(clips, b, g + 1, sb) && sa.hi == sb.lo
    ensures a.end <= b.start
  {
    assert clips[sa.hi - 1].end <= clips[sb.lo].start;
  }

  /** The clips of each group of an ordered track are in order. */
  lemma TrackGroupClipsOrdered(track: ClipTrack, g: nat)
    requires track.Grouped() && Ordered(track.clips) && g < |track.clipGroups|
    ensures Ordered(track.clipGroups[g].clips)
  {
    var spans := Groups(Kinds(track.clips));
    assert GroupHolds(track.clips, track.clipGroups[g], g, spans[g]);
    SliceOrdered(track.clips, spans[g].lo, spans[g].hi);
  }

  lemma SliceOrdered(clips: seq<Clip>, lo: nat, hi: nat)
    requires Ordered(clips) && lo <= hi <= |clips|
    ensures Ordered(clips[lo..hi])
  {
    var cs := clips[lo..hi];
    forall a, b | 0 <= a < b < |cs| ensures cs[a].end <= cs[b].start {
      assert cs[a] == clips[lo + a] && cs[b] == clips[lo + b];
    }
  }

  /** For the groups of an ordered track, the strict lookup and the
      open-ended one agree whenever the strict one finds a group, and that
      group is the only one holding the frame. */
  lemma TrackLookupsAgree(track: ClipTrack, fi: int)
    requires track.Grouped() && Ordered(track.clips)
    requires forall k :: 0 <= k < |track.clips| ==> track.clips[k].start <= track.clips[k].end
    requires FrameGroup(track.clipGroups, fi, true).Some?
    ensures FrameGroup(track.clipGroups, fi, false) == FrameGroup(track.clipGroups, fi, true)
    ensures forall h :: 0 <= h < |track.clipGroups| && FrameMatch(track.clipGroups, h, fi, true) ==>
      h == FrameGroup(track.clipGroups, fi, true).value
  {
    var groups := track.clipGroups;
    TrackGroupsInOrder(track);
    StrictAgreesWithOpenEnded(groups, fi);
    var g := FrameGroup(groups, fi, true).value;
    forall h | 0 <= h < |groups| && FrameMatch(groups, h, fi, true) ensures h == g {
      if h > g {
        StrictMatchIsUnique(groups, g, h, fi);
      }
    }
  }

  /** Once the first group has begun, the open-ended lookup always finds a
      group, whatever the order of the groups. */
  lemma OpenEndedFinds(groups: seq<ClipGroup>, fi: int)
    requires |groups| > 0 && groups[0].start <= fi
    ensures FrameGroup(groups, fi, false).Some?
  {
    var g := 0;
    while g + 1 < |groups| && groups[g + 1].start <= fi
      invariant g < |groups| && groups[g].start <= fi
      decreases |groups| - g
    {
      g := g + 1;
    }
    assert FrameMatch(groups, g, fi, false);
  }

  /** The loop of `trackClipGroupForFrame`: each group in turn gets the
      style indices, until the first group that answers the frame. */
  method MarkGroups(groups: seq<ClipGroup>, fi: int, styles: seq<nat>, checkEnd: bool) returns (m: Option<nat>)
    requires forall h :: 0 <= h < |groups| ==> groups[h].index == h
    modifies groups`styleIndices
    ensures m == FrameGroup(groups, fi, checkEnd)
    ensures forall h :: 0 <= h < |groups| ==>
      groups[h].styleIndices == if m.None? || h <= m.value then styles else old(groups[h].styleIndices)
  {
    var g := 0;
    m := None;
    while g < |groups| && m.None?
      invariant 0 <= g <= |groups|
      invariant m.None? ==> forall h :: 0 <= h < g ==> !FrameMatch(groups, h, fi, checkEnd)
      invariant m.Some? ==> m == FrameGroup(groups, fi, checkEnd) && m.value + 1 == g
      invariant forall h :: 0 <= h < |groups| ==>
        groups[h].styleIndices == if h < g then styles else old(groups[h].styleIndices)
    {
      var group := groups[g];
      group.styleIndices := styles;
      var endGood := false;
      if !checkEnd {
        endGood := g + 1 == |groups| || groups[g + 1].start > fi;
      }
      if group.start <= fi && ((checkEnd && group.end > fi) || (!checkEnd && endGood)) {
        FirstMatch(groups, g, fi, checkEnd);
        m := Some(g);
      }
      g := g + 1;
    }
    if m.None? {
      NoMatch(groups, fi, checkEnd);
    }
  }

  // ---------------------------------------------------------------------
  // `jumps()`

  /** Python's `js.insert(-1, x)`: before the last element, or as the only
      element of an empty list. */
  function InsertBeforeLast(js: seq<int>, x: int): (r: seq<int>)
    ensures |r| == |js| + 1 && x in r
    ensures |js| > 0 ==> r[|r| - 1] == js[|js| - 1]
  {
    if |js| == 0 then [x] else js[..|js| - 1] + [x] + [js[|js| - 1]]
  }

  /** The list after inserting each of `xs` in turn. */
  function InsertAll(js: seq<int>, xs: seq<int>): (r: seq<int>)
    ensures |r| == |js| + |xs|
  {
    if |xs| == 0 then js else InsertBeforeLast(InsertAll(js, xs[..|xs| - 1]), xs[|xs| - 1])
  }

  lemma InsertOneMore(js: seq<int>, xs: seq<int>, i: nat)
    requires i < |xs|
    ensures InsertAll(js, xs[..i + 1]) == InsertBeforeLast(InsertAll(js, xs[..i]), xs[i])
  {
    assert xs[..i + 1][..i] == xs[..i];
  }

  /** Into a non-empty list, the values land in order before its last
      element, which stays last. */
  lemma {:induction false} InsertAllKeepsLast(js: seq<int>, xs: seq<int>)
    requires |js| > 0
    ensures InsertAll(js, xs) == js[..|js| - 1] + xs + [js[|js| - 1]]
  {
    if |xs| > 0 {
      var init, x, last := xs[..|xs| - 1], xs[|xs| - 1], js[|js| - 1];
      InsertAllKeepsLast(js, init);
      var front := js[..|js| - 1] + init;
      assert InsertAll(js, xs) == InsertBeforeLast(front + [last], x);
      InsertBeforeLastOf(front, last, x);
      assert front + [x] == js[..|js| - 1] + xs by {
        assert init + [x] == xs;
      }
    }
  }

  lemma InsertBeforeLastOf(front: seq<int>, last: int, x: int)
    ensures InsertBeforeLast(front + [last], x) == front + [x] + [last]
  {
    assert (front + [last])[..|front|] == front;
  }

  /** Into an empty list, the first value goes in alone and stays last;
      the others land in order before it. */
  lemma InsertAllIntoEmpty(js: seq<int>, xs: seq<int>)
    requires |js| == 0 && |xs| > 0
    ensures InsertAll(js, xs) == xs[1..] + [xs[0]]
  {
    InsertAllFirst(js, xs);
    var one := [xs[0]];
    InsertAllKeepsLast(one, xs[1..]);
    assert one[..0] == [];
  }

  lemma {:induction false} InsertAllFirst(js: seq<int>, xs: seq<int>)
    requires |js| == 0 && |xs| > 0
    ensures InsertAll(js, xs) == InsertAll([xs[0]], xs[1..])
  {
    if |xs| > 1 {
      var init := xs[..|xs| - 1];
      InsertAllFirst(js, init);
      assert init[1..] == xs[1..][..|xs[1..]| - 1];
    }
  }

  /** Calling `jumps()` again inserts the starts again: into a non-empty
      list, the second call leaves two copies of the starts before the
      last element. */
  lemma JumpsAccumulate(js: seq<int>, starts: seq<int>)
    requires |js| > 0
    ensures InsertAll(InsertAll(js, starts), starts) == js[..|js| - 1] + starts + starts + [js[|js| - 1]]
  {
    InsertAllKeepsLast(js, starts);
    var once := js[..|js| - 1] + starts + [js[|js| - 1]];
    InsertAllKeepsLast(once, starts);
    assert once[..|once| - 1] == js[..|js| - 1] + starts;
  }

  function Starts(clips: seq<Clip>): (r: seq<int>)
    ensures |r| == |clips| && forall k :: 0 <= k < |clips| ==> r[k] == clips[k].start
  {
    seq(|clips|, k requires 0 <= k < |clips| => clips[k].start)
  }

  // ---------------------------------------------------------------------
  // `text_for_frame(fi)`

  /** What `text_for_frame(fi)` reports for the group the lookup found (or
      none): the input text of the group's first clip holding `fi`, if that
      clip starts exactly at `fi`. */
  function SyllableText(found: Option<ClipGroup>, fi: int): (r: Option<string>)
    ensures r.Some? ==> found.Some? && exists k :: (0 <= k < |found.value.clips| && found.value.clips[k].start == fi
      && Covers(found.value.clips[k], fi) && r.value == found.value.clips[k].inputText)
  {
    if found.None? then None
    else match CurrentIndex(found.value.clips, fi)
      case None => None
      case Some(k) => if found.value.clips[k].start == fi then Some(found.value.clips[k].inputText) else None
  }

  /** In a group whose clips come in order, a clip that starts at `fi` (and
      lasts at least a frame) is the syllable whose text is reported. */
  lemma SyllableAtItsStart(grp: ClipGroup, k: nat, fi: int)
    requires Ordered(grp.clips) && k < |grp.clips| && grp.clips[k].start == fi < grp.clips[k].end
    ensures SyllableText(Some(grp), fi) == Some(grp.clips[k].inputText)
  {
    CurrentIsUnique(grp.clips, k, fi);
  }

  /** Once a group is positioned at `fi`, its current syllable (the first
      clip at position 0) is the first of its clips that holds `fi`. */
  lemma CurrentSyllableCovers(grp: ClipGroup, fi: int)
    requires grp.Positioned(fi)
    ensures forall k :: grp.FirstCurrent(k) <==> CurrentIndex(grp.clips, fi) == Some(k)
    ensures CurrentIndex(grp.clips, fi).None? <==> forall k :: 0 <= k < |grp.clips| ==> grp.clips[k].position != 0
  {
    var clips := grp.clips;
    assert forall k :: 0 <= k < |clips| ==> (clips[k].position == 0 <==> Covers(clips[k], fi));
  }

  /** What `position(f, tracks)` leaves on a group: its clips positioned
      at `f`, each clip's styles the tokens of the style clips current at
      its reference frame (whose texts `position` does not change), those
      style clips appended to its `style_clips`. */
  twostate predicate Resolved(grp: ClipGroup, f: int, tracks: seq<ClipTrack>)
    reads *
  {
    && grp.Positioned(f)
    && (forall k {:trigger grp.clips[k].styles} :: 0 <= k < |grp.clips| ==>
          grp.clips[k].styles == StyleTokens(Matched(tracks, RefFrame(grp.clips[k], f))))
    && (forall k {:trigger grp.clips[k].styleClips} :: 0 <= k < |grp.clips| ==>
          grp.clips[k].styleClips == old(grp.clips[k].styleClips) + Matched(tracks, RefFrame(grp.clips[k], f)))
  }

  // ---------------------------------------------------------------------
  // The sequence

  class Sequence {
    const tracks: seq<ClipTrack>
    const workareaTrack: nat
    var cti: int
    var jumpList: seq<int>

    /** `Sequence(duration, fps, storyboard, tracks, workarea_track)`, with
        the current frame and the jump list `Timeline` keeps. */
    constructor (tracks: seq<ClipTrack>, workareaTrack: nat, cti: int, jumps: seq<int>)
      ensures this.tracks == tracks && this.workareaTrack == workareaTrack
      ensures this.cti == cti && jumpList == jumps
    {
      this.tracks := tracks;
      this.workareaTrack := workareaTrack;
      this.cti := cti;
      jumpList := jumps;
    }

    /** `[self[sidx] for sidx in styles]`. */
    function StyleTracks(styles: seq<nat>): (r: seq<ClipTrack>)
      requires forall j :: 0 <= j < |styles| ==> styles[j] < |tracks|
      ensures |r| == |styles| && forall j :: 0 <= j < |styles| ==> r[j] == tracks[styles[j]]
    {
      seq(|styles|, j requires 0 <= j < |styles| => tracks[styles[j]])
    }

    /** The group of track `t` the lookup of `fi` finds. */
    function Lookup(t: nat, fi: int, checkEnd: bool): Option<ClipGroup>
      requires t < |tracks|
    {
      var m := FrameGroup(tracks[t].clipGroups, fi, checkEnd);
      if m.Some? then Some(tracks[t].clipGroups[m.value]) else None
    }

    /** Track `t` can be looked up at `fi` with the style tracks `styles`:
        its groups are numbered in order (so no group is listed twice) and
        hold clips of the track, the style indices name tracks when some
        group answers (only then are they looked up), and the group the
        lookup finds, if any, does not make `position` walk forever at
        `fi`. */
    predicate Ready(t: nat, fi: int, styles: seq<nat>, checkEnd: bool) {
      && Indexed(t)
      && (FrameGroup(tracks[t].clipGroups, fi, checkEnd).Some? ==>
            forall j :: 0 <= j < |styles| ==> styles[j] < |tracks|)
      && (var m := FrameGroup(tracks[t].clipGroups, fi, checkEnd);
          m.Some? ==> tracks[t].clipGroups[m.value].WalksStop(fi))
    }

    predicate Indexed(t: nat) {
      && t < |tracks|
      && (forall g :: 0 <= g < |tracks[t].clipGroups| ==> tracks[t].clipGroups[g].index == g)
      && (forall g, j :: 0 <= g < |tracks[t].clipGroups| && 0 <= j < |tracks[t].clipGroups[g].clips| ==>
            tracks[t].clipGroups[g].clips[j] in tracks[t].clips)
    }

    /** A track whose groups are the ones its clips make can be looked up
        at any frame where the group found, if any, has walks that stop. */
    lemma GroupedIsReady(t: nat, fi: int, styles: seq<nat>, checkEnd: bool)
      requires t < |tracks| && tracks[t].Grouped()
      requires FrameGroup(tracks[t].clipGroups, fi, checkEnd).Some? ==>
        forall j :: 0 <= j < |styles| ==> styles[j] < |tracks|
      requires var m := FrameGroup(tracks[t].clipGroups, fi, checkEnd);
        m.Some? ==> tracks[t].clipGroups[m.value].WalksStop(fi)
      ensures Ready(t, fi, styles, checkEnd)
    {
      var track := tracks[t];
      var spans := Groups(Kinds(track.clips));
      forall g, j | 0 <= g < |track.clipGroups| && 0 <= j < |track.clipGroups[g].clips|
        ensures track.clipGroups[g].clips[j] in track.clips
      {
        assert GroupHolds(track.clips, track.clipGroups[g], g, spans[g]);
        assert track.clipGroups[g].clips[j] == track.clips[spans[g].lo + j];
      }
    }

    /** Every group of track `t` numbers its clips. */
    predicate Numbered(t: nat)
      requires Indexed(t)
      reads tracks[t].clips
    {
      forall g :: 0 <= g < |tracks[t].clipGroups| ==> tracks[t].clipGroups[g].Numbered()
    }

    /** What `trackClipGroupForFrame(t, fi, styles, check_end)` leaves: the
        result is the first group that answers `fi`; every group up to it
        (all of them, when none answers) has its `style_indices` set to
        `styles`, the later ones keep theirs; the group found is resolved
        for `fi` against the style tracks; no other clip of the track
        changes. */
    twostate predicate LookedUp(t: nat, fi: int, styles: seq<nat>, checkEnd: bool, new r: Option<ClipGroup>)
      requires Ready(t, fi, styles, checkEnd)
      reads *
    {
      var groups := tracks[t].clipGroups;
      var clips := tracks[t].clips;
      var m := FrameGroup(groups, fi, checkEnd);
      && r == Lookup(t, fi, checkEnd)
      && (forall g :: 0 <= g < |groups| ==>
            groups[g].styleIndices == if m.None? || g <= m.value then styles else old(groups[g].styleIndices))
      && (m.Some? ==> Resolved(groups[m.value], fi, StyleTracks(styles)))
      && (forall k {:trigger clips[k]} :: 0 <= k < |clips| && (m.None? || clips[k] !in groups[m.value].clips) ==>
            clips[k].position == old(clips[k].position) && clips[k].joined == old(clips[k].joined)
            && clips[k].styles == old(clips[k].styles) && clips[k].styleClips == old(clips[k].styleClips))
    }

    /** `trackClipGroupForFrame(track_idx, frame_idx, styles, check_end)`. */
    method TrackClipGroupForFrame(t: nat, fi: int, styles: seq<nat>, checkEnd: bool) returns (r: Option<ClipGroup>)
      requires Ready(t, fi, styles, checkEnd) && Numbered(t)
      modifies tracks[t].clipGroups`styleIndices
      modifies tracks[t].clips`position, tracks[t].clips`joined, tracks[t].clips`styles, tracks[t].clips`styleClips
      ensures LookedUp(t, fi, styles, checkEnd, r)
    {
      var groups := tracks[t].clipGroups;
      var m := MarkGroups(groups, fi, styles, checkEnd);
      if m.Some? {
        var group := groups[m.value];
        ResolveGroup(t, fi, styles, m.value);
        r := Some(group);
      } else {
        r := None;
      }
    }

    /** The group found positioned at `fi`; no other clip of the track
        changes. */
    method ResolveGroup(t: nat, fi: int, styles: seq<nat>, g: nat)
      requires Indexed(t) && Numbered(t) && g < |tracks[t].clipGroups| && tracks[t].clipGroups[g].WalksStop(fi)
      requires forall j :: 0 <= j < |styles| ==> styles[j] < |tracks|
      modifies tracks[t].clips`position, tracks[t].clips`joined, tracks[t].clips`styles, tracks[t].clips`styleClips
      ensures Resolved(tracks[t].clipGroups[g], fi, StyleTracks(styles))
      ensures forall k {:trigger tracks[t].clips[k]} :: 0 <= k < |tracks[t].clips| && tracks[t].clips[k] !in tracks[t].clipGroups[g].clips ==>
        unchanged(tracks[t].clips[k])
    {
      var group := tracks[t].clipGroups[g];
      group.Position(fi, StyleTracks(styles));
      forall k | 0 <= k < |group.clips|
        ensures old(StyleTokens(Matched(StyleTracks(styles), RefFrame(group.clips[k], fi))))
          == StyleTokens(Matched(StyleTracks(styles), RefFrame(group.clips[k], fi)))
      {
        TextUnchanged(Matched(StyleTracks(styles), RefFrame(group.clips[k], fi)));
      }
    }

    /** `clip_group(track_idx, f, styles)`: the group found, or a new empty
        group numbered -1 (which is not valid and spans 0 to 0). */
    method ClipGroupAt(t: nat, fi: int, styles: seq<nat>) returns (cg: ClipGroup)
      requires Ready(t, fi, styles, true) && Numbered(t)
      modifies tracks[t].clipGroups`styleIndices
      modifies tracks[t].clips`position, tracks[t].clips`joined, tracks[t].clips`styles, tracks[t].clips`styleClips
      ensures LookedUp(t, fi, styles, true, Lookup(t, fi, true))
      ensures Lookup(t, fi, true).Some? ==> cg == Lookup(t, fi, true).value
      ensures Lookup(t, fi, true).None? ==> fresh(cg) && cg.index == -1 && cg.clips == [] && !cg.valid && cg.start == 0 && cg.end == 0
    {
      var found := TrackClipGroupForFrame(t, fi, styles, true);
      if found.Some? {
        cg := found.value;
      } else {
        cg := new ClipGroup(-1, []);
      }
    }

    /** `find_workarea()`: the span of the work-area group at the current
        frame, if there is one. */
    method FindWorkarea() returns (r: Option<(int, int)>)
      requires Ready(workareaTrack, cti, [], true) && Numbered(workareaTrack)
      modifies tracks[workareaTrack].clipGroups`styleIndices
      modifies tracks[workareaTrack].clips`position, tracks[workareaTrack].clips`joined
      modifies tracks[workareaTrack].clips`styles, tracks[workareaTrack].clips`styleClips
      ensures LookedUp(workareaTrack, cti, [], true, Lookup(workareaTrack, cti, true))
      ensures r == match Lookup(workareaTrack, cti, true)
        case None => None
        case Some(grp) => Some((grp.start, grp.end))
    {
      var cg := TrackClipGroupForFrame(workareaTrack, cti, [], true);
      if cg.Some? {
        return Some((cg.value.start, cg.value.end));
      }
      return None;
    }

    /** `jumps()`: inserts the start of every clip of the work-area track
        before the last element of `_jumps`, in place, and returns the
        list; a second call inserts them again. */
    method Jumps() returns (js: seq<int>)
      requires workareaTrack < |tracks|
      modifies this`jumpList
      ensures jumpList == InsertAll(old(jumpList), Starts(tracks[workareaTrack].clips)) && js == jumpList
    {
      var clips := tracks[workareaTrack].clips;
      ghost var starts := Starts(clips);
      var i := 0;
      while i < |clips|
        invariant 0 <= i <= |clips|
        invariant jumpList == InsertAll(old(jumpList), starts[..i])
      {
        InsertOneMore(old(jumpList), starts, i);
        jumpList := InsertBeforeLast(jumpList, clips[i].start);
        i := i + 1;
      }
      assert starts[..|clips|] == starts;
      js := jumpList;
    }

    /** `text_for_frame(fi)`: the input text of the work-area group's
        current syllable, when that syllable starts at `fi`. */
    method TextForFrame(fi: int) returns (txt: Option<string>)
      requires Ready(workareaTrack, fi, [], true) && Numbered(workareaTrack)
      modifies tracks[workareaTrack].clipGroups`styleIndices
      modifies tracks[workareaTrack].clips`position, tracks[workareaTrack].clips`joined
      modifies tracks[workareaTrack].clips`styles, tracks[workareaTrack].clips`styleClips
      ensures LookedUp(workareaTrack, fi, [], true, Lookup(workareaTrack, fi, true))
      ensures txt == SyllableText(Lookup(workareaTrack, fi, true), fi)
    {
      var cg := ClipGroupAt(workareaTrack, fi, []);
      var syllable := cg.CurrentSyllable();
      if Lookup(workareaTrack, fi, true).Some? {
        CurrentSyllableCovers(cg, fi);
      }
      if syllable.Some? && syllable.value.start == fi {
        return Some(syllable.value.inputText);
      }
      return None;
    }
  }
}
