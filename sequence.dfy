/** The objects of coldtype/time/sequence.py: `Clip`, `ClipGroup`,
    `ClipTrack` and `Sequence`. They refer to one another (a clip to its
    group and its join neighbours, a group to its clips, a track to its
    groups), so they share one module. Fields the source never reassigns
    after construction are constants; the per-frame fields a query
    overwrites are variables. */
module ClipSequence {
  import opened Results
  import opened Text
  import opened ClipSyntax
  import opened JoinRuns
  import opened LineLayout
  import opened Partition

  /** Why `Clip.fadeIn` fails: a start mode other than 0 and -1 leaves the
      window start unbound (`UnboundLocalError`), and a zero-frame fade at
      its own start frame divides by zero. */
  datatype FadeError = UndefinedStartMode | ZeroFade

  /** The structural types of a list of clips. */
  function Kinds(clips: seq<Clip>): (ks: seq<ClipType>)
    ensures |ks| == |clips| && forall k :: 0 <= k < |clips| ==> ks[k] == clips[k].kind
  {
    seq(|clips|, k requires 0 <= k < |clips| => clips[k].kind)
  }

  /** Python's truth value of an optional frame count: `None` and 0 are false. */
  predicate Truthy(n: Option<int>) {
    n.Some? && n.value != 0
  }

  /** The tri-state position of a clip `[start, end)` at frame `f`: 1 still
      to come, 0 current, -1 past. */
  function Classify(start: int, end: int, f: int): (p: int)
    ensures p == 1 <==> f < start
    ensures p == 0 <==> start <= f < end
    ensures p == -1 <==> start <= f && end <= f
  {
    if start > f then 1 else if start <= f && end > f then 0 else -1
  }

  /** No clip is listed twice. */
  predicate Distinct(clips: seq<Clip>) {
    forall a, b :: 0 <= a < |clips| && 0 <= b < |clips| && a != b ==> clips[a] != clips[b]
  }

  /** `pos` gives every clip its position in `clips`: a witness that no
      clip is listed twice, cheaper to reason with than `Distinct`. */
  predicate Positions(clips: seq<Clip>, pos: map<Clip, nat>) {
    forall k :: 0 <= k < |clips| ==> clips[k] in pos && pos[clips[k]] == k
  }

  ghost function PositionsOf(clips: seq<Clip>): (pos: map<Clip, nat>)
    requires Distinct(clips)
    ensures Positions(clips, pos)
  {
    if |clips| == 0 then map[]
    else
      var n := |clips| - 1;
      assert forall k :: 0 <= k < n ==> clips[..n][k] == clips[k] != clips[n];
      PositionsOf(clips[..n])[clips[n] := n]
  }

  /** A slice of a list with positions has no repetitions, and no clip
      outside the slice is in it. */
  lemma SliceApart(clips: seq<Clip>, pos: map<Clip, nat>, lo: nat, hi: nat)
    requires lo <= hi <= |clips| && Positions(clips, pos)
    ensures Distinct(clips[lo..hi])
    ensures forall k :: 0 <= k < |clips| && !(lo <= k < hi) ==> clips[k] !in clips[lo..hi]
  {
    forall a, b | 0 <= a < hi - lo && 0 <= b < hi - lo && a != b ensures clips[lo..hi][a] != clips[lo..hi][b] {
      assert pos[clips[lo + a]] != pos[clips[lo + b]];
    }
  }

  /** The backward links `groupedClips` sets on a track: a JoinPrev clip
      other than the first is linked to its predecessor; nothing else is. */
  predicate LinkedPrev(chain: seq<Clip>)
    reads chain`joinPrev
  {
    forall k {:trigger chain[k].joinPrev} :: 0 <= k < |chain| ==>
      chain[k].joinPrev == if k > 0 && chain[k].kind == JoinPrev then Some(chain[k - 1]) else None
  }

  /** The forward links: a clip followed by a JoinPrev clip is linked to
      it; nothing else is. */
  predicate LinkedNext(chain: seq<Clip>)
    reads chain`joinNext
  {
    forall k {:trigger chain[k].joinNext} :: 0 <= k < |chain| ==>
      chain[k].joinNext == if k + 1 < |chain| && chain[k + 1].kind == JoinPrev then Some(chain[k + 1]) else None
  }

  // ---------------------------------------------------------------------
  // The stages of `Clip.__init__`, step by step

  /** The structural prefix: at most one, tried in the source's order. */
  method StripPrefix(raw: string) returns (k: ClipType, t: string)
    ensures (k, t) == StripStructural(raw)
  {
    t, k := raw, Isolated;
    if StartsWith(t, ClearScreenSigil) {
      t, k := t[1..], ClearScreen;
    } else if StartsWith(t, NewLineSigil) {
      t, k := t[1..], NewLine;
    } else if StartsWith(t, GrafBreakSigil) {
      t, k := t[1..], GrafBreak;
    } else if StartsWith(t, JoinPrevSigil) {
      t, k := t[1..], JoinPrev;
    } else if StartsWith(t, MetaSigil) {
      k, t := Meta, t[2..];
    }
  }

  /** The `:` fields; the inline data is filled pair by pair. */
  method ReadFields(t: string) returns (first: string, inline: seq<string>, data: map<string, string>)
    requires InlineFields(t).Success?
    ensures Fields(first, inline, data) == InlineFields(t).value
  {
    var parts := Split(t, ':');
    var styleAt := IndexOf(parts, StyleMarker);
    var dataAt := IndexOf(parts, DataMarker);
    inline := [];
    data := map[];
    if styleAt.Some? {
      inline := Split(parts[styleAt.value + 1], ',');
    }
    if dataAt.Some? {
      data := FillData(Split(parts[dataAt.value + 1], '&'));
    }
    first := parts[0];
  }

  /** The inline data, filled pair by pair; a later key overrides an
      earlier one. */
  method FillData(items: seq<string>) returns (data: map<string, string>)
    requires DataPairs(items).Success?
    ensures data == DataMap(DataPairs(items).value)
  {
    ghost var pairs := DataPairs(items).value;
    data := map[];
    var i := 0;
    while i < |items|
      invariant 0 <= i <= |items|
      invariant data == DataMap(pairs[..i])
    {
      var kv := Split(items[i], '=');
      assert kv == [pairs[i].0, pairs[i].1];
      DataMapStep(pairs, i);
      data := data[kv[0] := kv[1]];
      i := i + 1;
    }
    assert pairs[..|items|] == pairs;
  }

  /** The blank markers `§` and `∫`, and the empty text. */
  method ApplyBlankMarkers(kind: ClipType, first: string) returns (k: ClipType, t: string, b: bool)
    ensures Shape(k, t, b) == BlankRule(kind, first)
  {
    k, t, b := kind, first, false;
    if StartsWith(t, BlankLineSigil) {
      t := t[1..];
      k := NewLine;
      b := true;
    }
    if StartsWith(t, BlankSigil) {
      t := "";
      b := true;
    }
    if t == "" {
      b := true;
      t := "";
    }
  }

  /** The fade sigil `ƒ`, leading (with optional digits) or trailing. */
  method ApplyFadeSigil(text: string) returns (t: string, fl: map<ClipFlag, nat>)
    ensures (t, fl) == FadeRule(text)
  {
    t := text;
    fl := map[];
    if StartsWith(t, [FadeSigil]) {
      t := t[1..];
      var value := DefaultFade;
      var digits := LeadingDigits(t);
      if |digits| > 0 && |digits| < |t| && t[|digits|] == FadeSigil {
        value := DigitsValue(digits);
        t := t[|digits| + 1..];
      }
      fl := fl[FadeIn := value];
    } else if EndsWith(t, [FadeSigil]) {
      fl := fl[FadeOut := DefaultFade];
    }
  }

  class Clip {
    const inputText: string
    const start: int
    const end: int
    const track: int
    const kind: ClipType
    const blank: bool
    const inlineStyles: seq<string>
    const inlineData: map<string, string>
    const flags: map<ClipFlag, nat>
    const originalText: string

    var text: string
    var idx: Option<int>
    var group: Option<ClipGroup>
    var position: int
    var joined: bool
    var joinPrev: Option<Clip>
    var joinNext: Option<Clip>
    var styles: seq<string>
    var styleClips: seq<Clip>

    /** `Clip(text, start, end, idx, track)`: the annotated text is taken
        apart stage by stage; the result is what `Parse` describes. */
    constructor (raw: string, start: int, end: int, idx: Option<int>, track: int)
      requires Parse(raw).Success?
      ensures this.inputText == raw && this.start == start && this.end == end
      ensures this.idx == idx && this.track == track
      ensures var p := Parse(raw).value;
        && kind == p.kind && text == p.text && originalText == p.text && blank == p.blank
        && inlineStyles == p.inlineStyles && inlineData == p.inlineData && flags == p.flags
      ensures position == 1 && !joined && joinPrev.None? && joinNext.None? && group.None?
      ensures styles == [] && styleClips == []
    {
      this.idx := idx;
      inputText := raw;
      this.start := start;
      this.end := end;
      this.track := track;
      styles := [];
      styleClips := [];
      position := 1;
      joined := false;
      joinPrev := None;
      joinNext := None;
      group := None;

      var k, t := StripPrefix(raw);
      var first, inline, data := ReadFields(t);
      var k2, t2, b := ApplyBlankMarkers(k, first);
      var t3, fl := ApplyFadeSigil(t2);
      kind := k2;
      blank := b;
      inlineStyles := inline;
      inlineData := data;
      flags := fl;
      text := t3;
      originalText := t3;
    }
    /** `Clip(text, start, end, idx, track)` as a call that can fail: a
        style or data marker with nothing after it, or a data item that is
        not one `key=value` pair, raises in the source and is a Failure
        here; otherwise the clip is built as the constructor describes. */
    static method Make(raw: string, start: int, end: int, idx: Option<int>, track: int) returns (r: Result<Clip, ParseError>)
      ensures r.Failure? <==> Parse(raw).Failure?
      ensures r.Failure? ==> r.error == Parse(raw).error
      ensures r.Success? ==> var p := Parse(raw).value;
        && fresh(r.value) && r.value.inputText == raw && r.value.start == start && r.value.end == end
        && r.value.idx == idx && r.value.track == track
        && r.value.kind == p.kind && r.value.text == p.text && r.value.originalText == p.text && r.value.blank == p.blank
        && r.value.flags == p.flags && r.value.inlineStyles == p.inlineStyles && r.value.inlineData == p.inlineData
        && r.value.position == 1 && !r.value.joined && r.value.joinPrev.None? && r.value.joinNext.None? && r.value.group.None?
        && r.value.styles == [] && r.value.styleClips == []
    {
      var k, t := StripPrefix(raw);
      var fields := InlineFields(t);
      if fields.Failure? {
        return Failure(fields.error);
      }
      var c := new Clip(raw, start, end, idx, track);
      return Success(c);
    }

    /** `copy.deepcopy(clip)` followed by `text = "¶"`: the paragraph mark
        line's clip. Every field keeps the original's value; the objects it
        refers to are shared rather than copied. */
    constructor MarkOf(c: Clip)
      ensures inputText == c.inputText && start == c.start && end == c.end && track == c.track
      ensures kind == c.kind && blank == c.blank && inlineStyles == c.inlineStyles
      ensures inlineData == c.inlineData && flags == c.flags && originalText == c.originalText
      ensures text == GrafBreakSigil
      ensures idx == c.idx && group == c.group && position == c.position && joined == c.joined
      ensures joinPrev == c.joinPrev && joinNext == c.joinNext
      ensures styles == c.styles && styleClips == c.styleClips
    {
      inputText := c.inputText;
      start := c.start;
      end := c.end;
      track := c.track;
      kind := c.kind;
      blank := c.blank;
      inlineStyles := c.inlineStyles;
      inlineData := c.inlineData;
      flags := c.flags;
      originalText := c.originalText;
      text := GrafBreakSigil;
      idx := c.idx;
      group := c.group;
      position := c.position;
      joined := c.joined;
      joinPrev := c.joinPrev;
      joinNext := c.joinNext;
      styles := c.styles;
      styleClips := c.styleClips;
    }

    /** `addJoin(clip, direction)`: -1 sets the backward link, 1 the forward
        one, any other direction nothing. */
    method AddJoin(clip: Clip, direction: int)
      modifies this`joinPrev, this`joinNext
      ensures joinPrev == if direction == -1 then Some(clip) else old(joinPrev)
      ensures joinNext == if direction == 1 then Some(clip) else old(joinNext)
    {
      if direction == -1 {
        joinPrev := Some(clip);
      } else if direction == 1 {
        joinNext := Some(clip);
      }
    }

    /** `joinStart()`: follows the backward links to the first clip of the
        run and reports its start. The links are those `groupedClips` left
        on the track `chain`, in which this clip stands at `i`. */
    function JoinStart(ghost chain: seq<Clip>, ghost i: nat): (r: int)
      reads chain`joinPrev
      requires i < |chain| && chain[i] == this && LinkedPrev(chain)
      ensures r == chain[RunStart(Kinds(chain), i)].start
      decreases i
    {
      assert joinPrev == chain[i].joinPrev;
      if joinPrev.Some? then joinPrev.value.JoinStart(chain, i - 1) else start
    }

    /** `joinEnd()`: follows the forward links to the last clip of the run
        and reports its end. */
    function JoinEnd(ghost chain: seq<Clip>, ghost i: nat): (r: int)
      reads chain`joinNext
      requires i < |chain| && chain[i] == this && LinkedNext(chain)
      ensures r == chain[RunEnd(Kinds(chain), i)].end
      decreases |chain| - i
    {
      assert joinNext == chain[i].joinNext;
      if joinNext.Some? then joinNext.value.JoinEnd(chain, i + 1) else end
    }

    /** `ftext()`: the text with a leading space for an Isolated clip. The
        space never reaches a style token, which is read through `strip()`. */
    function FText(): string
      reads this`text
    {
      if kind == Isolated then
        [' '] + text
      else text
    }

    /** `ftext()` keeps the text at its end and adds exactly one leading
        space, only to an Isolated clip. */
    lemma FTextShape()
      ensures var r := FText();
        && EndsWith(r, text)
        && (|r| == |text| + 1 <==> kind == Isolated)
        && (|r| == |text| + 1 ==> r[0] == ' ')
        && (kind != Isolated ==> r == text)
    {
    }

    /** `fade(default_fade)`: the fade-in length the annotation gave, else
        the default. */
    function Fade(defaultFade: int := 5): (r: int)
      ensures FadeIn in flags ==> r == flags[FadeIn] && r >= 0
      ensures FadeIn !in flags ==> r == defaultFade
    {
      if FadeIn in flags then flags[FadeIn] else defaultFade
    }

    /** `fadeIn(fi, easefn, fade_length, start)`: -1 when neither a FadeIn
        flag nor a non-zero `fade_length` asks for a fade; otherwise the
        window `[window start, window start + fade]` is anchored at the
        clip's start (mode 0) or `fade` frames before it (mode -1), and the
        result is -1 before the window, 1 after it and the eased progress
        within it, both ends included. The easing registry is the parameter
        `ease`. */
    function FadeInAt(fi: int, ease: (string, real) -> real, easeName: string := "seio", fadeLength: Option<int> := None,
                      startMode: int := 0): (r: Result<real, FadeError>)
      ensures !(FadeIn in flags || Truthy(fadeLength)) ==> r == Success(-1.0)
      ensures (FadeIn in flags || Truthy(fadeLength)) && startMode != 0 && startMode != -1 ==>
        r == Failure(UndefinedStartMode)
      ensures (FadeIn in flags || Truthy(fadeLength)) && (startMode == 0 || startMode == -1) ==>
        var fade := if Truthy(fadeLength) then fadeLength.value else flags[FadeIn];
        var from := if startMode == 0 then start else start - fade;
        && (fi < from ==> r == Success(-1.0))
        && (from <= fi && fi > from + fade ==> r == Success(1.0))
        && (from <= fi <= from + fade ==>
              if fade == 0 then r == Failure(ZeroFade)
              else
                var p := (fi - from) as real / fade as real;
                0.0 <= p <= 1.0 && r == Success(ease(easeName, p)))
    {
      if FadeIn in flags || Truthy(fadeLength) then
        var fade := if Truthy(fadeLength) then fadeLength.value else flags[FadeIn];
        if startMode != 0 && startMode != -1 then Failure(UndefinedStartMode)
        else
          var from := if startMode == 0 then start else start - fade;
          if fi < from then Success(-1.0)
          else if fi > from + fade then Success(1.0)
          else if fade == 0 then Failure(ZeroFade)
          else Success(ease(easeName, (fi - from) as real / fade as real))
      else Success(-1.0)
    }

    /** `style_matching(txt)`: the first recorded style clip whose text
        contains `txt`. */
    method StyleMatching(txt: string) returns (r: Option<Clip>)
      ensures r.Some? ==> exists k :: 0 <= k < |styleClips| && styleClips[k] == r.value
                            && Contains(r.value.text, txt)
                            && forall j :: 0 <= j < k ==> !Contains(styleClips[j].text, txt)
      ensures r.None? ==> forall j :: 0 <= j < |styleClips| ==> !Contains(styleClips[j].text, txt)
    {
      var i := 0;
      while i < |styleClips|
        invariant 0 <= i <= |styleClips|
        invariant forall j :: 0 <= j < i ==> !Contains(styleClips[j].text, txt)
      {
        if Contains(styleClips[i].text, txt) {
          return Some(styleClips[i]);
        }
        i := i + 1;
      }
      return None;
    }
  }


  /** `" " + text` unless the text already starts with a space: what
      `lines(ignore_newlines=True)` writes into a NewLine clip. */
  function LeadSpace(t: string): (r: string)
    ensures StartsWith(r, " ") && EndsWith(r, t)
    ensures StartsWith(t, " ") ==> r == t
    ensures !StartsWith(t, " ") ==> |r| == |t| + 1
  {
    if StartsWith(t, " ") then t else " " + t
  }

  /** Writing the space a second time changes nothing. */
  lemma LeadSpaceIdempotent(t: string)
    ensures LeadSpace(LeadSpace(t)) == LeadSpace(t)
  {
  }

  /** `m` is the paragraph-mark copy of `c` that `lines` emits: its text is
      the mark, and it shares the original's type, frames and per-frame
      state. */
  predicate MarkCopy(m: Clip, c: Clip)
    reads m, c`idx, c`position, c`joined, c`styles, c`styleClips, c`group
  {
    && m.text == GrafBreakSigil && m.kind == c.kind && m.start == c.start && m.end == c.end
    && m.inputText == c.inputText && m.blank == c.blank
    && m.idx == c.idx && m.position == c.position && m.joined == c.joined
    && m.styles == c.styles && m.styleClips == c.styleClips && m.group == c.group
  }

  /** The clips on the lines. */
  function Members(lines: seq<seq<Clip>>): set<Clip> {
    set li, j | 0 <= li < |lines| && 0 <= j < |lines[li]| :: lines[li][j]
  }

  /** `cs` holds, slot by slot, the group's clips the slots name: slot
      `Orig(k)` is clip `k` itself; every slot names a clip of the group. */
  predicate Names(clips: seq<Clip>, slots: seq<Slot>, cs: seq<Clip>) {
    && |cs| == |slots|
    && forall j :: 0 <= j < |slots| ==> slots[j].k < |clips| && (slots[j].Orig? ==> cs[j] == clips[slots[j].k])
  }

  /** `Names`, line by line. */
  predicate NamesAll(clips: seq<Clip>, ls: seq<seq<Slot>>, lines: seq<seq<Clip>>) {
    |lines| == |ls| && forall li :: 0 <= li < |ls| ==> Names(clips, ls[li], lines[li])
  }

  predicate NoMarks(slots: seq<Slot>) {
    forall j :: 0 <= j < |slots| ==> slots[j].Orig?
  }

  /** What `text()` writes before a clip's text. */
  function Decoration(kind: ClipType): string {
    match kind
    case Isolated => "( )"
    case JoinPrev => "|"
    case NewLine => "/(\\n)/"
    case _ => ""
  }

  /** The debug string of `text()`: each clip's decoration and text, in
      order. */
  function DebugText(cs: seq<Clip>): string
    reads cs`text
  {
    if |cs| == 0 then "" else DebugText(cs[..|cs| - 1]) + Decoration(cs[|cs| - 1].kind) + cs[|cs| - 1].text
  }

  lemma ContainsInPrefix(a: string, b: string, x: string)
    requires Contains(a, x)
    ensures Contains(a + b, x)
  {
    var i :| 0 <= i <= |a| - |x| && OccursAt(a, x, i);
    assert OccursAt(a + b, x, i);
  }

  /** Nothing is lost from the debug string: every clip's text occurs in
      it. */
  lemma {:induction false} DebugTextHasEveryText(cs: seq<Clip>, k: nat)
    requires k < |cs|
    ensures Contains(DebugText(cs), cs[k].text)
  {
    var n := |cs|;
    var init := cs[..n - 1];
    var prefix := DebugText(init) + Decoration(cs[n - 1].kind);
    if k < n - 1 {
      assert cs[k] == init[k];
      DebugTextHasEveryText(init, k);
      ContainsInPrefix(DebugText(init), Decoration(cs[n - 1].kind) + cs[n - 1].text, cs[k].text);
      assert DebugText(cs) == DebugText(init) + (Decoration(cs[n - 1].kind) + cs[n - 1].text);
    } else {
      assert OccursAt(DebugText(cs), cs[k].text, |prefix|);
    }
  }

  class ClipGroup {
    const index: int
    const clips: seq<Clip>
    const start: int
    const end: int
    const track: Option<int>
    const valid: bool
    var styleIndices: seq<int>

    /** `ClipGroup(timeline, index, clips)`: the group spans its first
        clip's start to its last clip's end, is valid iff it holds a clip,
        and numbers its clips 0, 1, ... and points them at itself. */
    constructor (index: int, clips: seq<Clip>)
      requires Distinct(clips)
      modifies clips`idx, clips`group
      ensures this.index == index && this.clips == clips && styleIndices == []
      ensures |clips| > 0 ==> start == clips[0].start && end == clips[|clips| - 1].end && track == Some(clips[0].track)
      ensures |clips| == 0 ==> start == 0 && end == 0 && track.None?
      ensures valid <==> |clips| > 0
      ensures Numbered() && Owned()
    {
      this.index := index;
      this.clips := clips;
      if |clips| > 0 {
        start, end, track, valid := clips[0].start, clips[|clips| - 1].end, Some(clips[0].track), true;
      } else {
        start, end, track, valid := 0, 0, None, false;
      }
      styleIndices := [];
      new;
      var i := 0;
      while i < |clips|
        invariant 0 <= i <= |clips|
        invariant forall k :: 0 <= k < i ==> clips[k].idx == Some(k) && clips[k].group == Some(this)
        invariant styleIndices == []
      {
        clips[i].idx := Some(i);
        clips[i].group := Some(this);
        i := i + 1;
      }
    }

    /** Every clip knows its index in the group. */
    predicate Numbered()
      reads clips`idx
    {
      forall k :: 0 <= k < |clips| ==> clips[k].idx == Some(k)
    }

    /** Every clip points back at this group. */
    predicate Owned()
      reads this, clips`group
    {
      forall k :: 0 <= k < |clips| ==> clips[k].group == Some(this)
    }

    /** Numbering makes the clips distinct. */
    lemma NumberedDistinct()
      requires Numbered()
      ensures Distinct(clips)
    {
      forall a, b | 0 <= a < |clips| && 0 <= b < |clips| && a != b
        ensures clips[a] != clips[b]
      {
        assert clips[a].idx == Some(a) && clips[b].idx == Some(b);
      }
    }

    /** `ldata(field, default)`: the last clip's inline datum, or the
        default; None for an empty group. */
    function LData(field: string, default: string): (r: Option<string>)
      ensures r.None? <==> |clips| == 0
      ensures r.Some? && field in clips[|clips| - 1].inlineData ==> r.value == clips[|clips| - 1].inlineData[field]
      ensures r.Some? && field !in clips[|clips| - 1].inlineData ==> r.value == default
    {
      if |clips| > 0 then
        var data := clips[|clips| - 1].inlineData;
        Some(if field in data then data[field] else default)
      else None
    }

    /** `sibling(clip, direction, wrap)`: the clip `direction` places away.
        Without wrap, leaving the group gives None. With wrap, stepping past
        the end gives the first clip, and stepping below 0 indexes from the
        end as Python does, None only past the far end. */
    function Sibling(clip: Clip, direction: int, wrap: bool): (r: Option<Clip>)
      reads clip`idx
      requires clip.idx.Some?
      ensures r.Some? ==> exists m :: 0 <= m < |clips| && clips[m] == r.value
      ensures 0 <= clip.idx.value + direction < |clips| ==> r == Some(clips[clip.idx.value + direction])
      ensures !wrap && !(0 <= clip.idx.value + direction < |clips|) ==> r.None?
      ensures wrap && clip.idx.value + direction >= |clips| > 0 ==> r == Some(clips[0])
      ensures wrap && -|clips| <= clip.idx.value + direction < 0 ==> r == Some(clips[clip.idx.value + direction + |clips|])
      ensures wrap && clip.idx.value + direction < -|clips| ==> r.None?
    {
      var j := clip.idx.value + direction;
      if j < 0 && !wrap then None
      else if j >= |clips| then
        if !wrap || |clips| == 0 then None else Some(clips[0])
      else if j >= 0 then Some(clips[j])
      else if j + |clips| >= 0 then Some(clips[j + |clips|])
      else None
    }

    /** With wrap, a step forward and a step back undo each other: the
        clips form a ring. */
    lemma SiblingRing(k: nat)
      requires Numbered() && k < |clips|
      ensures Sibling(clips[k], 1, true).Some?
      ensures var s := Sibling(clips[k], 1, true).value;
        s.idx.Some? && Sibling(s, -1, true) == Some(clips[k])
    {
      NumberedDistinct();
    }

    /** `currentSyllable()`: the first current clip. */
    method CurrentSyllable() returns (r: Option<Clip>)
      ensures r.None? <==> forall k :: 0 <= k < |clips| ==> clips[k].position != 0
      ensures r.Some? ==> exists k :: FirstCurrent(k) && r.value == clips[k]
    {
      var i := 0;
      while i < |clips|
        invariant 0 <= i <= |clips|
        invariant forall k :: 0 <= k < i ==> clips[k].position != 0
      {
        if clips[i].position == 0 {
          assert FirstCurrent(i);
          return Some(clips[i]);
        }
        i := i + 1;
      }
      return None;
    }

    /** Clip `k` is the first clip whose position is 0. */
    predicate FirstCurrent(k: int)
      reads clips`position
    {
      0 <= k < |clips| && clips[k].position == 0 && forall j :: 0 <= j < k ==> clips[j].position != 0
    }

    /** `ws` lists the clips at the indices `ixs`. */
    predicate Picks(ws: seq<Clip>, ixs: seq<nat>) {
      |ws| == |ixs| && forall j :: 0 <= j < |ixs| ==> ixs[j] < |clips| && ws[j] == clips[ixs[j]]
    }

    /** `currentWord()`: the first current clip with the JoinPrev clips
        around it that the index walks reach, in group order. A walk that
        starts at a JoinPrev clip 0 wraps to the end; when every clip is
        JoinPrev it would never stop, which the second precondition
        excludes. */
    method CurrentWord() returns (r: Option<seq<Clip>>)
      requires Numbered()
      requires HasAnchor(Kinds(clips)) || forall k :: 0 <= k < |clips| ==> clips[k].position != 0
      ensures r.None? <==> forall k :: 0 <= k < |clips| ==> clips[k].position != 0
      ensures r.Some? ==> HasAnchor(Kinds(clips)) && exists i :: FirstCurrent(i) && Picks(r.value, Word(Kinds(clips), i))
    {
      var c := CurrentSyllable();
      if c.None? {
        return None;
      }
      ghost var kinds := Kinds(clips);
      var i := c.value.idx.value;
      assert FirstCurrent(i) by {
        var k :| FirstCurrent(k) && c.value == clips[k];
      }
      var before := WalkBack(i);
      var after := WalkForward(i);
      var word := before + [clips[i]] + after;
      assert Picks(word, Word(kinds, i));
      return Some(word);
    }

    /** The backward walk of `currentWord` from clip `i`: while the clip
        reached is JoinPrev, step to `clips[idx - 1]` (index -1 being the
        last clip) and put that clip in front. */
    method WalkBack(i: nat) returns (before: seq<Clip>)
      requires Numbered() && i < |clips| && HasAnchor(Kinds(clips))
      ensures Picks(before, Reverse(BackWalk(Kinds(clips), i)))
    {
      ghost var kinds := Kinds(clips);
      before := [];
      ghost var walked: seq<nat> := [];
      var b: nat := i;
      while clips[b].kind == JoinPrev
        invariant 0 <= b < |clips|
        invariant BackWalk(kinds, i) == walked + BackWalk(kinds, b)
        invariant Picks(before, Reverse(walked))
        decreases Dist(b, SomeAnchor(kinds), |clips|)
      {
        assert clips[b].idx == Some(b);
        var p := clips[b].idx.value - 1;
        b := if p < 0 then p + |clips| else p;
        PicksFront(before, walked, b);
        before := [clips[b]] + before;
        walked := walked + [b];
      }
      assert walked == BackWalk(kinds, i);
    }

    /** One step of the backward walk: the clip reached goes in front. */
    lemma PicksFront(before: seq<Clip>, walked: seq<nat>, b: nat)
      requires b < |clips| && Picks(before, Reverse(walked))
      ensures Picks([clips[b]] + before, Reverse(walked + [b]))
    {
      var r := Reverse(walked + [b]);
      assert r[0] == b;
      forall j | 1 <= j < |r|
        ensures r[j] == Reverse(walked)[j - 1]
      {
      }
    }

    /** The forward walk of `currentWord` from clip `i`: the JoinPrev clips
        at `idx + 1`, `idx + 2`, ..., until a clip that is not JoinPrev or
        the end of the group (the `IndexError`). */
    method WalkForward(i: nat) returns (after: seq<Clip>)
      requires Numbered() && i < |clips|
      ensures Picks(after, FwdWalk(Kinds(clips), i + 1))
    {
      ghost var kinds := Kinds(clips);
      after := [];
      ghost var fw: seq<nat> := [];
      var a := clips[i].idx.value + 1;
      while a < |clips| && clips[a].kind == JoinPrev
        invariant i < a <= |clips|
        invariant FwdWalk(kinds, i + 1) == fw + FwdWalk(kinds, a)
        invariant Picks(after, fw)
        decreases |clips| - a
      {
        assert clips[a].idx == Some(a);
        PicksSnoc(after, fw, a);
        after := after + [clips[a]];
        fw := fw + [a];
        a := clips[a].idx.value + 1;
      }
      assert fw == FwdWalk(kinds, i + 1);
    }

    lemma PicksSnoc(after: seq<Clip>, walked: seq<nat>, a: nat)
      requires a < |clips| && Picks(after, walked)
      ensures Picks(after + [clips[a]], walked + [a])
    {
    }

    /** Some clip of the group is current at `f` only if the backward walk
        from it can stop: not every clip is JoinPrev. */
    predicate WalksStop(f: int) {
      HasAnchor(Kinds(clips)) || forall k :: 0 <= k < |clips| ==> !Covers(clips[k], f)
    }

    /** What `position(f, tracks)` leaves on the clips: each position is the
        clip's place relative to `f`, and a clip is joined exactly when a
        walk from a current clip reaches it. */
    predicate Positioned(f: int)
      reads clips`position, clips`joined
    {
      PlacedBefore(f, |clips|)
    }

    /** The state once the clips before `i` are positioned at `f`. */
    predicate PlacedBefore(f: int, i: nat)
      requires i <= |clips|
      reads clips`position, clips`joined
    {
      && (forall k {:trigger clips[k].position} :: 0 <= k < i ==> clips[k].position == Classify(clips[k].start, clips[k].end, f))
      && (forall k {:trigger clips[k].joined} :: 0 <= k < |clips| ==> clips[k].joined == JoinedBefore(f, i, k))
    }

    /** `position(f, tracks)`: resolves every clip for frame `f`. Each
        clip's styles are the tokens of the style clips current at its
        reference frame, read from the style clips' texts as they stand
        when `position` is called (it changes no text). The style clips
        found are appended to each clip's `style_clips`, which nothing
        clears. */
    method Position(f: int, tracks: seq<ClipTrack>)
      requires Numbered() && WalksStop(f)
      modifies clips`position, clips`joined, clips`styles, clips`styleClips
      ensures Positioned(f)
      ensures forall k {:trigger clips[k].styles} :: 0 <= k < |clips| ==>
        clips[k].styles == old(StyleTokens(Matched(tracks, RefFrame(clips[k], f))))
      ensures forall k {:trigger clips[k].styleClips} :: 0 <= k < |clips| ==>
        clips[k].styleClips == old(clips[k].styleClips) + Matched(tracks, RefFrame(clips[k], f))
    {
      NumberedDistinct();
      ClearJoined();
      ghost var before := StyleClipsOf(clips);
      ghost var want := seq(|clips|, k requires 0 <= k < |clips| reads * =>
        StyleTokens(Matched(tracks, RefFrame(clips[k], f))));
      ghost var after := seq(|clips|, k requires 0 <= k < |clips| => before[k] + Matched(tracks, RefFrame(clips[k], f)));
      PlaceAll(f, tracks, want, before, after);
      forall k | 0 <= k < |clips|
        ensures clips[k].styles == old(StyleTokens(Matched(tracks, RefFrame(clips[k], f))))
      {
        TextUnchanged(Matched(tracks, RefFrame(clips[k], f)));
      }
    }

    /** The second loop of `position`, over every clip in turn. */
    method PlaceAll(f: int, tracks: seq<ClipTrack>, ghost want: seq<seq<string>>, ghost before: seq<seq<Clip>>,
                    ghost after: seq<seq<Clip>>)
      requires Numbered() && WalksStop(f) && |want| == |clips| && |before| == |clips| && |after| == |clips|
      requires forall k {:trigger want[k]} :: 0 <= k < |clips| ==>
        want[k] == StyleTokens(Matched(tracks, RefFrame(clips[k], f)))
      requires forall k {:trigger after[k]} :: 0 <= k < |clips| ==>
        after[k] == before[k] + Matched(tracks, RefFrame(clips[k], f))
      requires Done(f, 0, want, before, after)
      modifies clips`position, clips`joined, clips`styles, clips`styleClips
      ensures Done(f, |clips|, want, before, after)
    {
      var i := 0;
      while i < |clips|
        invariant 0 <= i <= |clips| && Numbered()
        invariant Done(f, i, want, before, after)
      {
        TextUnchanged(Matched(tracks, RefFrame(clips[i], f)));
        PositionStep(f, tracks, i, want, before, after);
        i := i + 1;
      }
    }

    /** `position` called twice at the same frame leaves the positions,
        the joined marks and the styles as one call does; only the style
        clips differ, since the ones found are appended once more. */
    method PositionTwice(f: int, tracks: seq<ClipTrack>)
      requires Numbered() && WalksStop(f)
      modifies clips`position, clips`joined, clips`styles, clips`styleClips
      ensures Positioned(f)
      ensures forall k {:trigger clips[k].styles} :: 0 <= k < |clips| ==>
        clips[k].styles == old(StyleTokens(Matched(tracks, RefFrame(clips[k], f))))
      ensures forall k {:trigger clips[k].styleClips} :: 0 <= k < |clips| ==>
        clips[k].styleClips == old(clips[k].styleClips) + Matched(tracks, RefFrame(clips[k], f))
                                                        + Matched(tracks, RefFrame(clips[k], f))
    {
      Position(f, tracks);
      label once:
      Position(f, tracks);
      forall k | 0 <= k < |clips|
        ensures clips[k].styles == old(StyleTokens(Matched(tracks, RefFrame(clips[k], f))))
      {
        TextUnchanged(Matched(tracks, RefFrame(clips[k], f)));
        TextUnchanged@once(Matched(tracks, RefFrame(clips[k], f)));
      }
    }

    /** The state once the clips before `i` are positioned at `f`: those
        clips have the styles `want`, and each clip's style clips are
        `after` for those before `i` and still `before` for the others. */
    predicate Done(f: int, i: nat, want: seq<seq<string>>, before: seq<seq<Clip>>, after: seq<seq<Clip>>)
      requires i <= |clips| && |want| == |clips| && |before| == |clips| && |after| == |clips|
      reads clips`position, clips`joined, clips`styles, clips`styleClips
    {
      PlacedBefore(f, i) && Styled(i, want, before, after)
    }

    /** The styles of the clips before `i` are `want`, and their style
        clips `after`; the later clips keep the style clips `before`. */
    predicate Styled(i: nat, want: seq<seq<string>>, before: seq<seq<Clip>>, after: seq<seq<Clip>>)
      requires i <= |clips| && |want| == |clips| && |before| == |clips| && |after| == |clips|
      reads clips`styles, clips`styleClips
    {
      && (forall k {:trigger clips[k].styles} :: 0 <= k < i ==> clips[k].styles == want[k])
      && (forall k {:trigger clips[k].styleClips} :: 0 <= k < |clips| ==>
            clips[k].styleClips == if k < i then after[k] else before[k])
    }

    /** One turn of the second loop of `position`, for clip `i`. The style
        lookup is done before the position is stored rather than after: it
        reads only the style tracks, which the position and the joined marks
        do not touch, so the order makes no difference. */
    method PositionStep(f: int, tracks: seq<ClipTrack>, i: nat, ghost want: seq<seq<string>>, ghost before: seq<seq<Clip>>,
                        ghost after: seq<seq<Clip>>)
      requires Numbered() && WalksStop(f) && i < |clips| && |want| == |clips| && |before| == |clips| && |after| == |clips|
      requires want[i] == StyleTokens(Matched(tracks, RefFrame(clips[i], f)))
      requires after[i] == before[i] + Matched(tracks, RefFrame(clips[i], f))
      requires Done(f, i, want, before, after)
      modifies clips`position, clips`joined, clips`styles, clips`styleClips
      ensures Numbered()
      ensures Done(f, i + 1, want, before, after)
    {
      StyleStep(f, tracks, i, want, before, after);
      PlaceStep(f, i);
    }

    /** The style lookup of clip `i`. */
    method StyleStep(f: int, tracks: seq<ClipTrack>, i: nat, ghost want: seq<seq<string>>, ghost before: seq<seq<Clip>>,
                     ghost after: seq<seq<Clip>>)
      requires Numbered() && i < |clips| && |want| == |clips| && |before| == |clips| && |after| == |clips|
      requires want[i] == StyleTokens(Matched(tracks, RefFrame(clips[i], f)))
      requires after[i] == before[i] + Matched(tracks, RefFrame(clips[i], f))
      requires Styled(i, want, before, after)
      modifies clips`styles, clips`styleClips
      ensures Styled(i + 1, want, before, after)
    {
      var clip := clips[i];
      ghost var found := Matched(tracks, RefFrame(clip, f));
      ResolveStyles(clip, RefFrame(clip, f), tracks);
      TextUnchanged(found);
      assert clip.styles == want[i] && clip.styleClips == after[i];
      forall k | 0 <= k < |clips| && k != i
        ensures clips[k].styles == old(clips[k].styles) && clips[k].styleClips == old(clips[k].styleClips)
      {
        assert clips[k].idx != clip.idx;
      }
    }

    /** The position of clip `i` and the joined marks of its walks. */
    method PlaceStep(f: int, i: nat)
      requires Numbered() && WalksStop(f) && i < |clips| && PlacedBefore(f, i)
      modifies clips`position, clips`joined
      ensures PlacedBefore(f, i + 1)
    {
      var clip := clips[i];
      PlaceClip(clip, i, f);
      forall k | 0 <= k < |clips| && k != i
        ensures clips[k].position == old(clips[k].position)
      {
        assert clips[k].idx != clip.idx;
      }
    }

    /** The first loop of `position`: no clip is joined. */
    method ClearJoined()
      modifies clips`joined
      ensures forall k :: 0 <= k < |clips| ==> !clips[k].joined
    {
      var i := 0;
      while i < |clips|
        invariant 0 <= i <= |clips|
        invariant forall k :: 0 <= k < i ==> !clips[k].joined
      {
        clips[i].joined := false;
        i := i + 1;
      }
    }

    /** The position of clip `i` relative to `f` and, when it is current,
        the joined marks of both walks from it. */
    method PlaceClip(clip: Clip, i: nat, f: int)
      requires Numbered() && WalksStop(f) && i < |clips| && clip == clips[i]
      modifies clip`position, clips`joined
      ensures clip.position == Classify(clip.start, clip.end, f)
      ensures forall k :: 0 <= k < |clips| ==>
        clips[k].joined == (old(clips[k].joined) || MarkedFrom(f, i, k))
    {
      ghost var kinds := Kinds(clips);
      if clip.start > f {
        clip.position := 1;
      } else if clip.start <= f && clip.end > f {
        clip.position := 0;
        assert HasAnchor(kinds);
        MarkBack(i);
        MarkForward(i);
        assert forall k :: k in Marks(kinds, i) <==> k in BackWalk(kinds, i) || k in FwdWalk(kinds, i + 1);
      } else {
        clip.position := -1;
      }
    }

    /** Clip `c` is current at `f` and clip `k` is on a walk from it. */
    predicate MarkedFrom(f: int, c: nat, k: nat)
      requires c < |clips|
    {
      Covers(clips[c], f) && HasAnchor(Kinds(clips)) && k in Marks(Kinds(clips), c)
    }

    /** Clip `k` is marked joined once the clips before `i` are
        positioned at `f`. */
    predicate JoinedBefore(f: int, i: nat, k: nat)
      requires i <= |clips|
    {
      i > 0 && (JoinedBefore(f, i - 1, k) || MarkedFrom(f, i - 1, k))
    }

    /** A clip is marked joined exactly when a walk from a clip current at
        `f` reaches it. */
    lemma {:induction false} JoinedMeansWalked(f: int, i: nat, k: nat)
      requires i <= |clips|
      ensures JoinedBefore(f, i, k) <==> exists c :: 0 <= c < i && MarkedFrom(f, c, k)
    {
      if i > 0 {
        JoinedMeansWalked(f, i - 1, k);
      }
    }

    /** The backward walk of `position` from the current clip `i`: every
        clip it reaches is marked joined. */
    method MarkBack(i: nat)
      requires Numbered() && i < |clips| && HasAnchor(Kinds(clips))
      modifies clips`joined
      ensures forall k {:trigger clips[k].joined} :: 0 <= k < |clips| ==>
        clips[k].joined == (old(clips[k].joined) || k in BackWalk(Kinds(clips), i))
    {
      NumberedDistinct();
      ghost var kinds := Kinds(clips);
      ghost var walked: seq<nat> := [];
      var b: nat := i;
      while clips[b].kind == JoinPrev
        invariant 0 <= b < |clips|
        invariant BackWalk(kinds, i) == walked + BackWalk(kinds, b)
        invariant forall k {:trigger clips[k].joined} :: 0 <= k < |clips| ==>
          clips[k].joined == (old(clips[k].joined) || k in walked)
        decreases Dist(b, SomeAnchor(kinds), |clips|)
      {
        assert clips[b].idx == Some(b);
        var p := clips[b].idx.value - 1;
        ghost var b0 := b;
        b := if p < 0 then p + |clips| else p;
        assert BackWalk(kinds, b0) == [b] + BackWalk(kinds, b);
        clips[b].joined := true;
        walked := walked + [b];
      }
    }

    /** The forward walk of `position` from the current clip `i`: every
        clip it reaches is marked joined. */
    method MarkForward(i: nat)
      requires Numbered() && i < |clips|
      modifies clips`joined
      ensures forall k {:trigger clips[k].joined} :: 0 <= k < |clips| ==>
        clips[k].joined == (old(clips[k].joined) || k in FwdWalk(Kinds(clips), i + 1))
    {
      NumberedDistinct();
      ghost var kinds := Kinds(clips);
      ghost var fw: seq<nat> := [];
      var a := clips[i].idx.value + 1;
      while a < |clips| && clips[a].kind == JoinPrev
        invariant i < a <= |clips|
        invariant FwdWalk(kinds, i + 1) == fw + FwdWalk(kinds, a)
        invariant forall k {:trigger clips[k].joined} :: 0 <= k < |clips| ==>
          clips[k].joined == (old(clips[k].joined) || k in fw)
        decreases |clips| - a
      {
        assert clips[a].idx == Some(a);
        clips[a].joined := true;
        fw := fw + [a];
        a := clips[a].idx.value + 1;
      }
    }

    /** `lines(ignore_newlines)`: the lines `LineLayout.Lines` describes,
        with each `Orig(k)` the group's clip `k` itself and each `Mark(k)`
        a new paragraph-mark copy of it. With `ignoreNewlines`, each NewLine
        clip's text gets its leading space, in place; no other text
        changes. */
    method Lines(ignoreNewlines: bool) returns (lines: seq<seq<Clip>>)
      requires Numbered()
      modifies clips`text
      ensures var ls := LineLayout.Lines(Kinds(clips), ignoreNewlines);
        && NamesAll(clips, ls, lines)
        && (forall li, j :: 0 <= li < |ls| && 0 <= j < |ls[li]| && ls[li][j].Mark? ==>
              fresh(lines[li][j]) && MarkCopy(lines[li][j], clips[ls[li][j].k]))
      ensures forall k {:trigger clips[k].text} :: 0 <= k < |clips| ==>
        clips[k].text == if ignoreNewlines && clips[k].kind == NewLine then LeadSpace(old(clips[k].text)) else old(clips[k].text)
    {
      ghost var before := TextsOf(clips);
      var line;
      ghost var st;
      lines, line, st := ScanLines(ignoreNewlines, before);
      if |line| > 0 {
        lines := lines + [line];
      }
    }

    /** The loop of `lines`: the finished lines and the open one, with `st`
        their slots. */
    method ScanLines(ignoreNewlines: bool, ghost before: seq<string>)
      returns (lines: seq<seq<Clip>>, line: seq<Clip>, ghost st: LineState)
      requires Numbered() && before == TextsOf(clips)
      modifies clips`text
      ensures st == Scan(Kinds(clips), ignoreNewlines, |clips|)
      ensures NamesAll(clips, st.done, lines) && Names(clips, st.line, line) && NoMarks(st.line)
      ensures forall li, j :: 0 <= li < |lines| && 0 <= j < |lines[li]| && st.done[li][j].Mark? ==>
        fresh(lines[li][j]) && MarkCopy(lines[li][j], clips[st.done[li][j].k])
      ensures TextsLed(|clips|, ignoreNewlines, before)
    {
      ghost var kinds := Kinds(clips);
      st := LineState([], []);
      lines := [];
      line := [];
      var i := 0;
      while i < |clips|
        invariant 0 <= i <= |clips|
        invariant st == Scan(kinds, ignoreNewlines, i)
        invariant Scanned(i, ignoreNewlines, before, st, lines, line)
        invariant forall li, j :: 0 <= li < |lines| && 0 <= j < |lines[li]| && st.done[li][j].Mark? ==> fresh(lines[li][j])
      {
        lines, line := LineStep(clips[i], i, ignoreNewlines, st, before, lines, line);
        st := Step(st, clips[i].kind, i, ignoreNewlines);
        i := i + 1;
      }
    }

    /** The texts as `lines` leaves them once it has visited the clips
        before `i`: a NewLine clip visited with `ignoreNewlines` starts with a
        space; every other text is as it was (`before`). */
    predicate TextsLed(i: nat, ignoreNewlines: bool, before: seq<string>)
      requires i <= |clips| && |before| == |clips|
      reads clips`text
    {
      forall k {:trigger clips[k].text} :: 0 <= k < |clips| ==>
        clips[k].text == if k < i && ignoreNewlines && clips[k].kind == NewLine then LeadSpace(before[k]) else before[k]
    }

    /** The state of the loop of `lines` once it has visited the clips
        before `i`: `lines` and `line` hold what the slots `st` name, each
        mark a copy of its clip, and the texts are as `TextsLed` says. */
    predicate Scanned(i: nat, ignoreNewlines: bool, before: seq<string>, st: LineState, lines: seq<seq<Clip>>, line: seq<Clip>)
      requires i <= |clips| && |before| == |clips|
      reads clips`text, clips`idx, clips`position, clips`joined, clips`styles, clips`styleClips, clips`group, Members(lines)
    {
      && NamesAll(clips, st.done, lines) && Names(clips, st.line, line) && NoMarks(st.line)
      && (forall li, j :: 0 <= li < |lines| && 0 <= j < |lines[li]| && st.done[li][j].Mark? ==>
            lines[li][j] !in clips && MarkCopy(lines[li][j], clips[st.done[li][j].k]))
      && TextsLed(i, ignoreNewlines, before)
    }

    /** One turn of the loop of `lines`, for clip `i`, with `st` the slots
        of the lines so far. */
    method LineStep(clip: Clip, i: nat, ignoreNewlines: bool, ghost st: LineState, ghost before: seq<string>,
                    lines: seq<seq<Clip>>, line: seq<Clip>)
      returns (lines': seq<seq<Clip>>, line': seq<Clip>)
      requires i < |clips| && clip == clips[i] && Numbered()
      requires |before| == |clips| && Scanned(i, ignoreNewlines, before, st, lines, line)
      modifies clip`text
      ensures var st' := Step(st, clip.kind, i, ignoreNewlines);
        && Scanned(i + 1, ignoreNewlines, before, st', lines', line')
        && (forall li, j :: |lines| <= li < |lines'| && 0 <= j < |lines'[li]| && st'.done[li][j].Mark? ==>
              fresh(lines'[li][j]))
      ensures |lines| <= |lines'| && lines'[..|lines|] == lines
    {
      assert forall k :: 0 <= k < |clips| && k != i ==> clips[k] != clip by {
        forall k | 0 <= k < |clips| && clips[k] == clip
          ensures k == i
        {
          assert clips[k].idx == Some(k) && clips[i].idx == Some(i);
        }
      }
      lines', line' := lines, line;
      if clip.kind == NewLine {
        if ignoreNewlines {
          if !StartsWith(clip.text, " ") {
            clip.text := " " + clip.text;
          }
          line' := line + [clip];
        } else {
          lines' := lines + [line];
          line' := [clip];
        }
      } else if clip.kind == GrafBreak {
        var cclip := new Clip.MarkOf(clip);
        lines' := lines + [line] + [[cclip]];
        line' := [clip];
      } else {
        line' := line + [clip];
      }
    }

    /** Slot `s` of a line is current: its clip's position is 0 (a mark
        copy has the position of its original). */
    predicate SlotCurrent(s: Slot)
      reads clips`position
    {
      s.k < |clips| && clips[s.k].position == 0
    }

    /** `currentLine()`: the first line of `lines()` holding a current clip,
        whose graf marks are new copies of their clips (a current GrafBreak
        clip makes its one-mark line the one found). It is found exactly
        when some clip is current, and no text changes. */
    method CurrentLine() returns (r: Option<seq<Clip>>)
      requires Numbered()
      modifies clips`text
      ensures forall k :: 0 <= k < |clips| ==> clips[k].text == old(clips[k].text)
      ensures r.Some? <==> exists k :: 0 <= k < |clips| && clips[k].position == 0
      ensures r.Some? ==> var ls := LineLayout.Lines(Kinds(clips), false);
        exists li :: 0 <= li < |ls| && Names(clips, ls[li], r.value)
          && (forall j :: 0 <= j < |ls[li]| && ls[li][j].Mark? ==>
                fresh(r.value[j]) && MarkCopy(r.value[j], clips[ls[li][j].k]))
          && (exists j :: 0 <= j < |ls[li]| && SlotCurrent(ls[li][j]))
          && (forall l, j :: 0 <= l < li && 0 <= j < |ls[l]| ==> !SlotCurrent(ls[l][j]))
    {
      var lines: seq<seq<Clip>> := this.Lines(false);
      ghost var ls := LineLayout.Lines(Kinds(clips), false);
      var li := 0;
      while li < |lines|
        invariant 0 <= li <= |lines|
        invariant forall l, j :: 0 <= l < li && 0 <= j < |ls[l]| ==> !SlotCurrent(ls[l][j])
      {
        var j := 0;
        while j < |lines[li]|
          invariant 0 <= j <= |lines[li]|
          invariant forall j' :: 0 <= j' < j ==> !SlotCurrent(ls[li][j'])
        {
          if lines[li][j].position == 0 {
            assert SlotCurrent(ls[li][j]);
            return Some(lines[li]);
          }
          j := j + 1;
        }
        li := li + 1;
      }
      forall k | 0 <= k < |clips|
        ensures clips[k].position != 0
      {
        EveryClipOnALine(Kinds(clips), false, k);
      }
      return None;
    }

    /** `text()`: the debug string. */
    method Text() returns (txt: string)
      ensures txt == DebugText(clips)
    {
      txt := "";
      var i := 0;
      while i < |clips|
        invariant 0 <= i <= |clips|
        invariant txt == DebugText(clips[..i])
      {
        var c := clips[i];
        if c.kind == ClearScreen {
        } else if c.kind == Isolated {
          txt := txt + "( )";
        } else if c.kind == JoinPrev {
          txt := txt + "|";
        } else if c.kind == NewLine {
          txt := txt + "/(\\n)/";
        }
        txt := txt + c.text;
        assert clips[..i + 1][..i] == clips[..i];
        i := i + 1;
      }
      assert clips[..|clips|] == clips;
    }

    /** `styles()`: every style token of every clip, as a set. */
    method Styles() returns (all: set<string>)
      ensures forall s :: s in all <==> exists k, j :: 0 <= k < |clips| && 0 <= j < |clips[k].styles| && clips[k].styles[j] == s
    {
      all := {};
      var i := 0;
      while i < |clips|
        invariant 0 <= i <= |clips|
        invariant forall s :: s in all <==> exists k, j :: 0 <= k < i && 0 <= j < |clips[k].styles| && clips[k].styles[j] == s
      {
        all := all + set j | 0 <= j < |clips[i].styles| :: clips[i].styles[j];
        i := i + 1;
      }
    }

    /** `style_matching(style)`: the first clip's first recorded style clip
        whose text contains `style`. */
    method StyleMatching(style: string) returns (r: Option<Clip>)
      ensures r.None? ==> forall k, j :: 0 <= k < |clips| && 0 <= j < |clips[k].styleClips| ==> !Contains(clips[k].styleClips[j].text, style)
      ensures r.Some? ==> exists k, j :: (
        && 0 <= k < |clips| && 0 <= j < |clips[k].styleClips| && clips[k].styleClips[j] == r.value
        && Contains(r.value.text, style)
        && (forall k', j' :: 0 <= k' < k && 0 <= j' < |clips[k'].styleClips| ==> !Contains(clips[k'].styleClips[j'].text, style))
        && (forall j' :: 0 <= j' < j ==> !Contains(clips[k].styleClips[j'].text, style)))
    {
      var i := 0;
      while i < |clips|
        invariant 0 <= i <= |clips|
        invariant forall k, j :: 0 <= k < i && 0 <= j < |clips[k].styleClips| ==> !Contains(clips[k].styleClips[j].text, style)
      {
        var m := clips[i].StyleMatching(style);
        if m.Some? {
          return m;
        }
        i := i + 1;
      }
      return None;
    }
  }

  /** Clip `c` is current at frame `fi`. */
  predicate Covers(c: Clip, fi: int) {
    c.start <= fi < c.end
  }

  /** `ClipTrack.current(fi)` as an index: the first clip current at
      `fi`. */
  function CurrentIndex(clips: seq<Clip>, fi: int): (r: Option<nat>)
    ensures r.Some? ==> r.value < |clips| && Covers(clips[r.value], fi)
    ensures r.Some? ==> forall j :: 0 <= j < r.value ==> !Covers(clips[j], fi)
    ensures r.None? ==> forall j :: 0 <= j < |clips| ==> !Covers(clips[j], fi)
  {
    if |clips| == 0 then None
    else if Covers(clips[0], fi) then Some(0)
    else match CurrentIndex(clips[1..], fi)
      case None => None
      case Some(j) => Some(j + 1)
  }

  function CurrentClip(clips: seq<Clip>, fi: int): (r: Option<Clip>)
    ensures r.Some? ==> r.value in clips && Covers(r.value, fi)
  {
    match CurrentIndex(clips, fi)
    case None => None
    case Some(j) => Some(clips[j])
  }

  /** The clips do not overlap and come in order. */
  predicate Ordered(clips: seq<Clip>) {
    forall a, b :: 0 <= a < b < |clips| ==> clips[a].end <= clips[b].start
  }

  /** In a track whose clips come in order without overlap, the clip
      `current` finds is the one clip that holds the frame. */
  lemma {:induction false} CurrentIsUnique(clips: seq<Clip>, k: nat, fi: int)
    requires Ordered(clips) && k < |clips| && Covers(clips[k], fi)
    ensures CurrentIndex(clips, fi) == Some(k)
    decreases k
  {
    if k > 0 {
      assert clips[0].end <= clips[k].start;
      CurrentIsUnique(clips[1..], k - 1, fi);
    }
  }

  /** The reference frame `position` consults the style tracks at: the
      last frame of a past clip, `f` for a current one, the first frame of
      a future one. */
  function RefFrame(c: Clip, f: int): int {
    var p := Classify(c.start, c.end, f);
    if p == -1 then c.end - 1 else if p == 0 then f else c.start
  }

  /** The style clips the style tracks hold at frame `fi`, track by track;
      a track with no clip current there contributes nothing. */
  function Matched(tracks: seq<ClipTrack>, fi: int): (r: seq<Clip>)
    ensures |r| <= |tracks| && forall j :: 0 <= j < |r| ==> Covers(r[j], fi)
  {
    if |tracks| == 0 then []
    else
      var sc := CurrentClip(tracks[|tracks| - 1].clips, fi);
      Matched(tracks[..|tracks| - 1], fi) + (if sc.Some? then [sc.value] else [])
  }

  /** The style tokens of one style clip: its text read through `ftext()`
      and `strip()`, cut at commas, each piece stripped. */
  function Tokens(sc: Clip): (r: seq<string>)
    reads sc`text
  {
    TokensOf(sc.FText())
  }

  /** A style clip's text, read through `strip()`, cut at commas, each
      piece stripped. */
  function TokensOf(t: string): seq<string> {
    StripEach(Split(Strip(t), ','))
  }

  function StyleTokens(cs: seq<Clip>): seq<string>
    reads cs`text
  {
    if |cs| == 0 then [] else StyleTokens(cs[..|cs| - 1]) + Tokens(cs[|cs| - 1])
  }

  /** Each piece stripped. */
  function StripEach(pieces: seq<string>): (r: seq<string>)
    ensures |r| == |pieces| && forall j :: 0 <= j < |r| ==> r[j] == Strip(pieces[j])
  {
    if |pieces| == 0 then [] else [Strip(pieces[0])] + StripEach(pieces[1..])
  }

  /** A style token has no surrounding white space, and the space `ftext()`
      puts before an Isolated style clip changes no token. */
  lemma TokensAreStripped(sc: Clip)
    ensures forall j :: 0 <= j < |Tokens(sc)| ==> Strip(Tokens(sc)[j]) == Tokens(sc)[j]
    ensures Tokens(sc) == StripEach(Split(Strip(sc.text), ','))
  {
    var pieces := Split(Strip(sc.FText()), ',');
    forall j | 0 <= j < |pieces|
      ensures Strip(Strip(pieces[j])) == Strip(pieces[j])
    {
      StripIdempotent(pieces[j]);
    }
  }

  /** The style loop of `position` for one clip, after `styles` is
      cleared: for each style track, the clip current at the reference
      frame `ref` (chosen by the clip's position), its tokens appended to
      `styles` and the clip itself to `style_clips`. */
  method ResolveStyles(clip: Clip, ref: int, tracks: seq<ClipTrack>)
    modifies clip`styles, clip`styleClips
    ensures clip.styles == StyleTokens(Matched(tracks, ref))
    ensures clip.styleClips == old(clip.styleClips) + Matched(tracks, ref)
  {
    var toks, scs := CollectStyles(ref, tracks);
    clip.styles := toks;
    clip.styleClips := clip.styleClips + scs;
    TextUnchanged(scs);
  }

  /** The `style_clips` lists of `cs`. */
  ghost function StyleClipsOf(cs: seq<Clip>): (r: seq<seq<Clip>>)
    reads cs`styleClips
    ensures |r| == |cs| && forall k {:trigger r[k]} :: 0 <= k < |cs| ==> r[k] == cs[k].styleClips
  {
    if |cs| == 0 then [] else StyleClipsOf(cs[..|cs| - 1]) + [cs[|cs| - 1].styleClips]
  }

  /** The texts of `cs`. */
  ghost function TextsOf(cs: seq<Clip>): (r: seq<string>)
    reads cs`text
    ensures |r| == |cs| && forall k {:trigger r[k]} :: 0 <= k < |cs| ==> r[k] == cs[k].text
  {
    if |cs| == 0 then [] else TextsOf(cs[..|cs| - 1]) + [cs[|cs| - 1].text]
  }

  /** The tokens of clips whose text has not changed have not changed. */
  twostate lemma {:induction false} TextUnchanged(cs: seq<Clip>)
    requires unchanged(cs`text)
    ensures old(StyleTokens(cs)) == StyleTokens(cs)
  {
    if |cs| > 0 {
      TextUnchanged(cs[..|cs| - 1]);
    }
  }

  /** The reads of that loop: the style clips current at `ref`, track by
      track, and their tokens. */
  method CollectStyles(ref: int, tracks: seq<ClipTrack>) returns (toks: seq<string>, scs: seq<Clip>)
    ensures scs == Matched(tracks, ref)
    ensures toks == StyleTokens(scs)
  {
    toks := [];
    scs := [];
    var t := 0;
    while t < |tracks|
      invariant 0 <= t <= |tracks|
      invariant scs == Matched(tracks[..t], ref)
      invariant toks == StyleTokens(scs)
    {
      toks, scs := CollectTrack(tracks, t, ref, toks, scs);
      t := t + 1;
    }
    assert tracks[..|tracks|] == tracks;
  }

  /** One turn of that loop: track `t` adds its current clip, if any, and
      that clip's tokens. */
  method CollectTrack(tracks: seq<ClipTrack>, t: nat, ref: int, toks: seq<string>, scs: seq<Clip>)
    returns (toks': seq<string>, scs': seq<Clip>)
    requires t < |tracks| && scs == Matched(tracks[..t], ref) && toks == StyleTokens(scs)
    ensures scs' == Matched(tracks[..t + 1], ref) && toks' == StyleTokens(scs')
  {
    var sc := tracks[t].Current(ref);
    CollectStep(tracks, t, ref, scs);
    toks', scs' := toks, scs;
    if sc.Some? {
      toks' := toks + Tokens(sc.value);
      scs' := scs + [sc.value];
    }
  }

  lemma CollectStep(tracks: seq<ClipTrack>, t: nat, fi: int, scs: seq<Clip>)
    requires t < |tracks| && scs == Matched(tracks[..t], fi)
    ensures var sc := CurrentClip(tracks[t].clips, fi);
      && Matched(tracks[..t + 1], fi) == scs + (if sc.Some? then [sc.value] else [])
      && StyleTokens(Matched(tracks[..t + 1], fi)) == StyleTokens(scs) + (if sc.Some? then Tokens(sc.value) else [])
  {
    assert tracks[..t + 1][..t] == tracks[..t];
    var sc := CurrentClip(tracks[t].clips, fi);
    if sc.Some? {
      StyleTokensSnoc(scs, sc.value);
    } else {
      assert Matched(tracks[..t + 1], fi) == scs;
      assert StyleTokens(scs) + [] == StyleTokens(scs);
    }
  }

  lemma StyleTokensSnoc(cs: seq<Clip>, c: Clip)
    ensures StyleTokens(cs + [c]) == StyleTokens(cs) + Tokens(c)
  {
    assert (cs + [c])[..|cs|] == cs;
  }

  // ---------------------------------------------------------------------
  // `ClipTrack.groupedClips`

  /** The clips of each group, in group order. */
  function ClipsOf(groups: seq<ClipGroup>): (r: seq<seq<Clip>>)
    ensures |r| == |groups| && forall g :: 0 <= g < |groups| ==> r[g] == groups[g].clips
  {
    if |groups| == 0 then [] else ClipsOf(groups[..|groups| - 1]) + [groups[|groups| - 1].clips]
  }

  /** Groups built from spans hold the pieces the spans cut. */
  lemma GroupsArePieces(clips: seq<Clip>, spans: seq<Span>, groups: seq<ClipGroup>)
    requires GroupsHold(clips, spans, groups)
    ensures ClipsOf(groups) == Pieces(clips, spans)
  {
    var pieces := Pieces(clips, spans);
    assert forall g :: 0 <= g < |groups| ==> ClipsOf(groups)[g] == pieces[g];
  }

  /** The fields `groupedClips` writes on a clip, as they were before. */
  datatype Links = Links(idx: Option<int>, group: Option<ClipGroup>, prev: Option<Clip>, next: Option<Clip>)

  ghost function LinksOf(cs: seq<Clip>): (r: seq<Links>)
    reads cs`idx, cs`group, cs`joinPrev, cs`joinNext
    ensures |r| == |cs| && forall k {:trigger r[k]} :: 0 <= k < |cs| ==>
      r[k] == Links(cs[k].idx, cs[k].group, cs[k].joinPrev, cs[k].joinNext)
  {
    if |cs| == 0 then [] else LinksOf(cs[..|cs| - 1]) + [Links(cs[|cs| - 1].idx, cs[|cs| - 1].group, cs[|cs| - 1].joinPrev, cs[|cs| - 1].joinNext)]
  }

  /** `grp` is the group number `g` built from the track positions `span`:
      it holds those clips, spans the first one's start to the last one's
      end, and is valid. */
  predicate GroupHolds(clips: seq<Clip>, grp: ClipGroup, g: nat, span: Span) {
    && span.lo < span.hi <= |clips|
    && grp.index == g && grp.clips == clips[span.lo..span.hi]
    && grp.start == clips[span.lo].start && grp.end == clips[span.hi - 1].end
    && grp.track == Some(clips[span.lo].track) && grp.valid
  }

  /** One group per closed span, built from it. */
  predicate GroupsHold(clips: seq<Clip>, spans: seq<Span>, groups: seq<ClipGroup>) {
    |groups| == |spans| && forall g :: 0 <= g < |groups| ==> GroupHolds(clips, groups[g], g, spans[g])
  }

  /** The JoinPrev clips before `i` but the first are linked both ways to
      their predecessors; no other link has changed. */
  predicate LinkedUpTo(clips: seq<Clip>, i: nat, before: seq<Links>)
    requires i <= |clips| && |before| == |clips|
    reads clips`joinPrev, clips`joinNext
  {
    && (forall k {:trigger clips[k].joinPrev} :: 0 <= k < |clips| ==>
          clips[k].joinPrev == if 0 < k < i && clips[k].kind == JoinPrev then Some(clips[k - 1]) else before[k].prev)
    && (forall k {:trigger clips[k].joinNext} :: 0 <= k < |clips| ==>
          clips[k].joinNext == if k + 1 < i && clips[k + 1].kind == JoinPrev then Some(clips[k + 1]) else before[k].next)
  }

  /** The clips of the groups built so far lie before `lo`, so a group
      built from clips at or after `lo` holds none of them. */
  lemma GroupsApart(clips: seq<Clip>, pos: map<Clip, nat>, spans: seq<Span>, groups: seq<ClipGroup>, lo: nat, hi: nat)
    requires Positions(clips, pos) && Tiles(spans, lo) && lo <= hi <= |clips| && GroupsHold(clips, spans, groups)
    ensures forall g, j :: 0 <= g < |groups| && 0 <= j < |groups[g].clips| ==> groups[g].clips[j] !in clips[lo..hi]
  {
    forall g, j | 0 <= g < |groups| && 0 <= j < |groups[g].clips|
      ensures groups[g].clips[j] !in clips[lo..hi]
    {
      assert groups[g].clips[j] == clips[spans[g].lo + j];
      SliceApart(clips, pos, lo, hi);
    }
  }

  /** `groupedClips(clips)`: the groups `Partition.Groups` describes, each a
      new `ClipGroup` numbered in order, holding its clips numbered from 0;
      each JoinPrev clip but the first is linked both ways to the clip
      before it, and no other link changes. */
  method GroupedClips(clips: seq<Clip>) returns (groups: seq<ClipGroup>)
    requires Distinct(clips)
    modifies clips`idx, clips`group, clips`joinPrev, clips`joinNext
    ensures GroupsHold(clips, Groups(Kinds(clips)), groups)
    ensures forall g :: 0 <= g < |groups| ==> groups[g].Numbered() && groups[g].Owned()
    ensures forall k {:trigger clips[k].joinPrev} :: 0 <= k < |clips| ==>
      clips[k].joinPrev == if k > 0 && clips[k].kind == JoinPrev then Some(clips[k - 1]) else old(clips[k].joinPrev)
    ensures forall k {:trigger clips[k].joinNext} :: 0 <= k < |clips| ==>
      clips[k].joinNext == if k + 1 < |clips| && clips[k + 1].kind == JoinPrev then Some(clips[k + 1]) else old(clips[k].joinNext)
  {
    ghost var kinds := Kinds(clips);
    ghost var before := LinksOf(clips);
    ghost var pos := PositionsOf(clips);
    var group;
    ghost var st;
    groups, group, st := ScanGroups(clips, pos, before);
    ghost var spans := st.closed;
    if |group| > 0 {
      SliceApart(clips, pos, st.lo, |clips|);
      GroupsApart(clips, pos, st.closed, groups, st.lo, |clips|);
      groups := NewGroup(clips, |clips|, group, st, groups);
      spans := st.closed + [Span(st.lo, |clips|)];
    }
    assert spans == Groups(kinds);
  }

  /** The loop of `groupedClips` over the clips: what is left once it ends
      is the groups it closed and the open group. */
  method ScanGroups(clips: seq<Clip>, ghost pos: map<Clip, nat>, ghost before: seq<Links>)
    returns (groups: seq<ClipGroup>, group: seq<Clip>, ghost st: GroupState)
    requires Positions(clips, pos) && |before| == |clips| && LinkedUpTo(clips, 0, before)
    modifies clips`idx, clips`group, clips`joinPrev, clips`joinNext
    ensures st == GScan(Kinds(clips), |clips|) && st.lo <= |clips| && Tiles(st.closed, st.lo)
    ensures group == clips[st.lo..|clips|]
    ensures GroupsHold(clips, st.closed, groups)
    ensures forall g :: 0 <= g < |groups| ==> groups[g].Numbered() && groups[g].Owned()
    ensures LinkedUpTo(clips, |clips|, before)
  {
    ghost var kinds := Kinds(clips);
    st := GroupState([], 0);
    groups := [];
    group := [];
    var lastClip: Option<Clip> := None;
    var i := 0;
    while i < |clips|
      invariant 0 <= i <= |clips| && st == GScan(kinds, i) && st.lo <= i && Tiles(st.closed, st.lo)
      invariant group == clips[st.lo..i] && lastClip == (if i == 0 then None else Some(clips[i - 1]))
      invariant GroupsHold(clips, st.closed, groups)
      invariant forall g :: 0 <= g < |groups| ==> groups[g].Numbered() && groups[g].Owned()
      invariant LinkedUpTo(clips, i, before)
    {
      GScanTiles(kinds, i + 1);
      groups, group, lastClip, st := GroupStep(clips, pos, i, st, before, groups, group, lastClip);
      i := i + 1;
    }
  }

  /** One turn of the loop of `groupedClips`, for clip `i`. */
  method GroupStep(clips: seq<Clip>, ghost pos: map<Clip, nat>, i: nat, ghost st: GroupState, ghost before: seq<Links>,
                   groups: seq<ClipGroup>, group: seq<Clip>, lastClip: Option<Clip>)
    returns (groups': seq<ClipGroup>, group': seq<Clip>, lastClip': Option<Clip>, ghost st': GroupState)
    requires Positions(clips, pos) && i < |clips| && |before| == |clips|
    requires st.lo <= i && Tiles(st.closed, st.lo)
    requires group == clips[st.lo..i] && lastClip == (if i == 0 then None else Some(clips[i - 1]))
    requires GroupsHold(clips, st.closed, groups)
    requires forall g :: 0 <= g < |groups| ==> groups[g].Numbered() && groups[g].Owned()
    requires LinkedUpTo(clips, i, before)
    modifies clips`idx, clips`group, clips`joinPrev, clips`joinNext
    ensures st' == GStep(st, clips[i].kind, i) && st'.lo <= i + 1
    ensures group' == clips[st'.lo..i + 1] && lastClip' == Some(clips[i])
    ensures GroupsHold(clips, st'.closed, groups')
    ensures forall g :: 0 <= g < |groups'| ==> groups'[g].Numbered() && groups'[g].Owned()
    ensures LinkedUpTo(clips, i + 1, before)
    ensures |groups| <= |groups'|
    ensures forall g :: 0 <= g < |groups'| ==> if g < |groups| then groups'[g] == groups[g] else fresh(groups'[g])
  {
    var clip := clips[i];
    st' := GStep(st, clip.kind, i);
    groups', group' := groups, group;
    if clip.kind == ClearScreen {
      groups' := CloseAtClear(clips, pos, i, st, groups, group);
      group' := [];
    } else if clip.kind == JoinPrev && lastClip.Some? {
      LinkJoin(clips, pos, i, lastClip.value, clip, before);
    }
    if clip.kind != JoinPrev || i == 0 {
      UnlinkedStep(clips, i, before);
    }
    group' := group' + [clip];
    lastClip' := Some(clip);
  }

  /** A clip that does not join its predecessor adds no link. */
  lemma UnlinkedStep(clips: seq<Clip>, i: nat, before: seq<Links>)
    requires i < |clips| && |before| == |clips| && LinkedUpTo(clips, i, before)
    requires clips[i].kind != JoinPrev || i == 0
    ensures LinkedUpTo(clips, i + 1, before)
  {
  }

  /** The ClearScreen clip `i` closes the open group if it holds any clip. */
  method CloseAtClear(clips: seq<Clip>, ghost pos: map<Clip, nat>, i: nat, ghost st: GroupState, groups: seq<ClipGroup>, group: seq<Clip>)
    returns (groups': seq<ClipGroup>)
    requires Positions(clips, pos) && i < |clips| && clips[i].kind == ClearScreen
    requires st.lo <= i && Tiles(st.closed, st.lo) && group == clips[st.lo..i]
    requires GroupsHold(clips, st.closed, groups)
    requires forall g :: 0 <= g < |groups| ==> groups[g].Numbered() && groups[g].Owned()
    modifies clips`idx, clips`group
    ensures GroupsHold(clips, GStep(st, clips[i].kind, i).closed, groups')
    ensures forall g :: 0 <= g < |groups'| ==> groups'[g].Numbered() && groups'[g].Owned()
    ensures |groups| <= |groups'|
    ensures forall g :: 0 <= g < |groups'| ==> if g < |groups| then groups'[g] == groups[g] else fresh(groups'[g])
  {
    groups' := groups;
    if |group| > 0 {
      SliceApart(clips, pos, st.lo, i);
      GroupsApart(clips, pos, st.closed, groups, st.lo, i);
      groups' := NewGroup(clips, i, group, st, groups);
    }
  }

  /** A group built from the span `[lo, hi)` next to the groups of the
      spans before it. */
  lemma GroupsHoldSnoc(clips: seq<Clip>, spans: seq<Span>, groups: seq<ClipGroup>, grp: ClipGroup, lo: nat, hi: nat)
    requires GroupsHold(clips, spans, groups) && GroupHolds(clips, grp, |groups|, Span(lo, hi))
    ensures GroupsHold(clips, spans + [Span(lo, hi)], groups + [grp])
  {
    var spans', groups' := spans + [Span(lo, hi)], groups + [grp];
    assert forall g :: 0 <= g < |groups| ==> groups'[g] == groups[g] && spans'[g] == spans[g];
  }

  /** Closing the open group at `hi`: a new `ClipGroup` for the clips from
      the open group's start up to `hi`. */
  method NewGroup(clips: seq<Clip>, hi: nat, group: seq<Clip>, ghost st: GroupState, groups: seq<ClipGroup>)
    returns (groups': seq<ClipGroup>)
    requires st.lo < hi <= |clips| && group == clips[st.lo..hi] && Distinct(group)
    requires GroupsHold(clips, st.closed, groups)
    requires forall g :: 0 <= g < |groups| ==> groups[g].Numbered() && groups[g].Owned()
    requires forall g, j :: 0 <= g < |groups| && 0 <= j < |groups[g].clips| ==> groups[g].clips[j] !in group
    modifies clips`idx, clips`group
    ensures GroupsHold(clips, st.closed + [Span(st.lo, hi)], groups')
    ensures forall g :: 0 <= g < |groups'| ==> groups'[g].Numbered() && groups'[g].Owned()
    ensures |groups'| == |groups| + 1
    ensures forall g :: 0 <= g < |groups'| ==> if g < |groups| then groups'[g] == groups[g] else fresh(groups'[g])
  {
    var g := new ClipGroup(|groups|, group);
    GroupsHoldSnoc(clips, st.closed, groups, g, st.lo, hi);
    groups' := groups + [g];
  }

  /** The links of a JoinPrev clip `i` after the first: the clip before
      it points forward to it and it points back to that clip. */
  method LinkJoin(clips: seq<Clip>, ghost pos: map<Clip, nat>, i: nat, prev: Clip, clip: Clip, ghost before: seq<Links>)
    requires Positions(clips, pos) && 0 < i < |clips| && prev == clips[i - 1] && clip == clips[i] && clip.kind == JoinPrev
    requires |before| == |clips| && LinkedUpTo(clips, i, before)
    modifies clips`joinPrev, clips`joinNext
    ensures LinkedUpTo(clips, i + 1, before)
  {
    prev.AddJoin(clip, 1);
    clip.AddJoin(prev, -1);
  }

  class ClipTrack {
    const clips: seq<Clip>
    const clipGroups: seq<ClipGroup>

    /** `ClipTrack(sequence, clips, markers)`: keeps the clips and groups
        them at once. */
    constructor (clips: seq<Clip>)
      requires Distinct(clips)
      modifies clips`idx, clips`group, clips`joinPrev, clips`joinNext
      ensures this.clips == clips && Grouped()
      ensures forall g :: 0 <= g < |clipGroups| ==> clipGroups[g].Numbered() && clipGroups[g].Owned()
      ensures forall k {:trigger clips[k].joinPrev} :: 0 <= k < |clips| ==>
        clips[k].joinPrev == if k > 0 && clips[k].kind == JoinPrev then Some(clips[k - 1]) else old(clips[k].joinPrev)
      ensures forall k {:trigger clips[k].joinNext} :: 0 <= k < |clips| ==>
        clips[k].joinNext == if k + 1 < |clips| && clips[k + 1].kind == JoinPrev then Some(clips[k + 1]) else old(clips[k].joinNext)
    {
      this.clips := clips;
      var groups := GroupedClips(clips);
      clipGroups := groups;
    }

    /** The groups are the ones `groupedClips` builds from the clips. */
    predicate Grouped() {
      GroupsHold(clips, Groups(Kinds(clips)), clipGroups)
    }

    /** Concatenating the groups' clips gives back the track's clips, in
        order and each once. */
    lemma Partitioned()
      requires Grouped()
      ensures Concat(ClipsOf(clipGroups)) == clips
    {
      var spans := Groups(Kinds(clips));
      GroupsShape(Kinds(clips));
      GroupsArePieces(clips, spans, clipGroups);
      ConcatPieces(clips, spans);
    }

    /** Every group after the first starts with a ClearScreen clip, and no
        group holds one after its first clip (the first group may start with
        one, when the track does). */
    lemma ClearScreenHeads(g: nat, j: nat)
      requires Grouped() && g < |clipGroups| && j < |clipGroups[g].clips|
      ensures g > 0 && j == 0 ==> clipGroups[g].clips[j].kind == ClearScreen
      ensures j > 0 ==> clipGroups[g].clips[j].kind != ClearScreen
    {
      var kinds := Kinds(clips);
      var spans := Groups(kinds);
      GroupsShape(kinds);
      assert clipGroups[g].clips[j] == clips[spans[g].lo + j];
    }

    /** A JoinPrev clip other than the track's first is never the first
        clip of its group: the clip it is linked back to, its predecessor
        in the track, is the one before it in the same group. */
    lemma JoinStaysInGroup(g: nat, j: nat)
      requires Grouped() && g < |clipGroups| && j < |clipGroups[g].clips|
      requires clipGroups[g].clips[j].kind == JoinPrev && (g > 0 || j > 0)
      ensures j > 0
      ensures var k := Groups(Kinds(clips))[g].lo + j;
        clips[k] == clipGroups[g].clips[j] && clips[k - 1] == clipGroups[g].clips[j - 1]
    {
      var kinds := Kinds(clips);
      var spans := Groups(kinds);
      GroupsShape(kinds);
      var k := spans[g].lo + j;
      assert clipGroups[g].clips[j] == clips[k];
      JoinPrevKeepsGroup(kinds, g, k);
    }

    /** `current(fi)`: the first clip current at `fi`. */
    method Current(fi: int) returns (r: Option<Clip>)
      ensures r == CurrentClip(clips, fi)
    {
      var i := 0;
      while i < |clips|
        invariant 0 <= i <= |clips|
        invariant forall j :: 0 <= j < i ==> !Covers(clips[j], fi)
      {
        if clips[i].start <= fi && fi < clips[i].end {
          return Some(clips[i]);
        }
        i := i + 1;
      }
      return None;
    }

    /** `duration()`: the latest end of a clip, and 0 for an empty track or
        one whose ends are all negative. */
    method Duration() returns (d: int)
      ensures d >= 0 && forall k :: 0 <= k < |clips| ==> clips[k].end <= d
      ensures d == 0 || exists k :: 0 <= k < |clips| && clips[k].end == d
    {
      d := 0;
      var i := 0;
      while i < |clips|
        invariant 0 <= i <= |clips|
        invariant d >= 0 && forall k :: 0 <= k < i ==> clips[k].end <= d
        invariant d == 0 || exists k :: 0 <= k < i && clips[k].end == d
      {
        if clips[i].end > d {
          d := clips[i].end;
        }
        i := i + 1;
      }
    }
  }

  /** Whichever clip of a joined run one starts from, `joinStart()` and
      `joinEnd()` report the same outer boundaries. */
  lemma JoinRunClosure(chain: seq<Clip>, i: nat, k: nat)
    requires i < |chain| && LinkedPrev(chain) && LinkedNext(chain)
    requires RunStart(Kinds(chain), i) <= k <= RunEnd(Kinds(chain), i)
    ensures chain[k].JoinStart(chain, k) == chain[i].JoinStart(chain, i)
    ensures chain[k].JoinEnd(chain, k) == chain[i].JoinEnd(chain, i)
  {
    RunsAreClosed(Kinds(chain), i, k);
  }
}
