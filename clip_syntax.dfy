/** The annotation language of one clip of a transcript, and its parser as
    the pipeline of stages `Clip.__init__` runs in coldtype/time/sequence.py:
    at most one structural prefix (`*`, `≈`, `¶`, `+`, `µ:`), then the
    `:`-separated fields (`ß` before a comma list of inline styles, `∂`
    before `&`-joined `key=value` pairs of inline data), then the blank
    markers (`§`, `∫`, empty text), then the fade sigil `ƒ`. */
module ClipSyntax {
  import opened Results
  import opened Text

  /** The structural type of a clip (`ClipType`; `Blank` is declared by the
      source but never assigned by it). */
  datatype ClipType = ClearScreen | NewLine | GrafBreak | Blank | Isolated | JoinPrev | Meta

  datatype ClipFlag = FadeIn | FadeOut

  /** The exceptions `Clip.__init__` raises on malformed annotations: a
      style or data marker that is the last field (`IndexError`), and a data
      item that is not exactly one `key=value` pair (`ValueError`). */
  datatype ParseError = StyleListMissing | DataListMissing | MalformedDataPair(item: string)

  const ClearScreenSigil: string := "*"
  const NewLineSigil: string := "\U{2248}"
  const GrafBreakSigil: string := "\U{B6}"
  const JoinPrevSigil: string := "+"
  const MetaSigil: string := "\U{B5}:"
  const StyleMarker: string := "\U{DF}"
  const DataMarker: string := "\U{2202}"
  const BlankLineSigil: string := "\U{A7}"
  const BlankSigil: string := "\U{222B}"
  const FadeSigil: char := '\U{192}'
  /** The fade length used when `ƒ` carries no digits, and for every fade-out. */
  const DefaultFade: nat := 3

  /** The prefix that selects each structural type; Isolated has none. */
  function Sigil(kind: ClipType): string {
    match kind
    case ClearScreen => ClearScreenSigil
    case NewLine => NewLineSigil
    case GrafBreak => GrafBreakSigil
    case JoinPrev => JoinPrevSigil
    case Meta => MetaSigil
    case _ => ""
  }

  predicate IsStructural(kind: ClipType) {
    kind in {ClearScreen, NewLine, GrafBreak, JoinPrev, Meta}
  }

  /** Stage 1: strip the first structural prefix that matches, trying them in
      the source's order, and choose the type. */
  function StripStructural(raw: string): (ClipType, string) {
    if StartsWith(raw, ClearScreenSigil) then (ClearScreen, raw[1..])
    else if StartsWith(raw, NewLineSigil) then (NewLine, raw[1..])
    else if StartsWith(raw, GrafBreakSigil) then (GrafBreak, raw[1..])
    else if StartsWith(raw, JoinPrevSigil) then (JoinPrev, raw[1..])
    else if StartsWith(raw, MetaSigil) then (Meta, raw[2..])
    else (Isolated, raw)
  }

  /** Stage 1 removes exactly the sigil of the type it chooses and nothing
      else, so the raw text is that sigil followed by the rest (a second
      sigil stays in the text); a structural type is chosen exactly when the
      raw text starts with its sigil, and Isolated when it starts with none. */
  lemma StripStructuralInverse(raw: string)
    ensures raw == Sigil(StripStructural(raw).0) + StripStructural(raw).1
    ensures StripStructural(raw).0 == Isolated || IsStructural(StripStructural(raw).0)
    ensures forall k :: IsStructural(k) ==> (StripStructural(raw).0 == k <==> StartsWith(raw, Sigil(k)))
  {
    var (kind, rest) := StripStructural(raw);
    // the five sigils begin with five different characters
    forall k | IsStructural(k) && StartsWith(raw, Sigil(k))
      ensures |raw| > 0 && raw[0] == Sigil(k)[0]
    {
      assert raw[..|Sigil(k)|][0] == raw[0];
    }
    if kind == Meta {
      assert raw == raw[..2] + raw[2..];
    } else if kind != Isolated {
      assert raw == raw[..1] + raw[1..];
    }
  }

  /** Stage 2's result: the working text (the first `:` field), the inline
      style list and the inline data. */
  datatype Fields = Fields(text: string, inlineStyles: seq<string>, inlineData: map<string, string>)

  /** Each `&`-separated item split on `=`; every item must be one pair. */
  function DataPairs(items: seq<string>): (r: Result<seq<(string, string)>, ParseError>)
    ensures r.Success? ==> |r.value| == |items|
    ensures r.Success? ==> forall i :: 0 <= i < |items| ==>
      Split(items[i], '=') == [r.value[i].0, r.value[i].1]
    ensures r.Failure? ==> exists i :: 0 <= i < |items| && |Split(items[i], '=')| != 2
  {
    if |items| == 0 then Success([])
    else
      var kv := Split(items[0], '=');
      if |kv| != 2 then Failure(MalformedDataPair(items[0]))
      else match DataPairs(items[1..])
        case Failure(e) => Failure(e)
        case Success(rest) => Success([(kv[0], kv[1])] + rest)
  }

  /** The dictionary the source fills pair by pair: a later key wins. */
  function DataMap(pairs: seq<(string, string)>): (m: map<string, string>)
    ensures forall i :: 0 <= i < |pairs| ==> pairs[i].0 in m
    ensures forall k :: k in m ==> exists i :: 0 <= i < |pairs| && pairs[i] == (k, m[k])
  {
    if |pairs| == 0 then map[]
    else
      var last := pairs[|pairs| - 1];
      DataMap(pairs[..|pairs| - 1])[last.0 := last.1]
  }

  /** One more pair overrides the key it names. */
  lemma DataMapStep(pairs: seq<(string, string)>, i: nat)
    requires i < |pairs|
    ensures DataMap(pairs[..i + 1]) == DataMap(pairs[..i])[pairs[i].0 := pairs[i].1]
  {
    assert pairs[..i + 1][..i] == pairs[..i];
  }

  /** Stage 2: split on `:`; the field after the first `ß` is the style list
      (split on `,`), the field after the first `∂` the data (split on `&`,
      then on `=`); the working text is the first field. */
  function InlineFields(t: string): Result<Fields, ParseError> {
    var parts := Split(t, ':');
    var styleAt := IndexOf(parts, StyleMarker);
    var dataAt := IndexOf(parts, DataMarker);
    if styleAt.Some? && styleAt.value + 1 == |parts| then Failure(StyleListMissing)
    else if dataAt.Some? && dataAt.value + 1 == |parts| then Failure(DataListMissing)
    else
      var styles := if styleAt.Some? then Split(parts[styleAt.value + 1], ',') else [];
      if dataAt.None? then Success(Fields(parts[0], styles, map[]))
      else match DataPairs(Split(parts[dataAt.value + 1], '&'))
        case Failure(e) => Failure(e)
        case Success(pairs) => Success(Fields(parts[0], styles, DataMap(pairs)))
  }

  /** Stage 3's result. */
  datatype Shape = Shape(kind: ClipType, text: string, blank: bool)

  /** Stage 3: a leading `§` makes a blank NewLine and is stripped; then a
      leading `∫` empties the text; an empty text is blank. */
  function BlankRule(kind: ClipType, t: string): Shape {
    var s1 := if StartsWith(t, BlankLineSigil) then Shape(NewLine, t[1..], true) else Shape(kind, t, false);
    var s2 := if StartsWith(s1.text, BlankSigil) then s1.(text := "", blank := true) else s1;
    if s2.text == "" then s2.(blank := true) else s2
  }

  /** Stage 4: a leading `ƒ` is stripped and sets FadeIn, to the digits
      between it and a second `ƒ` when there are some (stripping them too),
      else to 3; otherwise a trailing `ƒ` sets FadeOut to 3 and stays. */
  function FadeRule(t: string): (string, map<ClipFlag, nat>) {
    if StartsWith(t, [FadeSigil]) then
      var rest := t[1..];
      var d := LeadingDigits(rest);
      if |d| > 0 && |d| < |rest| && rest[|d|] == FadeSigil then
        (rest[|d| + 1..], map[FadeIn := DigitsValue(d)])
      else (rest, map[FadeIn := DefaultFade])
    else if EndsWith(t, [FadeSigil]) then (t, map[FadeOut := DefaultFade])
    else (t, map[])
  }

  /** What parsing one annotated clip text yields; `text` is also the
      clip's `original_text`. */
  datatype Parsed = Parsed(
    kind: ClipType,
    text: string,
    blank: bool,
    inlineStyles: seq<string>,
    inlineData: map<string, string>,
    flags: map<ClipFlag, nat>)

  function Parse(raw: string): Result<Parsed, ParseError> {
    var (kind, t) := StripStructural(raw);
    match InlineFields(t)
    case Failure(e) => Failure(e)
    case Success(fields) =>
      var shape := BlankRule(kind, fields.text);
      var (text, flags) := FadeRule(shape.text);
      Success(Parsed(shape.kind, text, shape.blank, fields.inlineStyles, fields.inlineData, flags))
  }

  // ---------------------------------------------------------------------
  // Properties of the parser

  /** A word that parses as itself: not empty, free of `:`, not one of the
      two field markers, not starting with a sigil character (`*`, `≈`,
      `¶`, `+`, `µ`, `§`, `∫`, `ƒ`) and not ending with `ƒ`. */
  predicate PlainWord(w: string) {
    && |w| > 0
    && ':' !in w
    && w != StyleMarker && w != DataMarker
    && w[0] !in {'*', '\U{2248}', '\U{B6}', '+', '\U{B5}', '\U{A7}', '\U{222B}', FadeSigil}
    && w[|w| - 1] != FadeSigil
  }

  /** A style token or a data key or value that survives the field syntax. */
  predicate PlainField(f: string) {
    ':' !in f && ',' !in f && '&' !in f && '=' !in f
  }

  function ItemText(pair: (string, string)): string {
    pair.0 + ['='] + pair.1
  }

  function ItemTexts(pairs: seq<(string, string)>): (r: seq<string>)
    ensures |r| == |pairs|
    ensures forall i :: 0 <= i < |pairs| ==> r[i] == ItemText(pairs[i])
  {
    if |pairs| == 0 then [] else [ItemText(pairs[0])] + ItemTexts(pairs[1..])
  }

  /** The annotated text an author writes for a word with inline styles and
      inline data: `word:ß:s1,s2:∂:k1=v1&k2=v2`. */
  function Annotate(word: string, styles: seq<string>, pairs: seq<(string, string)>): string
    requires |styles| >= 1 && |pairs| >= 1
  {
    Join([word, StyleMarker, Join(styles, ','), DataMarker, Join(ItemTexts(pairs), '&')], ':')
  }

  /** Round trip of the field syntax: the fields written by `Annotate` are
      read back as the working text, the style list and the data. */
  lemma {:induction false} InlineFieldsOfAnnotate(word: string, styles: seq<string>, pairs: seq<(string, string)>)
    requires PlainWord(word)
    requires |styles| >= 1 && forall i :: 0 <= i < |styles| ==> PlainField(styles[i]) && styles[i] != DataMarker
    requires |pairs| >= 1 && forall i :: 0 <= i < |pairs| ==> PlainField(pairs[i].0) && PlainField(pairs[i].1)
    ensures InlineFields(Annotate(word, styles, pairs)) == Success(Fields(word, styles, DataMap(pairs)))
  {
    var styleText := Join(styles, ',');
    var items := ItemTexts(pairs);
    var dataText := Join(items, '&');
    var fields := [word, StyleMarker, styleText, DataMarker, dataText];
    AnnotateSplits(word, styles, pairs);
    StyleTextNotMarker(styles);
    DataTextNotMarker(pairs);
    MarkersFound(word, styleText, dataText);
    SplitJoin(styles, ',');
    SplitJoin(items, '&');
    DataPairsOfItems(pairs);
  }

  /** In the five fields of an annotated text, the first `ß` is field 1
      and the first `∂` is field 3. */
  lemma MarkersFound(word: string, styleText: string, dataText: string)
    requires word != StyleMarker && word != DataMarker && styleText != DataMarker
    ensures var fields := [word, StyleMarker, styleText, DataMarker, dataText];
      IndexOf(fields, StyleMarker) == Some(1) && IndexOf(fields, DataMarker) == Some(3)
  {
    var fields := [word, StyleMarker, styleText, DataMarker, dataText];
    assert StyleMarker != DataMarker;
    assert fields[1] == StyleMarker && fields[3] == DataMarker;
    var s, d := IndexOf(fields, StyleMarker), IndexOf(fields, DataMarker);
    assert s.Some? && d.Some?;
    assert fields[..1] == [word];
    assert fields[..3] == [word, StyleMarker, styleText];
  }

  /** The `:`-split of an annotated text gives back the five fields. */
  lemma AnnotateSplits(word: string, styles: seq<string>, pairs: seq<(string, string)>)
    requires PlainWord(word)
    requires |styles| >= 1 && forall i :: 0 <= i < |styles| ==> PlainField(styles[i])
    requires |pairs| >= 1 && forall i :: 0 <= i < |pairs| ==> PlainField(pairs[i].0) && PlainField(pairs[i].1)
    ensures Split(Annotate(word, styles, pairs), ':')
      == [word, StyleMarker, Join(styles, ','), DataMarker, Join(ItemTexts(pairs), '&')]
  {
    var items := ItemTexts(pairs);
    JoinFree(styles, ',', ':');
    forall i | 0 <= i < |items| ensures ':' !in items[i] && '&' !in items[i] {
      assert items[i] == pairs[i].0 + ['='] + pairs[i].1;
    }
    JoinFree(items, '&', ':');
    SplitJoin([word, StyleMarker, Join(styles, ','), DataMarker, Join(items, '&')], ':');
  }

  /** The written style list is not the data marker. */
  lemma StyleTextNotMarker(styles: seq<string>)
    requires |styles| >= 1 && forall i :: 0 <= i < |styles| ==> styles[i] != DataMarker
    ensures Join(styles, ',') != DataMarker
  {
    var styleText := Join(styles, ',');
    if |styles| > 1 {
      assert styleText == styles[0] + [','] + Join(styles[1..], ',');
      assert styleText[|styles[0]|] == ',';
    }
  }

  /** The written data list holds `=`, so it is not the data marker. */
  lemma DataTextNotMarker(pairs: seq<(string, string)>)
    requires |pairs| >= 1
    ensures Join(ItemTexts(pairs), '&') != DataMarker
  {
    var items := ItemTexts(pairs);
    var dataText := Join(items, '&');
    if |items| > 1 {
      assert dataText == items[0] + ['&'] + Join(items[1..], '&');
    }
    assert items[0] == pairs[0].0 + ['='] + pairs[0].1;
    assert dataText[|pairs[0].0|] == '=';
  }

  /** A join of pieces free of a character is free of it when the separator
      is a different character. */
  lemma {:induction false} JoinFree(parts: seq<string>, sep: char, c: char)
    requires |parts| >= 1 && sep != c
    requires forall i :: 0 <= i < |parts| ==> c !in parts[i]
    ensures c !in Join(parts, sep)
    decreases |parts|
  {
    if |parts| > 1 {
      JoinFree(parts[1..], sep, c);
    }
  }

  lemma {:induction false} DataPairsOfItems(pairs: seq<(string, string)>)
    requires forall i :: 0 <= i < |pairs| ==> PlainField(pairs[i].0) && PlainField(pairs[i].1)
    ensures DataPairs(ItemTexts(pairs)) == Success(pairs)
    decreases |pairs|
  {
    if |pairs| > 0 {
      SplitJoin([pairs[0].0, pairs[0].1], '=');
      assert Join([pairs[0].0, pairs[0].1], '=') == ItemText(pairs[0]);
      DataPairsOfItems(pairs[1..]);
      assert ItemTexts(pairs)[1..] == ItemTexts(pairs[1..]);
      assert [pairs[0]] + pairs[1..] == pairs;
    }
  }

  /** Round trip of the whole parser: a structural sigil (or none) followed
      by an annotated plain word parses back to that type, that word, those
      styles and that data, not blank and without fade flags. */
  lemma ParseOfAnnotate(kind: ClipType, word: string, styles: seq<string>, pairs: seq<(string, string)>)
    requires kind == Isolated || IsStructural(kind)
    requires PlainWord(word)
    requires |styles| >= 1 && forall i :: 0 <= i < |styles| ==> PlainField(styles[i]) && styles[i] != DataMarker
    requires |pairs| >= 1 && forall i :: 0 <= i < |pairs| ==> PlainField(pairs[i].0) && PlainField(pairs[i].1)
    ensures Parse(Sigil(kind) + Annotate(word, styles, pairs))
         == Success(Parsed(kind, word, false, styles, DataMap(pairs), map[]))
  {
    var body := Annotate(word, styles, pairs);
    InlineFieldsOfAnnotate(word, styles, pairs);
    AnnotateStartsWithWord(word, styles, pairs);
    StripSigil(kind, body);
    PlainWordStages(kind, word);
  }

  lemma PlainWordStages(kind: ClipType, word: string)
    requires PlainWord(word)
    ensures BlankRule(kind, word) == Shape(kind, word, false)
    ensures FadeRule(word) == (word, map[])
  {
    assert !StartsWith(word, BlankLineSigil) && !StartsWith(word, BlankSigil);
    assert !StartsWith(word, [FadeSigil]) && !EndsWith(word, [FadeSigil]);
  }

  /** Parsing fails only in the field stage: a raw text without `:` fails
      exactly when what is left after the prefix is a bare `ß` or `∂`
      (whose list would be read past the end). */
  lemma {:induction false} ParseFailsOnlyOnFields(raw: string)
    ensures ':' !in raw ==>
      (Parse(raw).Failure? <==> StripStructural(raw).1 == StyleMarker || StripStructural(raw).1 == DataMarker)
  {
    if ':' !in raw {
      var t := StripStructural(raw).1;
      StripStructuralInverse(raw);
      assert ':' !in t by {
        assert forall i :: 0 <= i < |t| ==> t[i] == raw[|raw| - |t| + i];
      }
      SplitOfSeparatorFree(t, ':');
    }
  }

  /** What a parsed clip looks like: only `§` changes the prefix's type, and
      then the clip is blank; FadeIn and FadeOut are never both set; a text
      left empty by a clip that is not blank was emptied by a leading `ƒ`. */
  lemma ParsedShape(raw: string)
    requires Parse(raw).Success?
    ensures var p := Parse(raw).value;
      && (p.kind == StripStructural(raw).0 || (p.kind == NewLine && p.blank))
      && !(FadeIn in p.flags && FadeOut in p.flags)
      && (p.text == "" && !p.blank ==> FadeIn in p.flags)
  {
    var (kind, t) := StripStructural(raw);
    var fields := InlineFields(t).value;
    BlankRuleShape(kind, fields.text);
    FadeRuleShape(BlankRule(kind, fields.text).text);
  }

  /** Stage 3 keeps the prefix's type unless `§` makes the clip a blank
      NewLine, and a clip it leaves without text is blank. */
  lemma BlankRuleShape(kind: ClipType, t: string)
    ensures var r := BlankRule(kind, t);
      && (r.kind == kind || (r.kind == NewLine && r.blank))
      && (r.text == "" ==> r.blank)
  {
  }

  /** Stage 4 sets at most one of FadeIn and FadeOut, and empties a text
      only when it sets FadeIn. */
  lemma FadeRuleShape(t: string)
    ensures var (text, flags) := FadeRule(t);
      && !(FadeIn in flags && FadeOut in flags)
      && (text == "" && t != "" ==> FadeIn in flags)
  {
  }

  lemma AnnotateStartsWithWord(word: string, styles: seq<string>, pairs: seq<(string, string)>)
    requires |word| > 0 && ':' !in word
    requires |styles| >= 1 && |pairs| >= 1
    ensures |Annotate(word, styles, pairs)| > 0 && Annotate(word, styles, pairs)[0] == word[0]
  {
    var rest := [StyleMarker, Join(styles, ','), DataMarker, Join(ItemTexts(pairs), '&')];
    assert [word, StyleMarker, Join(styles, ','), DataMarker, Join(ItemTexts(pairs), '&')][1..] == rest;
    assert Annotate(word, styles, pairs) == word + [':'] + Join(rest, ':');
  }

  /** Stage 1 strips the sigil put in front of a text that starts with no
      sigil character. */
  lemma StripSigil(kind: ClipType, body: string)
    requires kind == Isolated || IsStructural(kind)
    requires |body| > 0 && body[0] !in {'*', '\U{2248}', '\U{B6}', '+', '\U{B5}'}
    ensures StripStructural(Sigil(kind) + body) == (kind, body)
  {
    var raw := Sigil(kind) + body;
    StripStructuralInverse(raw);
    if kind == Isolated {
      assert raw == body;
    } else {
      assert raw[..|Sigil(kind)|] == Sigil(kind);
    }
  }

  /** The blank rules: a leading `§` forces a blank NewLine; a leading `∫`
      (after any `§`) or an empty remainder gives a blank clip with empty
      text; a clip is blank in no other case. `first` is the working text
      after the structural prefix and the fields are removed. */
  lemma BlankRules(kind: ClipType, first: string)
    ensures BlankRule(kind, first).kind == if StartsWith(first, BlankLineSigil) then NewLine else kind
    ensures BlankRule(kind, first).blank
        <==> StartsWith(first, BlankLineSigil) || StartsWith(first, BlankSigil) || first == ""
    ensures var rest := if StartsWith(first, BlankLineSigil) then first[1..] else first;
            BlankRule(kind, first).text == if StartsWith(rest, BlankSigil) then "" else rest
  {
  }

  /** The leading digit run of digits followed by a non-digit is exactly
      those digits. */
  lemma {:induction false} LeadingDigitsOf(d: string, rest: string)
    requires AllDigits(d)
    requires |rest| > 0 && !IsDigit(rest[0])
    ensures LeadingDigits(d + rest) == d
    decreases |d|
  {
    if |d| > 0 {
      assert (d + rest)[1..] == d[1..] + rest;
      LeadingDigitsOf(d[1..], rest);
      assert [d[0]] + d[1..] == d;
    }
  }

  /** The fade rules: `ƒ` followed by digits and a second `ƒ` fades in over
      that many frames and loses the whole prefix; `ƒ` alone fades in over 3
      frames and loses only itself; otherwise a trailing `ƒ` fades out over
      3 frames and stays in the text; nothing else sets a flag. */
  lemma FadeRules(t: string)
    ensures FadeIn in FadeRule(t).1 <==> StartsWith(t, [FadeSigil])
    ensures FadeOut in FadeRule(t).1 <==> !StartsWith(t, [FadeSigil]) && EndsWith(t, [FadeSigil])
    ensures FadeOut in FadeRule(t).1 ==> FadeRule(t) == (t, map[FadeOut := DefaultFade])
    ensures forall d, w :: AllDigits(d) && |d| > 0 && t == [FadeSigil] + d + [FadeSigil] + w
              ==> FadeRule(t) == (w, map[FadeIn := DigitsValue(d)])
    ensures (StartsWith(t, [FadeSigil]) && !StartsWith(t[1..], LeadingDigits(t[1..]) + [FadeSigil]))
              ==> FadeRule(t) == (t[1..], map[FadeIn := DefaultFade])
  {
    forall d, w | AllDigits(d) && |d| > 0 && t == [FadeSigil] + d + [FadeSigil] + w
      ensures FadeRule(t) == (w, map[FadeIn := DigitsValue(d)])
    {
      assert t[1..] == d + ([FadeSigil] + w);
      LeadingDigitsOf(d, [FadeSigil] + w);
      assert t[1..][|d| + 1..] == w;
    }
    if StartsWith(t, [FadeSigil]) {
      var rest := t[1..];
      var d := LeadingDigits(rest);
      if |d| > 0 && |d| < |rest| && rest[|d|] == FadeSigil {
        assert rest[..|d| + 1] == d + [FadeSigil];
      }
    }
  }

  /** An occurrence of an occurrence is an occurrence. */
  lemma OccursAtTrans(a: string, b: string, c: string, i: int, j: int)
    requires OccursAt(a, b, i) && OccursAt(b, c, j)
    ensures OccursAt(a, c, i + j)
  {
    forall x | 0 <= x < |c| ensures a[i + j + x] == c[x] {
      assert c[x] == b[j + x] == a[i + j + x];
    }
  }

  lemma BlankRuleKeepsPiece(kind: ClipType, t: string)
    ensures BlankRule(kind, t).text == "" || OccursAt(t, BlankRule(kind, t).text, 0)
         || OccursAt(t, BlankRule(kind, t).text, 1)
  {
  }

  lemma FadeRuleKeepsPiece(t: string)
    ensures exists off :: OccursAt(t, FadeRule(t).0, off)
  {
    if StartsWith(t, [FadeSigil]) {
      var rest := t[1..];
      var d := LeadingDigits(rest);
      if |d| > 0 && |d| < |rest| && rest[|d|] == FadeSigil {
        assert OccursAt(t, FadeRule(t).0, |d| + 2);
      } else {
        assert OccursAt(t, FadeRule(t).0, 1);
      }
    } else {
      assert OccursAt(t, FadeRule(t).0, 0);
    }
  }

  /** The word that stage 2 keeps is the text before the first `:`. */
  lemma FieldsTextLeads(t: string)
    requires InlineFields(t).Success?
    ensures OccursAt(t, InlineFields(t).value.text, 0)
  {
    FirstPiece(t, ':');
  }

  /** What the blank and fade rules keep of a piece of the raw text is
      still a piece of it. */
  lemma KeptPieceOccurs(raw: string, kind: ClipType, piece: string, off: int)
    requires OccursAt(raw, piece, off)
    ensures Contains(raw, FadeRule(BlankRule(kind, piece).text).0)
  {
    var shape := BlankRule(kind, piece);
    var text := FadeRule(shape.text).0;
    if shape.text == "" {
      assert text == "";
      assert OccursAt(raw, text, 0);
    } else {
      BlankRuleKeepsPiece(kind, piece);
      var j :| 0 <= j <= 1 && OccursAt(piece, shape.text, j);
      OccursAtTrans(raw, piece, shape.text, off, j);
      FadeRuleKeepsPiece(shape.text);
      var k :| OccursAt(shape.text, text, k);
      OccursAtTrans(raw, shape.text, text, off + j, k);
    }
  }

  /** Nothing but removal: the clip's final text (its `original_text`) is a
      contiguous piece of the raw annotated text. */
  lemma ParsedTextOccursInRaw(raw: string)
    requires Parse(raw).Success?
    ensures Contains(raw, Parse(raw).value.text)
  {
    var (kind, t) := StripStructural(raw);
    StripStructuralInverse(raw);
    assert OccursAt(raw, t, |Sigil(kind)|);
    var fields := InlineFields(t).value;
    FieldsTextLeads(t);
    OccursAtTrans(raw, t, fields.text, |Sigil(kind)|, 0);
    KeptPieceOccurs(raw, kind, fields.text, |Sigil(kind)|);
    assert FadeRule(BlankRule(kind, fields.text).text).0 == Parse(raw).value.text;
  }
}
