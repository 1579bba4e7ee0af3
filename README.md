# Timed clips for animated text, in Dafny

This project models the clip engine of coldtype's `coldtype/time/sequence.py`:

- how one annotated lyric string becomes a `Clip`, with its type, text, inline styles and data, and fade flags;
- how a `ClipTrack` splits its clips into `ClipGroup`s at ClearScreen clips and links JoinPrev clips to their predecessors;
- how a `ClipGroup` resolves its clips for one frame (the tri-state position, the joined marks, the styles read from style tracks), and how it cuts itself into lines and pens;
- how `ClipGroupPens.remove_futures` empties and prunes a pens tree;
- how a `Sequence` finds the group for a frame, the work area, the jump list and the text for a frame.

`Clip`, `ClipGroup`, `ClipTrack` and `Sequence` are classes. Their fields that the source changes in place are `var` fields, and the methods that change them say so in `modifies`. Fields set once at construction are `const`. Each loop of the source is a method with its invariants, proved against a specification function on values:

| module | file | specification functions |
|---|---|---|
| `Text` | text.dfy | Python's `split`, `join`, `strip`, `index` |
| `ClipSyntax` | clip_syntax.dfy | `Parse`, the stages of `Clip.__init__` |
| `JoinRuns` | join_runs.dfy | the runs of JoinPrev clips and the index walks of `position` and `currentWord` |
| `LineLayout` | line_layout.dfy | the line segmentation of `lines()`, over clip types |
| `Partition` | partition.dfy | the group spans of `groupedClips` |
| `ClipSequence` | sequence.dfy | the classes `Clip`, `ClipGroup` and `ClipTrack` |
| `Sequences` | sequences.dfy | the class `Sequence` and the frame lookup |
| `PenTree` | pen_tree.dfy | the pens tree as values; `remove_futures` and the reversal |
| `GroupPens` | group_pens.dfy | the structural half of `ClipGroup.pens` |

`Results` (results.dfy) holds the `Option` and `Result` datatypes.

Where the source raises an exception, the model returns a `Failure`:

- an `IndexError` after a trailing `ß` or `∂`;
- a `ValueError` on an inline data item without exactly one `=`;
- an undefined `start` mode in `fadeIn`;
- a division by a zero fade;
- a render callback that fails;
- a line with nothing to render.

## Model

| member | source | states |
|---|---|---|
| Text.JoinSplit | coldtype/time/sequence.py:75 | Joining the pieces of `split(sep)` with `sep` gives back the string. |
| Text.SplitJoin | coldtype/time/sequence.py:75 | Splitting a join of separator-free pieces gives back the pieces. |
| Text.SplitOfSeparatorFree | coldtype/time/sequence.py:75 | A string without the separator splits into itself alone. |
| Text.SplitPiecesLackSeparator | coldtype/time/sequence.py:75 | No piece of a split holds the separator. |
| Text.FirstPiece | coldtype/time/sequence.py:75-86 | The first piece of a split is the longest separator-free prefix of the string. |
| Text.IndexOf | coldtype/time/sequence.py:76-77 | `parts.index(x)`: the first position holding `x`, or none exactly when `x` is absent. |
| Text.StripIdempotent | coldtype/time/sequence.py:362 | `strip()` applied twice is `strip()` once. |
| Text.LeadSpacesShape | coldtype/time/sequence.py:362 | The leading whitespace count `strip()` drops covers exactly the leading run of whitespace. |
| Text.TrailSpacesShape | coldtype/time/sequence.py:362 | The trailing whitespace count `strip()` drops covers exactly the trailing run of whitespace. |
| Text.LeadingDigits | coldtype/time/sequence.py:114-120 | The regex `^([0-9]+)`: a digit prefix not followed by a digit. |
| ClipSyntax.StripStructuralInverse | coldtype/time/sequence.py:59-73 | At most one structural prefix is stripped (`*`, `≈`, `¶`, `+`, `µ:`, tried in that order), and the type is the one of the prefix the raw text starts with, otherwise Isolated. |
| ClipSyntax.StripSigil | coldtype/time/sequence.py:59-73 | A prefix put before a text that starts with no prefix character is stripped back off with its type. |
| ClipSyntax.DataPairs | coldtype/time/sequence.py:82-83 | On success, each `&` item splits on `=` into exactly its key and value. Failure happens only when some item does not split into exactly two. |
| ClipSyntax.DataMap | coldtype/time/sequence.py:83-84 | Every key given is in the inline data, and every entry comes from a given pair. |
| ClipSyntax.DataMapStep | coldtype/time/sequence.py:83-84 | The dictionary is filled pair by pair, so a later pair overrides an earlier one with the same key. |
| ClipSyntax.MarkersFound | coldtype/time/sequence.py:76-77 | In the field list `[word, ß, styles, ∂, data]`, `index` finds `ß` at 1 and `∂` at 3. |
| ClipSyntax.AnnotateSplits | coldtype/time/sequence.py:75 | An annotated clip splits on `:` into the word, `ß`, the styles, `∂` and the data. |
| ClipSyntax.InlineFieldsOfAnnotate | coldtype/time/sequence.py:75-86 | Reading the `:` fields of an annotated word gives back the word, the style list and the data dictionary. |
| ClipSyntax.DataPairsOfItems | coldtype/time/sequence.py:82-84 | Reading back `k=v` items written from pairs gives the pairs. |
| ClipSyntax.ParseOfAnnotate | coldtype/time/sequence.py:57-126 | Round trip: parsing a prefix plus an annotated plain word gives back the type, the word, the styles and the data, with no blank and no flags. |
| ClipSyntax.PlainWordStages | coldtype/time/sequence.py:94-124 | A plain word passes the blank and fade stages unchanged. |
| ClipSyntax.ParseFailsOnlyOnFields | coldtype/time/sequence.py:57-86 | A raw text without `:` fails to parse exactly when, after the prefix, it is a bare `ß` or `∂`: only the field stage raises. |
| ClipSyntax.ParsedShape | coldtype/time/sequence.py:94-124 | Only a leading `§` changes the prefix's type (to NewLine, and blank). FadeIn and FadeOut are never both set. A non-blank clip with empty text had its text emptied by a leading `ƒ`. |
| ClipSyntax.BlankRules | coldtype/time/sequence.py:94-111 | A leading `§` makes the clip NewLine and is dropped. The clip is blank exactly when its text starts with `§` or `∫` or is empty. A `∫` left after that empties the text. |
| ClipSyntax.LeadingDigitsOf | coldtype/time/sequence.py:117-120 | The digits the fade regex matches are exactly the leading digits. |
| ClipSyntax.FadeRules | coldtype/time/sequence.py:113-124 | A leading `ƒ` sets FadeIn to the digits before a second `ƒ`, stripping them (default 3). Otherwise a trailing `ƒ` sets FadeOut to 3 and stays in the text. |
| ClipSyntax.ParsedTextOccursInRaw | coldtype/time/sequence.py:57-126 | The parsed text is a piece of the raw text. |
| ClipSequence.StripPrefix | coldtype/time/sequence.py:59-73 | The prefix stage as statements: the type and text `StripStructural` gives. |
| ClipSequence.ReadFields | coldtype/time/sequence.py:75-86 | The field stage as statements: the first field, the style list and the data that `InlineFields` gives. |
| ClipSequence.FillData | coldtype/time/sequence.py:82-84 | The data loop fills the dictionary `DataMap` describes. |
| ClipSequence.ApplyBlankMarkers | coldtype/time/sequence.py:94-111 | The blank stage as statements: the type, text and blank flag `BlankRule` gives. |
| ClipSequence.ApplyFadeSigil | coldtype/time/sequence.py:113-124 | The fade stage as statements: the text and flags `FadeRule` gives. |
| ClipSequence.Clip.constructor | coldtype/time/sequence.py:37-126 | A new clip holds what `Parse` gives, with position 1, no joins, no group, no styles and no style clips. |
| ClipSequence.Clip.Make | coldtype/time/sequence.py:37-126 | A new clip exactly when `Parse` succeeds, otherwise `Parse`'s error. The new clip has the text, start, end, index and track given; its kind, text, original text, blank flag, flags, inline styles and inline data come from `Parse`; and it starts unplaced: position 1, not joined, no join links, no group, no styles and no style clips. |
| ClipSequence.Clip.MarkOf | coldtype/time/sequence.py:308-309 | The graf mark copy: every field of the clip, with text `¶`. |
| ClipSequence.Clip.AddJoin | coldtype/time/sequence.py:128-132 | Direction -1 sets `joinPrev`, 1 sets `joinNext`, and any other direction changes nothing. |
| ClipSequence.Clip.JoinStart | coldtype/time/sequence.py:134-138 | Following `joinPrev` links reaches the start of the first clip of the clip's JoinPrev run. |
| ClipSequence.Clip.JoinEnd | coldtype/time/sequence.py:140-144 | Following `joinNext` links reaches the end of the last clip of the clip's JoinPrev run. |
| ClipSequence.JoinRunClosure | coldtype/time/sequence.py:128-144 | Every clip of a run has the same `joinStart` and `joinEnd`. |
| ClipSequence.Clip.StyleMatching | coldtype/time/sequence.py:154-158 | The first style clip whose text contains `txt`, or none when no style clip does. |
| ClipSequence.Clip.FTextShape | coldtype/time/sequence.py:160-165 | The text, with exactly one leading space added exactly when the clip is Isolated. |
| ClipSequence.Clip.Fade | coldtype/time/sequence.py:167-171 | The FadeIn length when the flag is set, otherwise the default (5). |
| ClipSequence.Clip.FadeInAt | coldtype/time/sequence.py:173-193 | -1 without a FadeIn flag or a truthy fade length. Within the window, -1 before its start, 1 after start + fade, and the eased `(fi - start) / fade` from start to start + fade inclusive. The window starts at `start` for mode 0 and `start - fade` for mode -1; other modes fail, and so does a zero fade inside the window. |
| ClipSequence.LeadSpace | coldtype/time/sequence.py:300-301 | The text with a leading space: unchanged when it has one, else one space longer. |
| ClipSequence.LeadSpaceIdempotent | coldtype/time/sequence.py:300-301 | Adding the leading space twice is adding it once. |
| ClipSequence.ClipGroup.constructor | coldtype/time/sequence.py:247-265 | Start, end and track are the first and last clips' (0, 0 and none when empty), valid exactly when non-empty, and each clip gets its position as `idx` and the group as `group`. |
| ClipSequence.ClipGroup.NumberedDistinct | coldtype/time/sequence.py:263-265 | Numbered clips are all different. |
| ClipSequence.ClipGroup.Styles | coldtype/time/sequence.py:267-272 | Exactly the styles of some clip of the group. |
| ClipSequence.ClipGroup.StyleMatching | coldtype/time/sequence.py:274-278 | The first match over the clips in order and, within a clip, over its style clips in order; none when no style clip matches. |
| ClipSequence.ClipGroup.LData | coldtype/time/sequence.py:280-282 | The last clip's value for the field or the default; none, not the default, when the group is empty. |
| ClipSequence.ClipGroup.Sibling | coldtype/time/sequence.py:396-407 | The clip `direction` places away. Past the end: none, or `clips[0]` with wrap. Below 0: none without wrap; with wrap, Python's negative index, and none below `-len`. |
| ClipSequence.ClipGroup.SiblingRing | coldtype/time/sequence.py:396-407 | With wrap, stepping forward then back returns to the same clip. |
| ClipSequence.ClipGroup.CurrentSyllable | coldtype/time/sequence.py:366-369 | The first clip with position 0, or none exactly when there is none. |
| ClipSequence.ClipGroup.CurrentWord | coldtype/time/sequence.py:371-388 | For the first current clip: the clips the backward walk reaches, the farthest first, then the clip, then the clips of the forward walk. The backward walk can wrap through the last clip, as Python's `clips[-1]` does, and then the order is cyclic rather than group order. The forward walk stops at the end. None exactly when no clip is current. |
| ClipSequence.ClipGroup.WalkBack | coldtype/time/sequence.py:376-379 | The backward walk of `currentWord`, collected at the front. |
| ClipSequence.ClipGroup.WalkForward | coldtype/time/sequence.py:380-387 | The forward walk of `currentWord`, up to the first non-JoinPrev clip or the `IndexError`. |
| ClipSequence.ClipGroup.Position | coldtype/time/sequence.py:319-364 | Every clip is positioned (1 before its start, 0 while current, -1 after). `joined` is exactly the walked neighbours of current clips. Styles are the tokens of the style clips current at the clip's reference frame, and those style clips are appended to `style_clips`. |
| ClipSequence.ClipGroup.PositionTwice | coldtype/time/sequence.py:319-364 | A second `position` at the same frame leaves the same positions, joined marks and styles, and appends the style clips once more. |
| ClipSequence.ClipGroup.PlaceAll | coldtype/time/sequence.py:322-364 | The second loop of `position` resolves every clip in turn. |
| ClipSequence.ClipGroup.ClearJoined | coldtype/time/sequence.py:320-321 | Every clip's `joined` is cleared. |
| ClipSequence.ClipGroup.PlaceClip | coldtype/time/sequence.py:334-350 | The clip gets its tri-state position, and exactly the clips its walks reach are marked joined. |
| ClipSequence.ClipGroup.JoinedMeansWalked | coldtype/time/sequence.py:338-348 | A clip is marked by the clips before `i` exactly when one of their walks reaches it. |
| ClipSequence.ClipGroup.MarkBack | coldtype/time/sequence.py:338-341 | The backward walk marks exactly the clips it visits, wrapping like Python's `clips[-1]`. |
| ClipSequence.ClipGroup.MarkForward | coldtype/time/sequence.py:342-348 | The forward walk marks exactly the JoinPrev clips after the current one, up to the `IndexError`. |
| ClipSequence.Classify | coldtype/time/sequence.py:334-350 | Position 1 exactly when the frame is before the start, 0 exactly when start <= f < end, and -1 exactly when at or past the end. |
| ClipSequence.Matched | coldtype/time/sequence.py:353-361 | The style clips found, one at most per style track, each current at the reference frame. |
| ClipSequence.TokensAreStripped | coldtype/time/sequence.py:362 | The style tokens are the stripped `,` pieces of the stripped text, so none has surrounding space. |
| ClipSequence.ResolveStyles | coldtype/time/sequence.py:352-363 | The clip's styles become the tokens of the style clips found, which are appended to `style_clips`. |
| ClipSequence.CollectStyles | coldtype/time/sequence.py:353-363 | The style loop over the tracks collects the clips `Matched` gives and their tokens. |
| ClipSequence.CollectStep | coldtype/time/sequence.py:353-363 | One more track adds its current clip, if any, and that clip's tokens. |
| ClipSequence.ClipGroup.Lines | coldtype/time/sequence.py:294-317 | The lines hold the clips `LineLayout.Lines` names, each graf mark a new copy of its clip with text `¶`. With `ignore_newlines` every NewLine text gets its leading space in place, and no other text changes. |
| ClipSequence.ClipGroup.ScanLines | coldtype/time/sequence.py:295-314 | The loop of `lines()` builds the lines that `LineLayout.Scan` describes. |
| ClipSequence.ClipGroup.LineStep | coldtype/time/sequence.py:297-314 | One clip extends the line, opens a new one, or closes it with a graf mark. |
| ClipSequence.ClipGroup.CurrentLine | coldtype/time/sequence.py:390-394 | The first line of `lines()` holding a current clip, found exactly when some clip is current. Its clips are the group's, and each graf mark on it is a new copy of its clip, so a current GrafBreak clip makes its one-mark line the answer. No text changes. |
| ClipSequence.ClipGroup.Text | coldtype/time/sequence.py:409-421 | The debug string built from each clip's decoration and text. |
| ClipSequence.DebugTextHasEveryText | coldtype/time/sequence.py:409-421 | Every clip's text appears in the debug string. |
| ClipSequence.CurrentIndex | coldtype/time/sequence.py:615-619 | The first clip covering the frame, or none exactly when no clip covers it. |
| ClipSequence.CurrentClip | coldtype/time/sequence.py:615-619 | The clip found is in the track and covers the frame. |
| ClipSequence.CurrentIsUnique | coldtype/time/sequence.py:615-619 | In a track whose clips are ordered, a covering clip is the one `current` finds. |
| ClipSequence.GroupedClips | coldtype/time/sequence.py:596-613 | The groups are the spans `Partition.Groups` gives, each numbered and owning its clips. Each JoinPrev clip after the first is linked both ways to its predecessor, and no other link changes. |
| ClipSequence.ScanGroups | coldtype/time/sequence.py:597-612 | The loop of `groupedClips` builds the closed groups and the open one. |
| ClipSequence.GroupStep | coldtype/time/sequence.py:600-610 | One clip closes the open group (ClearScreen), links to its predecessor (JoinPrev), or extends the group. |
| ClipSequence.NewGroup | coldtype/time/sequence.py:603 | A non-empty group is closed as a new numbered `ClipGroup`. |
| ClipSequence.LinkJoin | coldtype/time/sequence.py:605-608 | A JoinPrev clip and its predecessor are linked both ways. |
| ClipSequence.GroupsArePieces | coldtype/time/sequence.py:596-613 | The groups' clip lists are the track's clips cut at the spans. |
| ClipSequence.ClipTrack.constructor | coldtype/time/sequence.py:590-594 | A new track holds its clips and the groups `groupedClips` makes of them. |
| ClipSequence.ClipTrack.Partitioned | coldtype/time/sequence.py:596-613 | The groups, concatenated in order, are exactly the track's clips. |
| ClipSequence.ClipTrack.ClearScreenHeads | coldtype/time/sequence.py:601-609 | Every group after the first starts with its ClearScreen clip, and no ClearScreen clip is anywhere else. |
| ClipSequence.ClipTrack.JoinStaysInGroup | coldtype/time/sequence.py:605-610 | A JoinPrev clip (except the track's first) is in the same group as its track predecessor, just after it. |
| ClipSequence.ClipTrack.Current | coldtype/time/sequence.py:615-619 | The first clip with start <= fi < end, or none. |
| ClipSequence.ClipTrack.Duration | coldtype/time/sequence.py:621-625 | The largest end, or 0 when no end is positive. |
| JoinRuns.RunStart | coldtype/time/sequence.py:134-138 | The first clip of the JoinPrev run ending at the clip. |
| JoinRuns.RunEnd | coldtype/time/sequence.py:140-144 | The last clip of the JoinPrev run starting after the clip. |
| JoinRuns.RunsAreClosed | coldtype/time/sequence.py:128-144 | All clips of a run have the same run bounds. |
| JoinRuns.BackWalkShape | coldtype/time/sequence.py:339-341 | The backward walk visits `b-1`, `b-2`, ..., wrapping to the end. It passes only JoinPrev clips, stops at the first other clip, and never returns to `b`. |
| JoinRuns.FwdWalkShape | coldtype/time/sequence.py:342-348 | The forward walk visits the consecutive JoinPrev clips after the clip and stops at the first other clip or the end. |
| JoinRuns.CurrentClipNotMarked | coldtype/time/sequence.py:338-348 | The walks never mark the current clip itself. |
| JoinRuns.Prev | coldtype/time/sequence.py:339-340 | `idx - 1` read as a Python index: one less, and the last position for 0. |
| JoinRuns.BackWalkNoWrap | coldtype/time/sequence.py:339-341 | When the run starts at a non-JoinPrev clip, the backward walk does not wrap and covers the run before the clip. |
| JoinRuns.FwdWalkRun | coldtype/time/sequence.py:342-348 | The forward walk covers the rest of the run. |
| JoinRuns.WordIsRun | coldtype/time/sequence.py:371-388 | Without a wrap, the current word is exactly the clip's JoinPrev run. |
| JoinRuns.MarksAreRun | coldtype/time/sequence.py:338-348 | Without a wrap, the joined marks are exactly the run of the current clip, minus the clip. |
| LineLayout.LinesShape | coldtype/time/sequence.py:294-317 | The lines hold every clip once, in order, plus one mark per GrafBreak. Breaks only lead a line, and a mark is alone on its line. Lines after the first are non-empty, and the first is empty exactly when the first clip breaks. |
| LineLayout.EveryClipOnALine | coldtype/time/sequence.py:294-317 | Every clip is on some line. |
| LineLayout.BreakClipsLead | coldtype/time/sequence.py:298-311 | A GrafBreak clip, or a NewLine clip without `ignore_newlines`, is the first of its line. |
| LineLayout.ScanKeepsInv | coldtype/time/sequence.py:295-314 | After any number of clips, the lines so far hold those clips in order, each break leading its line. |
| LineLayout.StepOpensLine | coldtype/time/sequence.py:303-305 | A NewLine clip without `ignore_newlines` closes the line, even when empty, and opens a new one. |
| LineLayout.StepAddsMark | coldtype/time/sequence.py:306-311 | A GrafBreak closes the line, adds a one-mark line, and opens a line with the clip. |
| LineLayout.StepExtendsLine | coldtype/time/sequence.py:313-314 | Any other clip extends the line. |
| LineLayout.ClosedShape | coldtype/time/sequence.py:315-316 | The last line is kept only when non-empty. |
| Partition.GroupsShape | coldtype/time/sequence.py:596-613 | The group spans tile the track, and each one after the first starts at a ClearScreen clip. |
| Partition.GroupOf | coldtype/time/sequence.py:596-613 | Every clip is in some group. |
| Partition.JoinPrevKeepsGroup | coldtype/time/sequence.py:605-609 | A JoinPrev clip is never the first of its group, unless it is the track's first clip. |
| Partition.ConcatPieces | coldtype/time/sequence.py:596-613 | Spans that tile a list cut it into pieces that concatenate back to it. |
| Partition.GStepRestarts | coldtype/time/sequence.py:601-604 | A ClearScreen clip at the start of the open group keeps the scan invariant: the closed spans tile the track up to the open group, each after the first led by a ClearScreen clip. |
| Partition.GStepCloses | coldtype/time/sequence.py:601-604 | A ClearScreen clip after a non-empty open group keeps the same scan invariant. |
| Partition.GStepPasses | coldtype/time/sequence.py:605-610 | A clip that is not ClearScreen joins the open group and keeps the scan invariant. |
| Partition.GScanTiles | coldtype/time/sequence.py:597-612 | The closed groups tile the track up to the start of the open one. |
| Sequences.FrameGroupFrom | coldtype/time/sequence.py:637-647 | The first group that answers the frame: strictly (`start <= f < end`), or open-ended (`start <= f` and the next group, if any, starts after `f`). |
| Sequences.FirstMatch | coldtype/time/sequence.py:647 | The first group that answers the frame is the one found. |
| Sequences.NoMatch | coldtype/time/sequence.py:636-656 | When no group answers the frame, nothing is found. |
| Sequences.StrictMatchIsUnique | coldtype/time/sequence.py:647 | In ordered groups, at most one group answers a frame strictly. |
| Sequences.StrictAgreesWithOpenEnded | coldtype/time/sequence.py:640-647 | In ordered groups, a strict answer is also the open-ended answer. |
| Sequences.TrackGroupsInOrder | coldtype/time/sequence.py:596-613 | The groups of a track with ordered clips, each ending no earlier than it starts, are in order. |
| Sequences.TrackGroupClipsOrdered | coldtype/time/sequence.py:596-613 | The clips of each group of an ordered track are ordered. |
| Sequences.TrackLookupsAgree | coldtype/time/sequence.py:636-647 | On such a track, a strict match is the only one, and the open-ended lookup finds the same group. |
| Sequences.OpenEndedFinds | coldtype/time/sequence.py:640-647 | The open-ended lookup finds a group for every frame at or after the first group's start. |
| Sequences.MarkGroups | coldtype/time/sequence.py:637-647 | Every group up to the one found (all, when none is found) gets the style indices, and the later groups keep theirs. |
| Sequences.InsertBeforeLast | coldtype/time/sequence.py:674 | `insert(-1, x)`: one element longer, holding `x`, and the last element stays last. |
| Sequences.InsertBeforeLastOf | coldtype/time/sequence.py:674 | `x` lands just before the last element, and the elements before it are unchanged. |
| Sequences.InsertAllKeepsLast | coldtype/time/sequence.py:673-674 | Into a non-empty list, the starts land in order before its last element. |
| Sequences.InsertAllIntoEmpty | coldtype/time/sequence.py:673-674 | Into an empty list, the first start goes in alone and stays last. |
| Sequences.JumpsAccumulate | coldtype/time/sequence.py:670-675 | A second `jumps()` inserts the starts again. |
| Sequences.SyllableText | coldtype/time/sequence.py:679-681 | A text is returned only when the group holds a clip that starts at and covers the frame, and it is that clip's input text. |
| Sequences.SyllableAtItsStart | coldtype/time/sequence.py:679-681 | A clip of an ordered group that starts at the frame gives its input text. |
| Sequences.CurrentSyllableCovers | coldtype/time/sequence.py:366-369 | After `position`, the current syllable is the first clip covering the frame. |
| Sequences.Sequence.StyleTracks | coldtype/time/sequence.py:649 | The style tracks the style indices name, in order. |
| Sequences.Sequence.constructor | coldtype/time/sequence.py:631-634 | A new sequence holds its tracks, work-area track, current frame and jump list. |
| Sequences.Sequence.GroupedIsReady | coldtype/time/sequence.py:636-656 | A track made by `groupedClips` can be looked up, given style indices that name tracks whenever some group answers and a first matching group, if any, whose walks stop. |
| Sequences.Sequence.TrackClipGroupForFrame | coldtype/time/sequence.py:636-656 | The first group answering the frame, or none. Style indices are set on the groups up to it. The group found is positioned against the style tracks, and no other clip changes. |
| Sequences.Sequence.ResolveGroup | coldtype/time/sequence.py:649-656 | The group found is positioned; no other clip of the track changes. |
| Sequences.Sequence.ClipGroupAt | coldtype/time/sequence.py:658-663 | The group found, or a new empty group with index -1, not valid, spanning 0 to 0. |
| Sequences.Sequence.FindWorkarea | coldtype/time/sequence.py:665-668 | The start and end of the work-area group at the current frame, or none. |
| Sequences.Sequence.Jumps | coldtype/time/sequence.py:670-675 | The jump list with every clip start of the work-area track inserted before its last element, in place and returned. |
| Sequences.Sequence.TextForFrame | coldtype/time/sequence.py:677-681 | The input text of the work-area group's current syllable when it starts at the frame, otherwise none. |
| PenTree.Keep | coldtype/time/sequence.py:232-237 | The list comprehensions of `remove_futures`: no more elements than before, each one of the originals and meeting the test. |
| PenTree.RemoveFutures | coldtype/time/sequence.py:226-238 | The tree with future clips emptied and, with `clean`, the empty slugs, lines and entries pruned. |
| PenTree.RemoveFuturesSettles | coldtype/time/sequence.py:226-238 | After a cleaning `remove_futures`, no future clip remains and no slug or line is empty. |
| PenTree.RemoveFuturesIdempotent | coldtype/time/sequence.py:226-238 | A second `remove_futures` changes nothing. |
| PenTree.SettledIsKept | coldtype/time/sequence.py:226-238 | A cleaning `remove_futures` leaves a settled tree unchanged. |
| PenTree.DropEmptySlugs | coldtype/time/sequence.py:235 | Dropping empty slugs loses no clip pen. |
| PenTree.DropEmptyLines | coldtype/time/sequence.py:236 | Dropping lines without slugs loses no clip pen. |
| PenTree.RemoveFuturesKeepsSurvivors | coldtype/time/sequence.py:226-238 | The clip pens left are exactly the non-future clip pens with glyphs, in order. |
| PenTree.EmptiedNone | coldtype/time/sequence.py:227-229 | With no future clip, nothing is emptied. |
| PenTree.ReverseTreeInvolution | coldtype/time/sequence.py:548-555 | Reversing at all four levels twice gives the tree back. |
| PenTree.ReverseTreeOrder | coldtype/time/sequence.py:548-555 | The reversed tree lists the clip pens in the reverse order, each with its glyphs reversed. |
| GroupPens.Rendered | coldtype/time/sequence.py:442-451 | A failure is always `RenderFailed` of this line. |
| GroupPens.RenderLine | coldtype/time/sequence.py:442-451 | The render loop of one line gives the pieces `Rendered` describes. |
| GroupPens.RenderedMaps | coldtype/time/sequence.py:442-451 | The line renders exactly when the callback answers every non-Meta, non-blank clip, giving one piece per such clip, in order. |
| GroupPens.RenderedFails | coldtype/time/sequence.py:449-451 | One failing clip fails the whole line. |
| GroupPens.StyleRuns | coldtype/time/sequence.py:453-473 | The grouping loop gives the style runs `Runs` describes. |
| GroupPens.RunsNext | coldtype/time/sequence.py:456-473 | One more piece extends the last run when it has the same style, and otherwise opens a new run. |
| GroupPens.GrowRun | coldtype/time/sequence.py:456-473 | The inner loop extends a run while the style stays the same. |
| GroupPens.RunsCover | coldtype/time/sequence.py:453-473 | The runs concatenate back to the pieces. |
| GroupPens.RunsMaximal | coldtype/time/sequence.py:453-473 | Each run has one style, and neighbouring runs differ in style. |
| GroupPens.RunSlugsFlatten | coldtype/time/sequence.py:509-526 | A run's slugs hold its clip pens in order. |
| GroupPens.RunSlugsShape | coldtype/time/sequence.py:515-526 | Within a slug every clip after the first is JoinPrev, and every slug after the run's first starts with a non-JoinPrev clip. |
| GroupPens.LinePositionIs | coldtype/time/sequence.py:496-507 | The line's position is that of its last clip with position 0 or -1, or 1 when there is none. |
| GroupPens.BuildRun | coldtype/time/sequence.py:498-527 | The slice loop over one run gives the position, text and slugs that the specification functions describe. |
| GroupPens.PlacePiece | coldtype/time/sequence.py:502-527 | One clip's glyphs are sliced by its text length and placed in a slug. |
| GroupPens.BuildLine | coldtype/time/sequence.py:491-532 | The loop over one line's runs gives the line pen `LineOf` describes. |
| GroupPens.Groupings | coldtype/time/sequence.py:439-479 | One list of runs per line, when every line succeeds. |
| GroupPens.GroupLines | coldtype/time/sequence.py:439-479 | The loop over the lines gives what `Groupings` describes. |
| GroupPens.GroupingsIs | coldtype/time/sequence.py:439-479 | The grouping succeeds exactly when every line renders to something, and each line's runs are the style runs of its pieces. |
| GroupPens.GroupingsSound | coldtype/time/sequence.py:439-479 | Every piece grouped names a non-blank clip of the group. |
| GroupPens.BlankPensUntouched | coldtype/time/sequence.py:541-546 | Blank clips are skipped when rendering, so emptying blank clip pens changes nothing. |
| GroupPens.BuildTree | coldtype/time/sequence.py:490-532 | The loop over the lines gives the tree `Built` describes. |
| GroupPens.PensContent | coldtype/time/sequence.py:439-555 | On success there is one line pen per line, in reverse order. Each holds the line's index, position and text. Its clip pens are the pens of its rendered clips, in reverse order, each with its glyphs reversed. |
| GroupPens.LinesFaithful | coldtype/time/sequence.py:294-317 | Each clip on the lines of `lines()` is a group clip or its mark copy: it knows its index in the group and shares that clip's blankness. |
| GroupPens.Pens | coldtype/time/sequence.py:423-556 | The pens tree `Assembled` gives for the lines of `lines(ignore_newlines)`, with the NewLine texts rewritten as `lines` does. |

## Left out

- ClipSyntax.DataMap: the `eval(v)` of each inline data value is not modelled; a value is its literal text. `eval` runs arbitrary code.
- ClipSyntax.InlineFields: as for `DataMap`, values are not evaluated.
- ClipSyntax.Parse: `blank_height = float(...)` after `§` is left out (floating point); the model has no `blank_height`.
- ClipSequence.Clip.constructor: requires `Parse(raw).Success?`, so it does not cover the `IndexError` and `ValueError` that `__init__` raises on a malformed annotation. `Clip.Make` covers that path: it returns `Parse`'s error instead of a clip.
- ClipSequence.Clip.MarkOf: stands for `copy.deepcopy` as a shallow copy. The mark has new fields, but its `style_clips`, `joinPrev`, `joinNext` and `group` still point at the same objects.
- ClipSequence.Clip.FadeInAt: the defaults (`easefn="seio"`, `fade_length=None`, `start=0`) are kept. The easing function `ease` is a parameter over reals, so the float arithmetic of the source is exact here.
- ClipSequence.Clip.Fade: the default (`default_fade=5`) is kept; nothing else is left out.
- ClipSequence.ClipGroup.Position: requires `WalksStop(f)`. When every clip of the group is JoinPrev and one is current, the backward walk of lines 339-341 never ends. A call that does not return is not modelled.
- ClipSequence.ClipGroup.PositionTwice: `position` is not idempotent on `style_clips`. It is idempotent on position, joined and styles, but it appends the style clips it finds and never clears them. The model keeps this behaviour and states it.
- ClipSequence.ClipGroup.CurrentWord: requires the same as `Position` (some clip is not JoinPrev, or no clip is current), for the same never-ending walk.
- ClipSequence.ClipGroup.Sibling: requires `clip.idx.Some?`. With `idx` None, `clip.idx + direction` raises a `TypeError`, which the source does not catch.
- ClipSequence.GroupedClips: does not state that the groups are new objects. Each group is created by `new` in `NewGroup`, whose contract does state it.
- ClipSequence.GroupedClips, ClipSequence.ClipTrack.constructor, ClipSequence.ClipGroup.constructor: require `Distinct(clips)`, so a list that holds the same clip object twice is excluded. The source accepts such a list and numbers the clip by its last index. Every group it builds is a slice of a track's clips or empty.
- ClipSequence.ClipTrack.constructor: does not state that its groups are new objects; they come from `GroupedClips`.
- ClipSequence.ClipGroup.StyleMatching: a Clip found is taken as truthy (`if match:`, line 277). The `Timeable` base is not shown, so a `__bool__` or `__len__` there is not modelled.
- ClipSequence.Matched: likewise a style clip found is taken as truthy (`if sc:`, line 361).
- Sequences.Sequence.TrackClipGroupForFrame: requires `Ready`. When some group answers, the style indices must name tracks (`self[sidx]` at line 649 is evaluated only then, and raises otherwise); and the group found must not make `position` walk forever. Track indices are `nat`: Python's negative track indices are not modelled.
- Sequences.Sequence: the `Timeline` parts (`self[i]`, `cti`, `_jumps`) are plain fields; `duration`, `fps` and `storyboard` are left out.
- GroupPens.Pens: the layout (`StyledString`, `Lockup`, `Graf`, `fit`, the rect and `graf_style`, lines 476-488) is not modelled. A run's glyphs are the characters of its joined texts, one glyph per character, as the slice at line 509 assumes.
- GroupPens.Pens: `addFrame`/`getFrame` (line 531) and `removeOverlap` (lines 536-538) are left out; they are geometry.
- GroupPens.Pens: the callback is a pure function `(line index, clip, ftext) -> Option<(text, style)>`. The frame argument `f` is dropped, since the model has no `Frame`. A raised exception is `None`, and the whole call is then `RenderFailed`. The `print(e)` is dropped.
- GroupPens.Pens: a line with no renderable clip makes the source raise an `IndexError` at line 457. The model returns `NothingToRender` for it rather than requiring it away.
- GroupPens.Pens: the pens' `data` back-references (`"line"`, `"group"`) and tags are not modelled. A line pen keeps its index, position and text, and a clip pen keeps its clip, line index and glyphs.
- PenTree.RemoveFutures: works on the value tree `GroupPens.Pens` builds, not on `DATPens` objects in place.
- `textForIndex` (lines 146-152) is left out: it reads an `addSpace` attribute that does not exist.
- `current_style_matching` (lines 284-292) is left out: it calls `identifier(sc)` even when `identifier` is a string, and it needs `timeline.sequence`.
- `ClipGroupPens.understroke` and `map_clips`, and `ClipGroup.iterate_clip_pens`, `remove_futures` and `iterate_pens` (lines 240-243, 558-580), are left out: they are walks over external pen objects.
- `__repr__` and `__hash__` (lines 196-197, 582-586) are left out, and so are the dead `if False:` branches (lines 325-333, 651-655).

## Notes on the source

- `groupedClips` keeps the ClearScreen clip as the first member of the group it opens (line 609 appends it after the `if`). The model follows the code.
- `sibling` with `wrap` and an index below 0 returns `clips[idx + direction]`, a Python negative index, counted from the end. Below `-len(clips)` the `IndexError` is caught and the result is none. The model follows the code.
- Blank clips are skipped by the render loop (line 443), so no clip pen belongs to a blank clip. The emptying at lines 545-546 therefore never changes anything (`BlankPensUntouched`).
- In `position`, a clip's styles are looked up before its position is stored rather than after. The lookup reads only the style tracks' clips and texts, which the position and joined marks do not touch.
