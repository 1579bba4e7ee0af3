/** Join runs: a clip of type JoinPrev continues the word of the clip before
    it. Two mechanisms in coldtype/time/sequence.py find a word: the link
    fields set by `ClipTrack.groupedClips` and followed by `Clip.joinStart` /
    `Clip.joinEnd`, and the index walks of `ClipGroup.position` and
    `ClipGroup.currentWord`, whose backward step `clips[idx - 1]` wraps to
    the last clip at index 0 (Python's negative indexing). This module states
    both on the sequence of clip types alone. */
module JoinRuns {
  import opened ClipSyntax

  // ---------------------------------------------------------------------
  // Runs, as the link fields see them

  /** The first clip of the run that clip `i` belongs to: the nearest clip
      at or before `i` that is not JoinPrev, or clip 0 (which has no
      predecessor to be linked to) when there is none. */
  function RunStart(kinds: seq<ClipType>, i: nat): (r: nat)
    requires i < |kinds|
    ensures r <= i
    ensures forall k :: r < k <= i ==> kinds[k] == JoinPrev
    ensures r == 0 || kinds[r] != JoinPrev
  {
    if i == 0 || kinds[i] != JoinPrev then i else RunStart(kinds, i - 1)
  }

  /** The last clip of the run that clip `i` belongs to: the clip before the
      next clip after `i` that is not JoinPrev, or the last clip. */
  function RunEnd(kinds: seq<ClipType>, i: nat): (e: nat)
    requires i < |kinds|
    ensures i <= e < |kinds|
    ensures forall k :: i < k <= e ==> kinds[k] == JoinPrev
    ensures e + 1 == |kinds| || kinds[e + 1] != JoinPrev
    decreases |kinds| - i
  {
    if i + 1 == |kinds| || kinds[i + 1] != JoinPrev then i else RunEnd(kinds, i + 1)
  }

  /** Every clip of a run has the same run start and run end. */
  lemma {:induction false} RunsAreClosed(kinds: seq<ClipType>, i: nat, k: nat)
    requires i < |kinds| && RunStart(kinds, i) <= k <= RunEnd(kinds, i)
    ensures RunStart(kinds, k) == RunStart(kinds, i)
    ensures RunEnd(kinds, k) == RunEnd(kinds, i)
  {
  }

  // ---------------------------------------------------------------------
  // The index walks of `position` and `currentWord`

  /** Some clip is not JoinPrev: the backward walk then always stops. When
      every clip is JoinPrev, the source's backward walk never ends. */
  predicate HasAnchor(kinds: seq<ClipType>) {
    exists k | 0 <= k < |kinds| :: kinds[k] != JoinPrev
  }

  ghost function SomeAnchor(kinds: seq<ClipType>): (k: nat)
    requires HasAnchor(kinds)
    ensures k < |kinds| && kinds[k] != JoinPrev
  {
    var k :| 0 <= k < |kinds| && kinds[k] != JoinPrev; k
  }

  /** The clip `clips[b - 1]` names in Python: the previous clip, or the
      last one when `b` is 0. */
  function Prev(b: nat, n: nat): (p: nat)
    requires b < n
    ensures p < n
    ensures p == if b > 0 then b - 1 else b - 1 + n
  {
    if b == 0 then n - 1 else b - 1
  }

  /** How many backward steps lead from `b` to `q`, wrapping at 0. */
  function Dist(b: nat, q: nat, n: nat): nat
    requires b < n && q < n
  {
    if q <= b then b - q else b + n - q
  }

  /** The clips the backward walk from clip `b` visits, in visiting order:
      while the clip it stands on is JoinPrev, it steps to `clips[idx - 1]`. */
  function BackWalk(kinds: seq<ClipType>, b: nat): seq<nat>
    requires b < |kinds| && HasAnchor(kinds)
    decreases Dist(b, SomeAnchor(kinds), |kinds|)
  {
    if kinds[b] != JoinPrev then []
    else
      var p := Prev(b, |kinds|);
      [p] + BackWalk(kinds, p)
  }

  /** The clips the forward walk starting at clip `a` visits: while there
      is a clip at `a` and it is JoinPrev, it is visited and the walk moves
      on; the `IndexError` past the last clip ends the walk. */
  function FwdWalk(kinds: seq<ClipType>, a: nat): seq<nat>
    requires a <= |kinds|
    decreases |kinds| - a
  {
    if a == |kinds| || kinds[a] != JoinPrev then [] else [a] + FwdWalk(kinds, a + 1)
  }

  /** The backward walk visits the clips before `b` in Python's index order
      (`b - 1`, `b - 2`, ..., wrapping to the end), fewer than all of them
      (so never `b` itself); it passes only JoinPrev clips and stops on the
      first clip that is not JoinPrev. */
  lemma {:induction false} BackWalkShape(kinds: seq<ClipType>, b: nat)
    requires b < |kinds| && HasAnchor(kinds)
    ensures var w := BackWalk(kinds, b);
      && |w| <= Dist(b, SomeAnchor(kinds), |kinds|) < |kinds|
      && (forall j :: 0 <= j < |w| ==> w[j] == if j < b then b - 1 - j else b - 1 - j + |kinds|)
      && (forall j :: 0 <= j < |w| ==> w[j] != b)
      && (|w| > 0 ==> kinds[b] == JoinPrev)
      && (forall j :: 0 <= j < |w| - 1 ==> kinds[w[j]] == JoinPrev)
      && kinds[if |w| == 0 then b else w[|w| - 1]] != JoinPrev
    decreases Dist(b, SomeAnchor(kinds), |kinds|)
  {
    var n := |kinds|;
    if kinds[b] == JoinPrev {
      var p := Prev(b, n);
      BackWalkShape(kinds, p);
      var w, rest := BackWalk(kinds, b), BackWalk(kinds, p);
      assert w == [p] + rest;
      forall j | 0 <= j < |w| ensures w[j] == if j < b then b - 1 - j else b - 1 - j + n {
        if j > 0 {
          assert w[j] == rest[j - 1];
        }
      }
    }
  }

  /** The forward walk from `a` visits `a`, `a + 1`, ... as long as they are
      JoinPrev clips. */
  lemma {:induction false} FwdWalkShape(kinds: seq<ClipType>, a: nat)
    requires a <= |kinds|
    ensures var w := FwdWalk(kinds, a);
      && a + |w| <= |kinds|
      && (forall j :: 0 <= j < |w| ==> w[j] == a + j && kinds[a + j] == JoinPrev)
      && (a + |w| == |kinds| || kinds[a + |w|] != JoinPrev)
    decreases |kinds| - a
  {
    if a < |kinds| && kinds[a] == JoinPrev {
      FwdWalkShape(kinds, a + 1);
      var w := FwdWalk(kinds, a);
      forall j | 0 <= j < |w| ensures w[j] == a + j && kinds[a + j] == JoinPrev {
        if j > 0 {
          assert w[j] == FwdWalk(kinds, a + 1)[j - 1];
        }
      }
    }
  }

  /** `lo, lo + 1, ..., hi - 1`. */
  function Range(lo: nat, hi: nat): (r: seq<nat>)
    requires lo <= hi
    ensures |r| == hi - lo && forall j :: 0 <= j < |r| ==> r[j] == lo + j
    decreases hi - lo
  {
    if lo == hi then [] else [lo] + Range(lo + 1, hi)
  }

  function Reverse<T>(s: seq<T>): (r: seq<T>)
    ensures |r| == |s| && forall j :: 0 <= j < |s| ==> r[j] == s[|s| - 1 - j]
  {
    if s == [] then [] else Reverse(s[1..]) + [s[0]]
  }

  /** The clips `currentWord` returns for the current clip `i`: the
      backward walk, reversed into index order, then `i`, then the forward
      walk. */
  function Word(kinds: seq<ClipType>, i: nat): (w: seq<nat>)
    requires i < |kinds| && HasAnchor(kinds)
    ensures forall j :: 0 <= j < |w| ==> w[j] < |kinds|
  {
    BackWalkShape(kinds, i);
    FwdWalkShape(kinds, i + 1);
    Reverse(BackWalk(kinds, i)) + [i] + FwdWalk(kinds, i + 1)
  }

  /** The clips `position` marks as joined around the current clip `i`. */
  function Marks(kinds: seq<ClipType>, i: nat): seq<nat>
    requires i < |kinds| && HasAnchor(kinds)
  {
    BackWalk(kinds, i) + FwdWalk(kinds, i + 1)
  }

  /** The walks never mark the clip they start from. */
  lemma CurrentClipNotMarked(kinds: seq<ClipType>, i: nat)
    requires i < |kinds| && HasAnchor(kinds)
    ensures i !in Marks(kinds, i)
  {
    BackWalkShape(kinds, i);
    FwdWalkShape(kinds, i + 1);
  }

  /** Without a wrap, the backward walk from `i` visits `i - 1` down to
      the run start. */
  lemma {:induction false} BackWalkNoWrap(kinds: seq<ClipType>, i: nat)
    requires i < |kinds| && HasAnchor(kinds)
    requires kinds[RunStart(kinds, i)] != JoinPrev
    ensures |BackWalk(kinds, i)| == i - RunStart(kinds, i)
    ensures forall j :: 0 <= j < |BackWalk(kinds, i)| ==> BackWalk(kinds, i)[j] == i - 1 - j
  {
    if kinds[i] == JoinPrev {
      BackWalkNoWrap(kinds, i - 1);
      var back, rest := BackWalk(kinds, i), BackWalk(kinds, i - 1);
      assert back == [i - 1] + rest;
      forall j | 0 <= j < |back| ensures back[j] == i - 1 - j {
        if j > 0 {
          assert back[j] == rest[j - 1];
        }
      }
    }
  }

  /** The forward walk from `i + 1` visits `i + 1` up to the run end. */
  lemma {:induction false} FwdWalkRun(kinds: seq<ClipType>, i: nat)
    requires i < |kinds|
    ensures FwdWalk(kinds, i + 1) == Range(i + 1, RunEnd(kinds, i) + 1)
    decreases |kinds| - i
  {
    var e := RunEnd(kinds, i);
    if i + 1 < |kinds| && kinds[i + 1] == JoinPrev {
      FwdWalkRun(kinds, i + 1);
      assert e == RunEnd(kinds, i + 1);
      assert FwdWalk(kinds, i + 1) == [i + 1] + FwdWalk(kinds, i + 2);
      assert Range(i + 1, e + 1) == [i + 1] + Range(i + 2, e + 1);
    } else {
      assert e == i;
    }
  }

  /** Without a wrap, the backward walk reversed is `RunStart .. i - 1`. */
  lemma BackWalkRange(kinds: seq<ClipType>, i: nat)
    requires i < |kinds| && HasAnchor(kinds)
    requires kinds[RunStart(kinds, i)] != JoinPrev
    ensures Reverse(BackWalk(kinds, i)) == Range(RunStart(kinds, i), i)
  {
    BackWalkNoWrap(kinds, i);
  }

  /** A range split around `mid`. */
  lemma RangeAround(lo: nat, mid: nat, hi: nat)
    requires lo <= mid < hi
    ensures Range(lo, mid) + [mid] + Range(mid + 1, hi) == Range(lo, hi)
  {
    var left := Range(lo, mid) + [mid] + Range(mid + 1, hi);
    forall j | 0 <= j < |left| ensures left[j] == lo + j {
      if j > mid - lo {
        assert left[j] == Range(mid + 1, hi)[j - (mid - lo) - 1];
      }
    }
  }

  /** When the run of clip `i` starts at a clip that is not JoinPrev (always,
      except for a JoinPrev clip at index 0), the walks do not wrap: the word
      is exactly the run `RunStart .. RunEnd`, the run whose outer start and
      end `joinStart` and `joinEnd` report. */
  lemma WordIsRun(kinds: seq<ClipType>, i: nat)
    requires i < |kinds| && HasAnchor(kinds)
    requires kinds[RunStart(kinds, i)] != JoinPrev
    ensures Word(kinds, i) == Range(RunStart(kinds, i), RunEnd(kinds, i) + 1)
  {
    BackWalkRange(kinds, i);
    FwdWalkRun(kinds, i);
    RangeAround(RunStart(kinds, i), i, RunEnd(kinds, i) + 1);
  }

  /** Without a wrap, the clips marked joined are the run of clip `i`
      without clip `i`. */
  lemma MarksAreRun(kinds: seq<ClipType>, i: nat)
    requires i < |kinds| && HasAnchor(kinds)
    requires kinds[RunStart(kinds, i)] != JoinPrev
    ensures forall k :: k in Marks(kinds, i) <==> RunStart(kinds, i) <= k <= RunEnd(kinds, i) && k != i
  {
    var r, e := RunStart(kinds, i), RunEnd(kinds, i);
    var back, fwd := BackWalk(kinds, i), FwdWalk(kinds, i + 1);
    BackWalkNoWrap(kinds, i);
    FwdWalkRun(kinds, i);
    forall k | r <= k <= e && k != i ensures k in Marks(kinds, i) {
      if k < i {
        assert back[i - 1 - k] == k;
      } else {
        assert fwd[k - i - 1] == k;
      }
    }
  }
}
