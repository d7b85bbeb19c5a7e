/** The H.264 byte-stream (ITU-T H.264 Annex B) splitter shared, line for line,
  * by the two Limelight media sources. It scans for `00 00 01` start-code
  * prefixes, cuts the buffer into NAL units, and counts a frame each time a
  * prefix is preceded by a further zero byte (the 4-byte `00 00 00 01` form).
  *
  * The scan has its own edge behaviour, which the contract states exactly:
  * prefixes starting in the last four bytes are not seen, a 3-byte prefix at
  * offset 0 opens a unit that is never emitted, the extra zero of a 4-byte
  * prefix belongs to no unit, and a unit is tagged with the frame count as it
  * stands when the NEXT prefix is seen. */
module AnnexB {
  import opened Common

  /** One emitted NAL unit: bytes `[start, end)` of the buffer and its frame tag. */
  datatype NalCut = NalCut(start: nat, end: nat, frame: nat)

  /** `buf[p..p+3]` is the prefix `00 00 01`. */
  predicate StartCodeAt(buf: seq<byte>, p: nat)
  {
    p + 3 <= |buf| && buf[p] == 0 && buf[p + 1] == 0 && buf[p + 2] == 1
  }

  /** The byte before `p` is zero, so a prefix at `p` is the tail of `00 00 00 01`. */
  predicate PrecededByZero(buf: seq<byte>, p: nat)
  {
    1 <= p <= |buf| && buf[p - 1] == 0
  }

  /** The prefixes the scan recognises. The loop runs its index `i` over
    * `[0, |buf| - 4)`; a 4-byte prefix is seen at `i = p - 1` and a 3-byte one
    * at `i = p`, so the two kinds have different limits at the end of the buffer. */
  predicate Detected(buf: seq<byte>, p: nat)
  {
    StartCodeAt(buf, p) && (if PrecededByZero(buf, p) then p + 4 <= |buf| else p + 5 <= |buf|)
  }

  /** Where the unit before a prefix at `p` stops: the extra zero of a 4-byte
    * prefix is cut away from it. */
  function CutEnd(buf: seq<byte>, p: nat): nat
  {
    if PrecededByZero(buf, p) then p - 1 else p
  }

  /** The number of recognised 4-byte prefixes at positions below `n`. */
  function LongCount(buf: seq<byte>, n: nat): nat
  {
    if n == 0 then 0
    else LongCount(buf, n - 1) + (if Detected(buf, n - 1) && PrecededByZero(buf, n - 1) then 1 else 0)
  }

  function Starts(cuts: seq<NalCut>): (s: seq<nat>)
    ensures |s| == |cuts| && forall k :: 0 <= k < |cuts| ==> s[k] == cuts[k].start
  {
    seq(|cuts|, k requires 0 <= k < |cuts| => cuts[k].start)
  }

  lemma {:induction false} LongCountMonotone(buf: seq<byte>, m: nat, n: nat)
    requires m <= n
    ensures LongCount(buf, m) <= LongCount(buf, n)
    decreases n - m
  {
    if m < n {
      LongCountMonotone(buf, m, n - 1);
    }
  }

  /** No 4-byte prefix is recognised at or after the scan's exit index. */
  lemma {:induction false} LongCountTail(buf: seq<byte>, i: nat, n: nat)
    requires i <= n <= |buf| && i + 4 >= |buf|
    requires Detected(buf, i) ==> !PrecededByZero(buf, i)
    ensures LongCount(buf, n) == LongCount(buf, i)
    decreases n - i
  {
    if i < n {
      LongCountTail(buf, i, n - 1);
    }
  }

  /** The scan's position: every prefix recognised below `i` is at or before
    * the open unit `cur`, and the frame counter has counted the 4-byte ones. */
  ghost predicate Cursor(buf: seq<byte>, f0: nat, i: nat, cur: int, fn: nat)
  {
    i <= (if |buf| >= 4 then |buf| - 3 else 0) &&
    (cur == -1 || (0 <= cur < i && Detected(buf, cur))) &&
    (forall p :: 0 <= p < i && Detected(buf, p) ==> p <= cur) &&
    (Detected(buf, i) ==> !PrecededByZero(buf, i)) &&
    fn == f0 + LongCount(buf, i)
  }

  /** The emitted units so far, up to the open unit `cur`. */
  ghost predicate CutsShape(buf: seq<byte>, cuts: seq<NalCut>, cur: int)
  {
    (cur <= 0 ==> cuts == []) &&
    (forall k :: 0 <= k < |cuts| ==>
       0 < cuts[k].start && Detected(buf, cuts[k].start) && cuts[k].start + 3 <= cuts[k].end <= cur) &&
    (forall k :: 0 <= k < |cuts| - 1 ==> cuts[k].end == CutEnd(buf, cuts[k + 1].start)) &&
    (forall k, j :: 0 <= k < j < |cuts| ==> cuts[k].end <= cuts[j].start) &&
    (|cuts| > 0 ==> cuts[|cuts| - 1].end == CutEnd(buf, cur))
  }

  ghost predicate CutsCover(buf: seq<byte>, cuts: seq<NalCut>, cur: int)
  {
    forall p :: 0 < p < cur ==> (Detected(buf, p) <==> p in Starts(cuts))
  }

  ghost predicate CutsFrames(buf: seq<byte>, f0: nat, cuts: seq<NalCut>, cur: int)
  {
    (forall k :: 0 <= k < |cuts| - 1 ==> cuts[k].frame == f0 + LongCount(buf, cuts[k + 1].start + 1)) &&
    (|cuts| > 0 ==> cur >= 0 && cuts[|cuts| - 1].frame == f0 + LongCount(buf, cur + 1))
  }

  /** An iteration that finds no prefix at `i` moves on without changing anything. */
  lemma CursorSkip(buf: seq<byte>, f0: nat, i: nat, cur: int, fn: nat)
    requires Cursor(buf, f0, i, cur, fn) && i + 4 < |buf|
    requires !(buf[i] == 0 && buf[i + 1] == 0 && ((buf[i + 2] == 0 && buf[i + 3] == 1) || buf[i + 2] == 1))
    ensures Cursor(buf, f0, i + 1, cur, fn)
  {
    assert !Detected(buf, i);
    assert !(Detected(buf, i + 1) && PrecededByZero(buf, i + 1));
  }

  /** An iteration that finds a prefix: the open unit moves to it (one past
    * `i` for the 4-byte form, which also skips the next index). */
  lemma CursorPrefix(buf: seq<byte>, f0: nat, i: nat, cur: int, fn: nat, long: bool)
    requires Cursor(buf, f0, i, cur, fn) && i + 4 < |buf|
    requires buf[i] == 0 && buf[i + 1] == 0
    requires long == (buf[i + 2] == 0 && buf[i + 3] == 1) && (long || buf[i + 2] == 1)
    ensures var next := if long then i + 1 else i;
            var fn' := if long then fn + 1 else fn;
            Cursor(buf, f0, next + 1, next, fn') &&
            Detected(buf, next) && CutEnd(buf, next) == i && fn' == f0 + LongCount(buf, next + 1) &&
            (forall p :: cur < p < next ==> !Detected(buf, p)) &&
            (cur >= 0 ==> cur + 3 <= i)
  {
    var next := if long then i + 1 else i;
    if long {
      assert !Detected(buf, i);
      assert LongCount(buf, i + 2) == LongCount(buf, i) + 1;
    }
    assert Detected(buf, next);
  }

  /** Closing the open unit at `i` and opening one at `next` keeps the units in shape. */
  lemma CutsAppend(buf: seq<byte>, f0: nat, cuts: seq<NalCut>, cur: int, i: nat, next: nat, fn': nat)
    requires CutsShape(buf, cuts, cur) && CutsCover(buf, cuts, cur) && CutsFrames(buf, f0, cuts, cur)
    requires cur > 0 && Detected(buf, cur) && cur + 3 <= i <= next
    requires Detected(buf, next) && CutEnd(buf, next) == i && fn' == f0 + LongCount(buf, next + 1)
    requires forall p :: cur < p < next ==> !Detected(buf, p)
    ensures var cuts' := cuts + [NalCut(cur, i, fn')];
            CutsShape(buf, cuts', next) && CutsCover(buf, cuts', next) && CutsFrames(buf, f0, cuts', next)
  {
    AppendShape(buf, cuts, cur, i, next, fn');
    AppendCover(buf, cuts, cur, i, next, fn');
    AppendFrames(buf, f0, cuts, cur, i, next, fn');
  }

  lemma AppendShape(buf: seq<byte>, cuts: seq<NalCut>, cur: int, i: nat, next: nat, fn': nat)
    requires CutsShape(buf, cuts, cur)
    requires cur > 0 && Detected(buf, cur) && cur + 3 <= i <= next && CutEnd(buf, next) == i
    ensures CutsShape(buf, cuts + [NalCut(cur, i, fn')], next)
  {
  }

  lemma AppendCover(buf: seq<byte>, cuts: seq<NalCut>, cur: int, i: nat, next: nat, fn': nat)
    requires CutsShape(buf, cuts, cur) && CutsCover(buf, cuts, cur)
    requires cur > 0 && Detected(buf, cur) && cur <= next
    requires forall p :: cur < p < next ==> !Detected(buf, p)
    ensures CutsCover(buf, cuts + [NalCut(cur, i, fn')], next)
  {
    var starts := Starts(cuts + [NalCut(cur, i, fn')]);
    assert starts == Starts(cuts) + [cur];
    forall p | 0 < p < next
      ensures Detected(buf, p) <==> p in starts
    {
      if p > cur {
        assert p !in Starts(cuts);
      }
    }
  }

  lemma AppendFrames(buf: seq<byte>, f0: nat, cuts: seq<NalCut>, cur: int, i: nat, next: nat, fn': nat)
    requires CutsFrames(buf, f0, cuts, cur)
    requires cur > 0 && fn' == f0 + LongCount(buf, next + 1)
    ensures CutsFrames(buf, f0, cuts + [NalCut(cur, i, fn')], next)
  {
  }

  /** Opening the first unit (or re-opening after a prefix at offset 0). */
  lemma CutsOpen(buf: seq<byte>, f0: nat, cur: int, next: nat)
    requires cur <= 0 && 0 <= next
    requires forall p: nat :: cur < p < next ==> !Detected(buf, p)
    ensures CutsShape(buf, [], next) && CutsCover(buf, [], next) && CutsFrames(buf, f0, [], next)
  {
  }

  /** Everything the scan keeps true from one iteration to the next. */
  ghost predicate ScanInv(buf: seq<byte>, f0: nat, i: nat, cur: int, fn: nat, cuts: seq<NalCut>)
  {
    Cursor(buf, f0, i, cur, fn) && CutsShape(buf, cuts, cur) && CutsCover(buf, cuts, cur) &&
    CutsFrames(buf, f0, cuts, cur)
  }

  /** One iteration of the scan at index `i`, stated by cases: no prefix, a
    * 3-byte prefix at `i`, or a 4-byte prefix whose `00 00 01` starts at `i + 1`. */
  ghost predicate Step(buf: seq<byte>, i: nat, cur: int, fn: nat, cuts: seq<NalCut>,
                       i': nat, cur': int, fn': nat, cuts': seq<NalCut>)
    requires i + 4 < |buf|
  {
    if buf[i] == 0 && buf[i + 1] == 0 && ((buf[i + 2] == 0 && buf[i + 3] == 1) || buf[i + 2] == 1) then
      PrefixStep(buf, i, cur, fn, cuts, buf[i + 2] == 0, i', cur', fn', cuts')
    else
      i' == i + 1 && cur' == cur && fn' == fn && cuts' == cuts
  }

  ghost predicate PrefixStep(buf: seq<byte>, i: nat, cur: int, fn: nat, cuts: seq<NalCut>, long: bool,
                             i': nat, cur': int, fn': nat, cuts': seq<NalCut>)
  {
    var next := if long then i + 1 else i;
    fn' == (if long then fn + 1 else fn) && cur' == next && i' == next + 1 &&
    cuts' == (if cur > 0 then cuts + [NalCut(cur, i, fn')] else cuts)
  }

  lemma Advance(buf: seq<byte>, f0: nat, i: nat, cur: int, fn: nat, cuts: seq<NalCut>,
                i': nat, cur': int, fn': nat, cuts': seq<NalCut>)
    requires ScanInv(buf, f0, i, cur, fn, cuts) && i + 4 < |buf|
    requires Step(buf, i, cur, fn, cuts, i', cur', fn', cuts')
    ensures ScanInv(buf, f0, i', cur', fn', cuts')
  {
    if buf[i] == 0 && buf[i + 1] == 0 && ((buf[i + 2] == 0 && buf[i + 3] == 1) || buf[i + 2] == 1) {
      AdvancePrefix(buf, f0, i, cur, fn, cuts, buf[i + 2] == 0, i', cur', fn', cuts');
    } else {
      CursorSkip(buf, f0, i, cur, fn);
    }
  }

  lemma AdvancePrefix(buf: seq<byte>, f0: nat, i: nat, cur: int, fn: nat, cuts: seq<NalCut>, long: bool,
                      i': nat, cur': int, fn': nat, cuts': seq<NalCut>)
    requires ScanInv(buf, f0, i, cur, fn, cuts) && i + 4 < |buf|
    requires buf[i] == 0 && buf[i + 1] == 0
    requires long == (buf[i + 2] == 0 && buf[i + 3] == 1) && (long || buf[i + 2] == 1)
    requires PrefixStep(buf, i, cur, fn, cuts, long, i', cur', fn', cuts')
    ensures ScanInv(buf, f0, i', cur', fn', cuts')
  {
    CursorPrefix(buf, f0, i, cur, fn, long);
    if cur > 0 {
      CutsAppend(buf, f0, cuts, cur, i, cur', fn');
    } else {
      CutsOpen(buf, f0, cur, cur');
    }
  }

  /** The body of the scanning loop at index `i`. */
  method ScanStep(buf: seq<byte>, i0: nat, cur0: int, fn0: nat, cuts0: seq<NalCut>)
    returns (i: nat, currentNalStart: int, fn: nat, cuts: seq<NalCut>)
    requires i0 + 4 < |buf|
    ensures i > i0
    ensures Step(buf, i0, cur0, fn0, cuts0, i, currentNalStart, fn, cuts)
  {
    i, currentNalStart, fn, cuts := i0, cur0, fn0, cuts0;
    if buf[i] == 0 && buf[i + 1] == 0 {
      var isPrefix := true;
      var frameStart := false;
      if buf[i + 2] == 0 && buf[i + 3] == 1 {
        fn := fn + 1;
        frameStart := true;
      } else if buf[i + 2] == 1 {
        frameStart := false;
      } else {
        isPrefix := false;  // not a start code: the source `continue`s
      }
      if isPrefix {
        if currentNalStart > 0 {
          cuts := cuts + [NalCut(currentNalStart, i, fn)];
        }
        if frameStart {
          i := i + 1;
        }
        currentNalStart := i;
      }
    }
    i := i + 1;
  }

  /** The scanning loop of `EnqueueVideoSamples` / `EnqueueSamples`, returning
    * the `(start, end, frame)` triples it passes to `EnqueueNal`, in order,
    * and the frame counter it leaves behind.
    *
    * The units are exactly the recognised prefixes other than one at offset 0;
    * each begins with `00 00 01`, ends where the next one's prefix (without
    * its extra zero) begins, and the last ends at the end of the buffer. Frame
    * tags count the 4-byte prefixes up to and including the one that closes
    * the unit. */
  method FindNals(buf: seq<byte>, frameNumber: nat) returns (cuts: seq<NalCut>, frameAfter: nat)
    ensures forall k :: 0 <= k < |cuts| ==>
              0 < cuts[k].start && Detected(buf, cuts[k].start) && cuts[k].start + 3 <= cuts[k].end <= |buf|
    ensures forall k :: 0 <= k < |cuts| ==> buf[cuts[k].start..cuts[k].start + 3] == [0, 0, 1]
    ensures forall p :: 0 < p < |buf| ==> (Detected(buf, p) <==> p in Starts(cuts))
    ensures forall k :: 0 <= k < |cuts| - 1 ==> cuts[k].end == CutEnd(buf, cuts[k + 1].start)
    ensures forall k, j :: 0 <= k < j < |cuts| ==> cuts[k].end <= cuts[j].start
    ensures |cuts| > 0 ==> cuts[|cuts| - 1].end == |buf|
    ensures forall k :: 0 <= k < |cuts| - 1 ==> cuts[k].frame == frameNumber + LongCount(buf, cuts[k + 1].start + 1)
    ensures |cuts| > 0 ==> cuts[|cuts| - 1].frame == frameAfter
    ensures frameAfter == frameNumber + LongCount(buf, |buf|)
  {
    var n := |buf|;
    var fn := frameNumber;
    var currentNalStart := -1;
    var i := 0;
    cuts := [];
    while i < n - 4
      invariant ScanInv(buf, frameNumber, i, currentNalStart, fn, cuts)
      decreases n - i
    {
      var i', cur', fn', cuts' := ScanStep(buf, i, currentNalStart, fn, cuts);
      Advance(buf, frameNumber, i, currentNalStart, fn, cuts, i', cur', fn', cuts');
      i, currentNalStart, fn, cuts := i', cur', fn', cuts';
    }
    ghost var open := cuts;
    if currentNalStart > 0 {
      cuts := cuts + [NalCut(currentNalStart, n, fn)];
    }
    frameAfter := fn;
    Close(buf, frameNumber, i, currentNalStart, fn, open, cuts);
  }

  /** The cuts the scan reports once its open unit is closed at the end of the buffer. */
  function Closed(buf: seq<byte>, cuts: seq<NalCut>, cur: int, fn: nat): seq<NalCut>
  {
    if cur > 0 then cuts + [NalCut(cur, |buf|, fn)] else cuts
  }

  /** After the loop no 4-byte prefix remains uncounted and no prefix
    * beyond the open unit is recognised. */
  lemma FinishCount(buf: seq<byte>, f0: nat, i: nat, cur: int, fn: nat)
    requires Cursor(buf, f0, i, cur, fn) && i + 4 >= |buf|
    ensures fn == f0 + LongCount(buf, |buf|)
    ensures forall p: nat :: cur < p < |buf| ==> !Detected(buf, p)
  {
    LongCountTail(buf, i, |buf|);
  }

  /** Everything `FindNals` promises, about the closed cuts. */
  lemma Close(buf: seq<byte>, f0: nat, i: nat, cur: int, fn: nat, cuts: seq<NalCut>, c: seq<NalCut>)
    requires ScanInv(buf, f0, i, cur, fn, cuts) && i + 4 >= |buf|
    requires c == Closed(buf, cuts, cur, fn)
    ensures forall k :: 0 <= k < |c| ==>
              0 < c[k].start && Detected(buf, c[k].start) && c[k].start + 3 <= c[k].end <= |buf|
    ensures forall k :: 0 <= k < |c| ==> buf[c[k].start..c[k].start + 3] == [0, 0, 1]
    ensures forall p :: 0 < p < |buf| ==> (Detected(buf, p) <==> p in Starts(c))
    ensures forall k :: 0 <= k < |c| - 1 ==> c[k].end == CutEnd(buf, c[k + 1].start)
    ensures forall k, j :: 0 <= k < j < |c| ==> c[k].end <= c[j].start
    ensures |c| > 0 ==> c[|c| - 1].end == |buf|
    ensures forall k :: 0 <= k < |c| - 1 ==> c[k].frame == f0 + LongCount(buf, c[k + 1].start + 1)
    ensures |c| > 0 ==> c[|c| - 1].frame == fn
    ensures fn == f0 + LongCount(buf, |buf|)
  {
    FinishCount(buf, f0, i, cur, fn);
    CloseShape(buf, f0, i, cur, fn, cuts);
    CloseCover(buf, f0, i, cur, fn, cuts);
    CloseFrames(buf, f0, i, cur, fn, cuts);
  }

  lemma CloseShape(buf: seq<byte>, f0: nat, i: nat, cur: int, fn: nat, cuts: seq<NalCut>)
    requires Cursor(buf, f0, i, cur, fn) && i + 4 >= |buf|
    requires CutsShape(buf, cuts, cur)
    ensures var c := Closed(buf, cuts, cur, fn);
            (forall k :: 0 <= k < |c| ==>
               0 < c[k].start && Detected(buf, c[k].start) && c[k].start + 3 <= c[k].end <= |buf|) &&
            (forall k :: 0 <= k < |c| ==> buf[c[k].start..c[k].start + 3] == [0, 0, 1]) &&
            (forall k :: 0 <= k < |c| - 1 ==> c[k].end == CutEnd(buf, c[k + 1].start)) &&
            (forall k, j :: 0 <= k < j < |c| ==> c[k].end <= c[j].start) &&
            (|c| > 0 ==> c[|c| - 1].end == |buf|)
  {
    CloseBounds(buf, f0, i, cur, fn, cuts);
    CloseOrder(buf, f0, i, cur, fn, cuts);
  }

  lemma CloseBounds(buf: seq<byte>, f0: nat, i: nat, cur: int, fn: nat, cuts: seq<NalCut>)
    requires Cursor(buf, f0, i, cur, fn) && i + 4 >= |buf|
    requires CutsShape(buf, cuts, cur)
    ensures var c := Closed(buf, cuts, cur, fn);
            (forall k :: 0 <= k < |c| ==>
               0 < c[k].start && Detected(buf, c[k].start) && c[k].start + 3 <= c[k].end <= |buf|) &&
            (forall k :: 0 <= k < |c| ==> buf[c[k].start..c[k].start + 3] == [0, 0, 1])
  {
    var c := Closed(buf, cuts, cur, fn);
    forall k | 0 <= k < |c|
      ensures 0 < c[k].start && Detected(buf, c[k].start) && c[k].start + 3 <= c[k].end <= |buf|
      ensures buf[c[k].start..c[k].start + 3] == [0, 0, 1]
    {
      if k < |cuts| {
        assert c[k] == cuts[k];
      }
      assert StartCodeAt(buf, c[k].start);
    }
  }

  lemma CloseOrder(buf: seq<byte>, f0: nat, i: nat, cur: int, fn: nat, cuts: seq<NalCut>)
    requires Cursor(buf, f0, i, cur, fn) && i + 4 >= |buf|
    requires CutsShape(buf, cuts, cur)
    ensures var c := Closed(buf, cuts, cur, fn);
            (forall k :: 0 <= k < |c| - 1 ==> c[k].end == CutEnd(buf, c[k + 1].start)) &&
            (forall k, j :: 0 <= k < j < |c| ==> c[k].end <= c[j].start) &&
            (|c| > 0 ==> c[|c| - 1].end == |buf|)
  {
  }

  lemma CloseCover(buf: seq<byte>, f0: nat, i: nat, cur: int, fn: nat, cuts: seq<NalCut>)
    requires Cursor(buf, f0, i, cur, fn) && i + 4 >= |buf|
    requires CutsShape(buf, cuts, cur) && CutsCover(buf, cuts, cur)
    ensures var c := Closed(buf, cuts, cur, fn);
            forall p :: 0 < p < |buf| ==> (Detected(buf, p) <==> p in Starts(c))
  {
    FinishCount(buf, f0, i, cur, fn);
    var starts := Starts(Closed(buf, cuts, cur, fn));
    if cur > 0 {
      assert starts == Starts(cuts) + [cur];
      forall p | 0 < p < |buf|
        ensures Detected(buf, p) <==> p in starts
      {
        if p > cur {
          assert p !in Starts(cuts);
        }
      }
    } else {
      assert starts == [];
    }
  }

  lemma CloseFrames(buf: seq<byte>, f0: nat, i: nat, cur: int, fn: nat, cuts: seq<NalCut>)
    requires Cursor(buf, f0, i, cur, fn) && i + 4 >= |buf|
    requires CutsShape(buf, cuts, cur) && CutsFrames(buf, f0, cuts, cur)
    ensures var c := Closed(buf, cuts, cur, fn);
            (forall k :: 0 <= k < |c| - 1 ==> c[k].frame == f0 + LongCount(buf, c[k + 1].start + 1)) &&
            (|c| > 0 ==> c[|c| - 1].frame == fn)
  {
    FinishCount(buf, f0, i, cur, fn);

  }
}
