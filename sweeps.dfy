/** The state of the two do-while loops of a scan pass, each summed up as one
    predicate over the chunk list it walks, and what one turn of each loop
    does to it. */
module Sweeps {
  import opened Chunks
  import opened Coverage

  /** Where the aligned do-while loop over list a, started at chunk c0 and
      offset off0, walks next after n walks: chunk c0 + n, from off0 at
      first and from the chunk's start afterwards, or nowhere once the end
      of the list is reached (with last the chunk it walked last). */
  ghost predicate AlignedCursor(c0: nat, off0: int, a: seq<Chunk>, n: nat,
                                next: Option<nat>, offset: Option<int>, last: Option<nat>)
  {
    && (next.Some? ==>
          && c0 + n == next.value < |a| && offset.Some?
          && a[next.value].start <= offset.value <= a[next.value].top
          && (n == 0 ==> offset.value == off0)
          && (0 < n ==> offset.value == a[next.value].start))
    && (next.None? ==> last == Some(c0 + n - 1) && c0 + n == |a|)
  }

  /** The state of the aligned do-while loop over list a: started at chunk c0
      and offset off0, it has walked es, in list order and successfully;
      next and offset are where it walks next. */
  ghost predicate AlignedLoop(c0: nat, off0: int, a: seq<Chunk>, es: seq<Scan>,
                              next: Option<nat>, offset: Option<int>, last: Option<nat>)
  {
    AlignedSweep(es, a, c0, off0) && AllOk(es) && AlignedCursor(c0, off0, a, |es|, next, offset, last)
  }

  /** After one more walk, the loop moves on to the next chunk of the list
      as it is now, from that chunk's start. */
  lemma AlignedCursorStep(c0: nat, off0: int, a: seq<Chunk>, n: nat,
                          next: Option<nat>, offset: Option<int>, last: Option<nat>, a': seq<Chunk>)
    requires AlignedCursor(c0, off0, a, n, next, offset, last) && next.Some?
    requires WellFormed(a') && |a| <= |a'|
    ensures AlignedCursor(c0, off0, a', n + 1,
                          if next.value + 1 < |a'| then Some(next.value + 1) else None,
                          if next.value + 1 < |a'| then Some(a'[next.value + 1].start) else None, next)
  {
    if next.value + 1 < |a'| {
      assert a'[next.value + 1].start <= a'[next.value + 1].top;
    }
  }

  /** One turn of the aligned loop: the walk e of the next chunk from the
      loop's offset, while the list grew from a to a', keeps the loop state,
      or ends the sweep with a failure. */
  lemma AlignedLoopStep(c0: nat, off0: int, a: seq<Chunk>, es: seq<Scan>,
                        next: Option<nat>, offset: Option<int>, last: Option<nat>, a': seq<Chunk>, e: Scan)
    requires AlignedLoop(c0, off0, a, es, next, offset, last) && next.Some?
    requires WellFormed(a') && AlignedGrows(a, a')
    requires e == Scan(Aligned, next.value, Range(offset.value, a'[next.value].top), e.ok)
    ensures e.ok ==> AlignedLoop(c0, off0, a', es + [e],
                                 if next.value + 1 < |a'| then Some(next.value + 1) else None,
                                 if next.value + 1 < |a'| then Some(a'[next.value + 1].start) else None, next)
    ensures !e.ok ==> FailedLast(es + [e]) && next == Some(c0 + |es + [e]| - 1)
    ensures AlignedSweep(es + [e], a', c0, off0)
  {
    AlignedSweepSnoc(es, a, a', c0, off0, e);
    AllOkAppend(es, [e]);
    AlignedCursorStep(c0, off0, a, |es|, next, offset, last, a');
    assert |es + [e]| == |es| + 1;
  }

  /** The state of the unaligned do-while loop over list u: started at chunk
      c0, it has walked es, in list order and successfully, and next is the
      chunk it walks next (None at the end of the list, with last the chunk
      it walked last). */
  ghost predicate UnalignedLoop(c0: nat, u: seq<Chunk>, es: seq<Scan>, next: Option<nat>, last: Option<nat>)
  {
    && UnalignedSweep(es, u, c0) && AllOk(es)
    && (next.Some? ==> c0 + |es| == next.value < |u|)
    && (next.None? ==> last == Some(c0 + |es| - 1) && c0 + |es| == |u|)
  }

  /** One turn of the unaligned loop: the walk e of the next chunk, while the
      list grew from u to u', keeps the loop state, or ends the sweep with a
      failure. */
  lemma UnalignedLoopStep(c0: nat, u: seq<Chunk>, es: seq<Scan>, next: Option<nat>, last: Option<nat>,
                          u': seq<Chunk>, e: Scan)
    requires UnalignedLoop(c0, u, es, next, last) && next.Some? && UnalignedGrows(u, u')
    requires e == Scan(Unaligned, next.value, Range(u[next.value].start, u'[next.value].top), e.ok)
    ensures e.ok ==> UnalignedLoop(c0, u', es + [e], if next.value + 1 < |u'| then Some(next.value + 1) else None, next)
    ensures !e.ok ==> FailedLast(es + [e]) && next == Some(c0 + |es + [e]| - 1)
    ensures UnalignedSweep(es + [e], u', c0)
  {
    UnalignedSweepSnoc(es, u, u', c0, e);
    AllOkAppend(es, [e]);
  }

  /** What the chunk walks es of an aligned sweep did, started in a space
      laid out as l0 that is now laid out as l, from the frontier chunk and
      top: with a chunk recorded they walked it from the recorded top and
      then the chunks after it; with none recorded they walked the chunks
      from the start of the first one, and nothing if there was none; on
      success lastChunk is the last chunk of the list, and a failure was
      the last walk made. */
  ghost predicate AlignedSwept(l0: Layout, l: Layout, chunk: Option<nat>, top: Option<int>,
                               es: seq<Scan>, ok: bool, lastChunk: Option<nat>)
  {
    && (chunk.Some? ==>
          && 0 < |es| && lastChunk == Some(chunk.value + |es| - 1)
          && top.Some? && AlignedSweep(es, l.aligned, chunk.value, top.value))
    && (chunk.None? && 0 < |l0.aligned| ==>
          && 0 < |es| && lastChunk == Some(|es| - 1)
          && AlignedSweep(es, l.aligned, 0, l0.aligned[0].start))
    && (chunk.None? && |l0.aligned| == 0 ==> ok && lastChunk.None? && es == [] && l == l0)
    && (ok && lastChunk.Some? ==> lastChunk.value == |l.aligned| - 1 && AllOk(es))
    && (!ok ==> FailedLast(es))
  }

  /** What the chunk walks es of an unaligned sweep did, started in a space
      laid out as l0 that is now laid out as l, after the frontier chunk:
      they walked the chunks after it in order, and nothing if there were
      none; on success lastChunk is the last chunk of the list, and a
      failure was the last walk made. */
  ghost predicate UnalignedSwept(l0: Layout, l: Layout, after: Option<nat>,
                                 es: seq<Scan>, ok: bool, lastChunk: Option<nat>)
    requires -1 <= Index(after)
  {
    && UnalignedSweep(es, l.unaligned, Index(after) + 1)
    && (Index(after) + 1 < |l0.unaligned| ==> lastChunk == Some(Index(after) + |es|))
    && (Index(after) + 1 == |l0.unaligned| ==> ok && lastChunk.None? && es == [] && l == l0)
    && (ok && lastChunk.Some? ==> lastChunk.value == |l.unaligned| - 1 && AllOk(es))
    && (!ok ==> FailedLast(es))
  }
}
