/** The scan frontier of the generational copying collector: a snapshot of a
    space taken when a scan pass starts, and the loop that walks whatever the
    space gains past that snapshot until it stops growing. */
module GreyObjects {
  import opened Chunks
  import opened Coverage
  import opened Spaces
  import opened Sweeps

  /** q is at or beyond p: the aligned frontier has moved to a later chunk
      or to a higher top in the same chunk, and the unaligned frontier has
      not moved back. */
  ghost predicate AheadOf(p: ScanPoint, q: ScanPoint) {
    && (Index(p.alignedChunk) < Index(q.alignedChunk)
        || (Index(p.alignedChunk) == Index(q.alignedChunk) && OffsetOr(p.alignedTop) <= OffsetOr(q.alignedTop)))
    && Index(p.unalignedChunk) <= Index(q.unalignedChunk)
  }

  /** Frontier p points into a space laid out as l: a recorded chunk exists,
      and a recorded aligned top lies within its chunk. */
  ghost predicate Within(p: ScanPoint, l: Layout) {
    && (p.alignedChunk.None? <==> p.alignedTop.None?)
    && (p.alignedChunk.Some? ==>
          && p.alignedChunk.value < |l.aligned|
          && l.aligned[p.alignedChunk.value].start <= p.alignedTop.value <= l.aligned[p.alignedChunk.value].top)
    && (p.unalignedChunk.Some? ==> p.unalignedChunk.value < |l.unaligned|)
  }

  /** The walks in log are exactly the objects between the snapshot snap
      and the frontier f of a space laid out as l, and all of them succeeded. */
  ghost predicate Accounts(log: seq<Scan>, l: Layout, snap: ScanPoint, f: ScanPoint) {
    && AllOk(log)
    && AlignedCovered(log, l.aligned, Index(snap.alignedChunk), OffsetOr(snap.alignedTop),
                      Index(f.alignedChunk), OffsetOr(f.alignedTop))
    && UnalignedCovered(log, l.unaligned, Index(snap.unalignedChunk), Index(f.unalignedChunk))
  }

  /** An aligned sweep that resumed at the frontier (or at the start of the
      first chunk when there was no aligned frontier) and ran to the end of
      the aligned list moves the aligned frontier to the top of the last
      aligned chunk. */
  lemma AlignedSweepAccounts(log: seq<Scan>, es: seq<Scan>, l0: Layout, l: Layout, snap: ScanPoint, f: ScanPoint, c0: nat, off0: int)
    requires Accounts(log, l0, snap, f) && AheadOf(snap, f)
    requires SpaceGrows(l0, l) && WellFormed(l.aligned) && Index(f.unalignedChunk) < |l0.unaligned|
    requires c0 < |l0.aligned| && off0 <= l0.aligned[c0].top
    requires f.alignedChunk.Some? ==> c0 == f.alignedChunk.value && off0 == OffsetOr(f.alignedTop)
    requires f.alignedChunk.None? ==> c0 == 0 && off0 == l0.aligned[0].start
    requires 0 < |es| && c0 + |es| == |l.aligned| && AlignedSweep(es, l.aligned, c0, off0) && AllOk(es)
    ensures Accounts(log + es, l, snap, f.(alignedChunk := Some(|l.aligned| - 1), alignedTop := Some(l.aligned[|l.aligned| - 1].top)))
  {
    var s, sTop := Index(snap.alignedChunk), OffsetOr(snap.alignedTop);
    if f.alignedChunk.None? {
      AlignedFromFirst(log, l0.aligned, sTop, OffsetOr(f.alignedTop));
    }
    AlignedCoveredGrows(log, l0.aligned, l.aligned, s, sTop, c0, off0);
    AlignedSweepCovers(log, es, l.aligned, s, sTop, c0, off0);
    UnalignedUnaffected(log, es, l0.unaligned, l.unaligned, Index(snap.unalignedChunk), Index(f.unalignedChunk));
    AllOkAppend(log, es);
  }

  /** An unaligned sweep that started after the frontier chunk and ran to
      the end of the unaligned list moves the unaligned frontier to the last
      unaligned chunk. */
  lemma UnalignedSweepAccounts(log: seq<Scan>, es: seq<Scan>, l0: Layout, l: Layout, snap: ScanPoint, f: ScanPoint)
    requires Accounts(log, l0, snap, f) && AheadOf(snap, f)
    requires SpaceGrows(l0, l) && Index(f.alignedChunk) < |l0.aligned| && Index(f.unalignedChunk) < |l0.unaligned|
    requires 0 < |es| && Index(f.unalignedChunk) + 1 + |es| == |l.unaligned|
    requires UnalignedSweep(es, l.unaligned, Index(f.unalignedChunk) + 1) && AllOk(es)
    ensures Accounts(log + es, l, snap, f.(unalignedChunk := Some(|l.unaligned| - 1)))
  {
    var s, sTop := Index(snap.alignedChunk), OffsetOr(snap.alignedTop);
    UnalignedSweepCovers(log, es, l0.unaligned, l.unaligned, Index(snap.unalignedChunk), Index(f.unalignedChunk) + 1);
    AlignedCoveredGrows(log, l0.aligned, l.aligned, s, sTop, Index(f.alignedChunk), OffsetOr(f.alignedTop));
    AlignedUnaffected(log, es, l.aligned, s, sTop, Index(f.alignedChunk), OffsetOr(f.alignedTop));
    AllOkAppend(log, es);
  }

  /** What the aligned sweep does to the frontier f0 of a space laid out as
      l0, given what its chunk walks es did (see WalkAlignedChunks): on
      success the frontier f sits at the last chunk and its top and
      accounts for everything walked; on failure it stays where it was. */
  lemma AlignedSweepDone(log: seq<Scan>, es: seq<Scan>, l0: Layout, l: Layout, snap: ScanPoint,
                         f0: ScanPoint, f: ScanPoint, ok: bool, lastChunk: Option<nat>)
    requires WellFormed(l0.aligned) && Within(f0, l0) && AheadOf(snap, f0) && Accounts(log, l0, snap, f0)
    requires WellFormed(l.aligned) && SpaceGrows(l0, l)
    requires AlignedSwept(l0, l, f0.alignedChunk, f0.alignedTop, es, ok, lastChunk)
    requires f == if ok && lastChunk.Some?
                  then f0.(alignedChunk := lastChunk, alignedTop := Some(l.aligned[lastChunk.value].top))
                  else f0
    ensures Within(f, l) && AheadOf(snap, f) && AheadOf(f0, f)
    ensures ok ==> && Accounts(log + es, l, snap, f)
                   && f.alignedChunk == (if |l.aligned| == 0 then None else Some(|l.aligned| - 1))
                   && f.alignedTop == (if |l.aligned| == 0 then None else Some(l.aligned[|l.aligned| - 1].top))
    ensures !ok ==> f == f0 && FailedLast(log + es)
  {
    AllOkAppend(log, es);
    if ok && lastChunk.Some? {
      var c0 := if f0.alignedChunk.Some? then f0.alignedChunk.value else 0;
      var off0 := if f0.alignedChunk.Some? then f0.alignedTop.value else l0.aligned[0].start;
      assert c0 < |l0.aligned| && l.aligned[c0].start == l0.aligned[c0].start;
      AlignedSweepAccounts(log, es, l0, l, snap, f0, c0, off0);
    } else if ok {
      assert log + es == log;
    }
  }

  /** What the unaligned sweep does to the frontier f0 of a space laid out
      as l0, given what its chunk walks es did (see WalkUnalignedChunks): on
      success the frontier f sits at the last chunk and accounts for
      everything walked; on failure it stays where it was. */
  lemma UnalignedSweepDone(log: seq<Scan>, es: seq<Scan>, l0: Layout, l: Layout, snap: ScanPoint,
                           f0: ScanPoint, f: ScanPoint, ok: bool, lastChunk: Option<nat>)
    requires Within(f0, l0) && AheadOf(snap, f0) && Accounts(log, l0, snap, f0)
    requires WellFormed(l.aligned) && SpaceGrows(l0, l)
    requires UnalignedSwept(l0, l, f0.unalignedChunk, es, ok, lastChunk)
    requires f == if ok && lastChunk.Some? then f0.(unalignedChunk := lastChunk) else f0
    ensures Within(f, l) && AheadOf(snap, f) && AheadOf(f0, f)
    ensures ok ==> && Accounts(log + es, l, snap, f)
                   && f.unalignedChunk == (if |l.unaligned| == 0 then None else Some(|l.unaligned| - 1))
    ensures !ok ==> f == f0 && FailedLast(log + es)
  {
    AllOkAppend(log, es);
    if ok && lastChunk.Some? {
      UnalignedSweepAccounts(log, es, l0, l, snap, f0);
    } else if ok {
      assert log + es == log;
    }
  }

  class GreyObjectsWalker {
    /** The space whose tail the frontier follows. */
    var space: Space?
    /** The frontier: the last aligned chunk walked, the top it was walked
        to, and the last unaligned chunk walked. */
    var alignedHeapChunk: Option<nat>
    var alignedTop: Option<int>
    var unalignedHeapChunk: Option<nat>
    /** The frontier as the last snapshot recorded it: everything up to it is black. */
    ghost var snapshot: ScanPoint
    /** How many walks the space had logged when the snapshot was taken. */
    ghost var mark: nat

    function Frontier(): ScanPoint
      reads this
    {
      ScanPoint(alignedHeapChunk, alignedTop, unalignedHeapChunk)
    }

    ghost predicate Valid()
      reads this, space
    {
      && space != null && space.Valid() && mark <= |space.scans|
      && Within(Frontier(), space.Shape()) && AheadOf(snapshot, Frontier())
    }

    /** The walks performed since the snapshot. */
    ghost function Scanned(): seq<Scan>
      reads this, space
      requires space != null && mark <= |space.scans|
    {
      space.scans[mark..]
    }

    /** Every walk since the snapshot succeeded, and together they walked
        exactly the objects between the snapshot and the frontier. */
    ghost predicate Covered()
      reads this, space
      requires space != null && mark <= |space.scans|
    {
      Accounts(Scanned(), space.Shape(), snapshot, Frontier())
    }

    /** Takes a snapshot of s: every object now in s is black, and every
        object allocated into s from now on is grey. */
    method SetScanStart(s: Space)
      requires s.Valid()
      modifies this
      ensures space == s && Frontier() == s.Tail()
      ensures snapshot == s.Tail() && mark == |s.scans|
      ensures alignedTop.None? <==> |s.aligned| == 0
      ensures Valid() && Covered() && !HaveGreyObjects()
    {
      space := s;
      var aChunk := s.LastAligned();
      alignedHeapChunk := aChunk;
      alignedTop := if aChunk.Some? then Some(s.AlignedTop(aChunk.value)) else None;
      var uChunk := s.LastUnaligned();
      unalignedHeapChunk := uChunk;
      snapshot := Frontier();
      mark := |s.scans|;
    }

    /** Compares the frontier with the current tail of the space: there are
        grey objects exactly when the space has grown past the frontier. */
    function HaveGreyObjects(): (r: bool)
      reads this, space
      requires Valid()
      ensures r <==> Frontier() != space.Tail()
    {
      || alignedHeapChunk != space.LastAligned()
      || (alignedHeapChunk.Some? && alignedTop != Some(space.AlignedTop(alignedHeapChunk.value)))
      || unalignedHeapChunk != space.LastUnaligned()
    }

    /** Walks grey objects until there are none: on success the frontier is
        the tail of the space, so every object past the snapshot has been
        walked exactly once. With no grey objects on entry nothing is walked
        and nothing changes. A failed chunk walk stops everything at once. */
    method WalkGreyObjects() returns (ok: bool)
      requires Valid() && Covered()
      modifies this`alignedHeapChunk, this`alignedTop, this`unalignedHeapChunk, space
      ensures Valid() && SpaceGrows(old(space.Shape()), space.Shape())
      ensures old(space.scans) <= space.scans
      ensures AheadOf(old(Frontier()), Frontier())
      ensures ok ==> Covered() && Frontier() == space.Tail()
      ensures !ok ==> FailedLast(Scanned())
      ensures !old(HaveGreyObjects()) ==> ok && unchanged(this, space)
    {
      ok := true;
      ghost var start := space.Shape();
      while HaveGreyObjects()
        invariant Valid() && Covered() && SpaceGrows(start, space.Shape())
        invariant old(space.scans) <= space.scans
        invariant AheadOf(old(Frontier()), Frontier())
        invariant !old(HaveGreyObjects()) ==> ok && unchanged(this, space)
        decreases space.growthBudget, if HaveGreyObjects() then 1 else 0
      {
        ghost var l := space.Shape();
        ok := WalkRound();
        SpaceGrowsTransitive(start, l, space.Shape());
        if !ok {
          return;
        }
      }
    }

    /** One turn of the drain loop: the aligned sweep, then the unaligned
        sweep. Either it used up growth budget, or the frontier has caught
        up with the tail of the space. */
    method WalkRound() returns (ok: bool)
      requires Valid() && Covered()
      modifies this`alignedHeapChunk, this`alignedTop, this`unalignedHeapChunk, space
      ensures Valid() && SpaceGrows(old(space.Shape()), space.Shape())
      ensures old(space.scans) <= space.scans
      ensures AheadOf(old(Frontier()), Frontier())
      ensures ok ==> && Covered()
                     && (space.growthBudget < old(space.growthBudget)
                         || (space.growthBudget == old(space.growthBudget) && Frontier() == space.Tail()))
      ensures !ok ==> FailedLast(Scanned())
    {
      ghost var l0 := space.Shape();
      ok := WalkAlignedGreyObjects();
      if !ok {
        return;
      }
      ghost var l1 := space.Shape();
      ok := WalkUnalignedGreyObjects();
      SpaceGrowsTransitive(l0, l1, space.Shape());
      if !ok {
        return;
      }
      RoundEnds(l0, l1, space.Shape(), Frontier());
    }

    /** The aligned sweep: walks the aligned chunks from the frontier on and
        moves the frontier to the last aligned chunk and its top as read
        after the walk. A failed walk leaves the frontier where it was. */
    method WalkAlignedGreyObjects() returns (ok: bool)
      requires Valid() && Covered()
      modifies this`alignedHeapChunk, this`alignedTop, space
      ensures Valid() && SpaceGrows(old(space.Shape()), space.Shape())
      ensures old(space.scans) <= space.scans
      ensures AheadOf(old(Frontier()), Frontier())
      ensures ok ==> Covered() && alignedHeapChunk == space.Tail().alignedChunk && alignedTop == space.Tail().alignedTop
      ensures !ok ==> Frontier() == old(Frontier()) && FailedLast(Scanned())
    {
      ghost var log, l0, f0, s0 := Scanned(), space.Shape(), Frontier(), space.scans;
      var lastChunk;
      ghost var es;
      ok, lastChunk, es := WalkAlignedChunks(space, alignedHeapChunk, alignedTop);
      if ok && lastChunk.Some? {
        // The frontier follows the sweep to the last chunk and its top now.
        alignedHeapChunk := lastChunk;
        alignedTop := Some(space.AlignedTop(lastChunk.value));
      }
      LogSince(s0, es, mark);
      AlignedSweepDone(log, es, l0, space.Shape(), snapshot, f0, Frontier(), ok, lastChunk);
    }

    /** The unaligned sweep: walks the unaligned chunks after the frontier
        chunk and moves the frontier to the last unaligned chunk. A failed
        walk leaves the frontier where it was. */
    method WalkUnalignedGreyObjects() returns (ok: bool)
      requires Valid() && Covered()
      modifies this`unalignedHeapChunk, space
      ensures Valid() && SpaceGrows(old(space.Shape()), space.Shape())
      ensures old(space.scans) <= space.scans
      ensures AheadOf(old(Frontier()), Frontier())
      ensures ok ==> Covered() && unalignedHeapChunk == space.Tail().unalignedChunk
      ensures !ok ==> Frontier() == old(Frontier()) && FailedLast(Scanned())
    {
      ghost var log, l0, f0, s0 := Scanned(), space.Shape(), Frontier(), space.scans;
      var lastChunk;
      ghost var es;
      ok, lastChunk, es := WalkUnalignedChunks(space, unalignedHeapChunk);
      if ok && lastChunk.Some? {
        // The frontier follows the sweep to the last chunk.
        unalignedHeapChunk := lastChunk;
      }
      LogSince(s0, es, mark);
      UnalignedSweepDone(log, es, l0, space.Shape(), snapshot, f0, Frontier(), ok, lastChunk);
    }

  }

  /** Where the aligned sweep starts: with no chunk recorded, at the start
      of the first chunk, otherwise at the recorded chunk and top; from
      there the do-while loop walks to the end of the list. lastChunk is the
      last chunk walked, None if there was none; es are the walks made. */
  method WalkAlignedChunks(sp: Space, chunk: Option<nat>, top: Option<int>)
    returns (ok: bool, lastChunk: Option<nat>, ghost es: seq<Scan>)
    requires sp.Valid() && Within(ScanPoint(chunk, top, None), sp.Shape())
    modifies sp
    ensures sp.Valid() && SpaceGrows(old(sp.Shape()), sp.Shape())
    ensures sp.scans == old(sp.scans) + es
    ensures AlignedSwept(old(sp.Shape()), sp.Shape(), chunk, top, es, ok, lastChunk)
  {
    // The chunk and offset the sweep starts at.
    var aChunk: Option<nat>;
    var aOffset: Option<int>;
    if chunk.None? && top.None? {
      // No aligned chunk recorded: start at the first chunk's start.
      aChunk := sp.FirstAligned();
      aOffset := if aChunk.Some? then Some(sp.AlignedStart(aChunk.value)) else None;
    } else {
      aChunk := chunk;
      aOffset := top;
    }
    if aChunk.Some? {
      ok, lastChunk, es := WalkAlignedChunksFrom(sp, aChunk.value, aOffset.value);
    } else {
      ok, lastChunk, es := true, None, [];
    }
  }

  /** The aligned do-while loop: walks chunk c0 from offset off0, then every
      following chunk from its start, up to the end of the list as it grows,
      stopping at the first walk that fails. lastChunk is the last chunk
      walked; es are the walks made. */
  method WalkAlignedChunksFrom(sp: Space, c0: nat, off0: int)
    returns (ok: bool, lastChunk: Option<nat>, ghost es: seq<Scan>)
    requires sp.Valid() && c0 < |sp.aligned| && sp.aligned[c0].start <= off0 <= sp.aligned[c0].top
    modifies sp
    ensures sp.Valid() && SpaceGrows(old(sp.Shape()), sp.Shape())
    ensures sp.scans == old(sp.scans) + es
    ensures 0 < |es| && lastChunk == Some(c0 + |es| - 1) && AlignedSweep(es, sp.aligned, c0, off0)
    ensures ok ==> lastChunk.value == |sp.aligned| - 1 && AllOk(es)
    ensures !ok ==> FailedLast(es)
  {
    var aChunk: Option<nat> := Some(c0);
    var aOffset: Option<int> := Some(off0);
    ok := true;
    lastChunk := None;
    es := [];
    ghost var l0, s0 := sp.Shape(), sp.scans;
    assert s0 == s0 + es;
    while aChunk.Some?
      invariant sp.Valid() && SpaceGrows(l0, sp.Shape()) && sp.scans == s0 + es
      invariant AlignedLoop(c0, off0, sp.aligned, es, aChunk, aOffset, lastChunk)
      invariant aChunk.None? ==> 0 < |es|
      decreases sp.growthBudget + |sp.aligned| + |sp.unaligned|
                - (if aChunk.Some? then aChunk.value else |sp.aligned|)
    {
      lastChunk := aChunk;
      ghost var l, s := sp.Shape(), sp.scans;
      var walked := sp.WalkAlignedObjectsFrom(aChunk.value, aOffset.value);
      ghost var e := sp.scans[|s|];
      SpaceGrowsTransitive(l0, l, sp.Shape());
      AlignedLoopStep(c0, off0, l.aligned, es, aChunk, aOffset, lastChunk, sp.aligned, e);
      es := es + [e];
      if !walked {
        ok := false;
        return;
      }
      aChunk := sp.NextAligned(aChunk.value);
      aOffset := if aChunk.Some? then Some(sp.AlignedStart(aChunk.value)) else None;
    }
  }

  /** Where the unaligned sweep starts: at the chunk after the recorded one,
      the first chunk if none is recorded; from there the do-while loop
      walks to the end of the list. lastChunk is the last chunk walked, None
      if there was none; es are the walks made. */
  method WalkUnalignedChunks(sp: Space, after: Option<nat>) returns (ok: bool, lastChunk: Option<nat>, ghost es: seq<Scan>)
    requires sp.Valid() && Index(after) < |sp.unaligned|
    modifies sp
    ensures sp.Valid() && SpaceGrows(old(sp.Shape()), sp.Shape())
    ensures sp.scans == old(sp.scans) + es
    ensures UnalignedSwept(old(sp.Shape()), sp.Shape(), after, es, ok, lastChunk)
  {
    // The first chunk past the recorded one.
    var uChunk: Option<nat>;
    if after.None? {
      uChunk := sp.FirstUnaligned();
    } else {
      uChunk := sp.NextUnaligned(after.value);
    }
    if uChunk.Some? {
      ok, lastChunk, es := WalkUnalignedChunksFrom(sp, uChunk.value);
    } else {
      ok, lastChunk, es := true, None, [];
    }
  }

  /** The unaligned do-while loop: walks chunk c0 and every following chunk,
      each over its one object, up to the end of the list as it grows,
      stopping at the first walk that fails. lastChunk is the last chunk
      walked; es are the walks made. */
  method WalkUnalignedChunksFrom(sp: Space, c0: nat) returns (ok: bool, lastChunk: Option<nat>, ghost es: seq<Scan>)
    requires sp.Valid() && c0 < |sp.unaligned|
    modifies sp
    ensures sp.Valid() && SpaceGrows(old(sp.Shape()), sp.Shape())
    ensures sp.scans == old(sp.scans) + es
    ensures 0 < |es| && lastChunk == Some(c0 + |es| - 1) && UnalignedSweep(es, sp.unaligned, c0)
    ensures ok ==> lastChunk.value == |sp.unaligned| - 1 && AllOk(es)
    ensures !ok ==> FailedLast(es)
  {
    var uChunk: Option<nat> := Some(c0);
    ok := true;
    lastChunk := None;
    es := [];
    ghost var l0, s0 := sp.Shape(), sp.scans;
    assert s0 == s0 + es;
    while uChunk.Some?
      invariant sp.Valid() && SpaceGrows(l0, sp.Shape()) && sp.scans == s0 + es
      invariant UnalignedLoop(c0, sp.unaligned, es, uChunk, lastChunk)
      invariant uChunk.None? ==> 0 < |es|
      decreases sp.growthBudget + |sp.aligned| + |sp.unaligned|
                - (if uChunk.Some? then uChunk.value else |sp.unaligned|)
    {
      lastChunk := uChunk;
      ghost var l, s := sp.Shape(), sp.scans;
      var walked := sp.WalkUnalignedObjectsFrom(uChunk.value, sp.UnalignedStart(uChunk.value));
      ghost var e := sp.scans[|s|];
      SpaceGrowsTransitive(l0, l, sp.Shape());
      UnalignedLoopStep(c0, l.unaligned, es, uChunk, lastChunk, sp.unaligned, e);
      es := es + [e];
      if !walked {
        ok := false;
        return;
      }
      uChunk := sp.NextUnaligned(uChunk.value);
    }
  }

  /** Once a drain has reached its fixed point, the walks since the snapshot
      are exactly the grey objects: no aligned chunk before the snapshot
      chunk and no unaligned chunk up to the snapshot chunk was walked; every
      later aligned chunk, and the snapshot chunk from its recorded top on,
      was walked exactly once over every offset up to its current top, in
      address order; every later unaligned chunk was walked exactly once. */
  lemma DrainedScansExactlyOnce(w: GreyObjectsWalker)
    requires w.Valid() && w.Covered() && !w.HaveGreyObjects()
    ensures forall c: nat :: c < |w.space.aligned| && c < Index(w.snapshot.alignedChunk)
              ==> Ranges(w.Scanned(), Aligned, c) == []
    ensures forall c: nat :: Index(w.snapshot.alignedChunk) <= c < |w.space.aligned|
              ==> ExactlyCovers(Ranges(w.Scanned(), Aligned, c),
                                Base(w.space.aligned, Index(w.snapshot.alignedChunk), OffsetOr(w.snapshot.alignedTop), c),
                                w.space.aligned[c].top)
    ensures forall c: nat :: c < |w.space.unaligned|
              ==> Ranges(w.Scanned(), Unaligned, c)
                  == if Index(w.snapshot.unalignedChunk) < c
                     then [Range(w.space.unaligned[c].start, w.space.unaligned[c].top)] else []
  {
    var log, a, u := w.Scanned(), w.space.aligned, w.space.unaligned;
    var s, sTop, su := Index(w.snapshot.alignedChunk), OffsetOr(w.snapshot.alignedTop), Index(w.snapshot.unalignedChunk);
    forall c: nat | c < |a|
      ensures c < s ==> Ranges(log, Aligned, c) == []
      ensures s <= c ==> ExactlyCovers(Ranges(log, Aligned, c), Base(a, s, sTop, c), a[c].top)
    {
      AlignedDrained(log, a, s, sTop, c);
    }
  }
}
