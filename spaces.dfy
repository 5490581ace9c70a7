/** The space a scan pass walks, as far as the scan frontier sees it: two
    append-only chunk lists, the per-chunk object walks, and what the
    grey-to-black visitor may do to the space while it runs. */
module Spaces {
  import opened Chunks

  /** A point in a space: its last aligned chunk, that chunk's top, and its
      last unaligned chunk. */
  datatype ScanPoint = ScanPoint(alignedChunk: Option<nat>, alignedTop: Option<int>, unalignedChunk: Option<nat>)

  /** The tail of a space laid out as l: its last aligned chunk and that
      chunk's top, and its last unaligned chunk. */
  function TailOf(l: Layout): ScanPoint {
    ScanPoint(if |l.aligned| == 0 then None else Some(|l.aligned| - 1),
              if |l.aligned| == 0 then None else Some(l.aligned[|l.aligned| - 1].top),
              if |l.unaligned| == 0 then None else Some(|l.unaligned| - 1))
  }

  /** A scan round over a space that grew from l0 through l1 to l2 either
      used up growth budget, or left the space at l2 with the tail it had at
      l1 (so a frontier at l1's aligned tail and l2's unaligned tail is at
      the tail of l2). */
  lemma RoundEnds(l0: Layout, l1: Layout, l2: Layout, f: ScanPoint)
    requires SpaceGrows(l0, l1) && SpaceGrows(l1, l2)
    requires f.alignedChunk == TailOf(l1).alignedChunk && f.alignedTop == TailOf(l1).alignedTop
    requires f.unalignedChunk == TailOf(l2).unalignedChunk
    ensures l2.budget <= l0.budget
    ensures l2.budget == l0.budget ==> f == TailOf(l2)
  {
  }

  class Space {
    /** The aligned chunks in list order; a chunk is its position. */
    var aligned: seq<Chunk>
    /** The unaligned chunks in list order, one object each. */
    var unaligned: seq<Chunk>
    /** How many more growth steps the visitor can make in this space: one
        per object it copies or promotes into it. It stands for the finite
        set of live objects not yet copied, which is what bounds a scan pass;
        the scan frontier never reads it. */
    var growthBudget: nat
    /** Every per-chunk object walk performed on this space, in order. */
    ghost var scans: seq<Scan>

    ghost predicate Valid()
      reads this
    {
      WellFormed(aligned)
    }

    function FirstAligned(): (c: Option<nat>)
      reads this
    {
      if |aligned| == 0 then None else Some(0)
    }

    function LastAligned(): (c: Option<nat>)
      reads this
    {
      if |aligned| == 0 then None else Some(|aligned| - 1)
    }

    function NextAligned(c: nat): (next: Option<nat>)
      reads this
      requires c < |aligned|
    {
      if c + 1 < |aligned| then Some(c + 1) else None
    }

    function AlignedStart(c: nat): (start: int)
      reads this
      requires c < |aligned|
    {
      aligned[c].start
    }

    function AlignedTop(c: nat): (top: int)
      reads this
      requires c < |aligned|
    {
      aligned[c].top
    }

    function FirstUnaligned(): (c: Option<nat>)
      reads this
    {
      if |unaligned| == 0 then None else Some(0)
    }

    function LastUnaligned(): (c: Option<nat>)
      reads this
    {
      if |unaligned| == 0 then None else Some(|unaligned| - 1)
    }

    function NextUnaligned(c: nat): (next: Option<nat>)
      reads this
      requires c < |unaligned|
    {
      if c + 1 < |unaligned| then Some(c + 1) else None
    }

    function UnalignedStart(c: nat): (start: int)
      reads this
      requires c < |unaligned|
    {
      unaligned[c].start
    }

    /** The chunk lists and growth budget as one value. */
    ghost function Shape(): Layout
      reads this
    {
      Layout(aligned, unaligned, growthBudget)
    }

    /** The current tail of the space, the point a snapshot records. */
    function Tail(): ScanPoint
      reads this
    {
      TailOf(Layout(aligned, unaligned, growthBudget))
    }

    /** Whatever the visitor does to this space while it visits objects:
        copy an object into the last aligned chunk (raising its top), start a
        new aligned chunk, or promote a large object into a new unaligned
        chunk. Allocation happens only at the last chunks, and every step
        costs one unit of growth budget. The body is one sample of such
        behaviour, at most one step of each kind; callers rely only on the
        contract, which allows any number of steps (see SpaceGrows). */
    method Promote()
      requires Valid()
      modifies this
      ensures Valid() && scans == old(scans)
      ensures SpaceGrows(old(Shape()), Shape())
    {
      // Copy an object of some size into the last aligned chunk.
      var size: int := *;
      if * {
        if 0 < growthBudget && 0 < |aligned| && 0 < size {
          var last := |aligned| - 1;
          aligned := aligned[last := Chunk(aligned[last].start, aligned[last].top + size)];
          growthBudget := growthBudget - 1;
        }
      }
      assert WellFormed(aligned) && AlignedGrows(old(aligned), aligned);
      // Start a new aligned chunk with an object in it.
      var start: int, end: int := *, *;
      if * {
        if 0 < growthBudget && start <= end {
          ghost var before := aligned;
          aligned := aligned + [Chunk(start, end)];
          growthBudget := growthBudget - 1;
          assert AlignedGrows(before, aligned);
          AlignedGrowsTransitive(old(aligned), before, aligned);
        }
      }
      // Promote a large object into a new unaligned chunk.
      start, end := *, *;
      if * {
        if 0 < growthBudget && start <= end {
          unaligned := unaligned + [Chunk(start, end)];
          growthBudget := growthBudget - 1;
        }
      }
    }

    /** Walks the objects of aligned chunk c from offset from up to the
        chunk's top, applying the visitor to each. The walk follows the top
        as the visitor raises it, so the range walked ends at the top the walk
        leaves; ok says whether the walk reached it exactly. */
    method WalkAlignedObjectsFrom(c: nat, from: int) returns (ok: bool)
      requires Valid() && c < |aligned| && aligned[c].start <= from <= aligned[c].top
      modifies this
      ensures Valid()
      ensures SpaceGrows(old(Shape()), Shape())
      ensures scans == old(scans) + [Scan(Aligned, c, Range(from, aligned[c].top), ok)]
    {
      Promote();
      ok := *;
      scans := scans + [Scan(Aligned, c, Range(from, aligned[c].top), ok)];
    }

    /** Walks the single object of unaligned chunk c, which starts at from,
        applying the visitor to it; ok says whether the walk reached the
        chunk's top exactly. */
    method WalkUnalignedObjectsFrom(c: nat, from: int) returns (ok: bool)
      requires Valid() && c < |unaligned| && from == unaligned[c].start
      modifies this
      ensures Valid()
      ensures SpaceGrows(old(Shape()), Shape())
      ensures scans == old(scans) + [Scan(Unaligned, c, Range(from, unaligned[c].top), ok)]
    {
      Promote();
      ok := *;
      scans := scans + [Scan(Unaligned, c, Range(from, unaligned[c].top), ok)];
    }
  }
}
