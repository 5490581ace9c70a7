/** Values shared by the space model and the scan frontier: chunk references,
    chunk extents, the record of one per-chunk object walk, and the ways a
    space may grow while its grey objects are being scanned. */
module Chunks {

  /** A chunk reference or a pointer that may be null. */
  datatype Option<T> = None | Some(value: T)

  /** A chunk reference as a list position, with null placed before every chunk. */
  function Index(o: Option<nat>): int {
    if o.Some? then o.value else -1
  }

  /** A pointer as an offset; a null pointer is never compared by offset, so 0 stands in for it. */
  function OffsetOr(p: Option<int>): int {
    if p.Some? then p.value else 0
  }

  /** The half-open byte range [lo, hi). */
  datatype Range = Range(lo: int, hi: int)

  /** A heap chunk: its objects occupy [start, top), where start is the
      first byte after the chunk header and top is the allocation top. */
  datatype Chunk = Chunk(start: int, top: int)

  datatype Kind = Aligned | Unaligned

  /** One call of a chunk's object walk: which chunk, the range it walked
      (from the offset it was given up to the top it left), and whether it
      reached that top. */
  datatype Scan = Scan(kind: Kind, chunk: nat, range: Range, ok: bool)

  ghost predicate WellFormed(cs: seq<Chunk>) {
    forall i :: 0 <= i < |cs| ==> cs[i].start <= cs[i].top
  }

  /** How the aligned chunk list of a space may change during a scan:
      chunks are only appended, no start moves, no top goes down, and only
      the last chunk (the one allocation happens in) may raise its top. */
  ghost predicate AlignedGrows(a: seq<Chunk>, a': seq<Chunk>) {
    && |a| <= |a'|
    && forall i :: 0 <= i < |a| ==>
         && a'[i].start == a[i].start
         && (if i < |a| - 1 then a'[i].top == a[i].top else a[i].top <= a'[i].top)
  }

  /** Unaligned chunks hold one object each: the list is only appended to. */
  ghost predicate UnalignedGrows(u: seq<Chunk>, u': seq<Chunk>) {
    && |u| <= |u'|
    && (forall i :: 0 <= i < |u| ==> u'[i] == u[i])
  }

  /** The part of a space a scan pass sees: its two chunk lists, and how many
      more growth steps the visitor may make in it. */
  datatype Layout = Layout(aligned: seq<Chunk>, unaligned: seq<Chunk>, budget: nat)

  /** How a space may change while its objects are visited: both lists only
      grow as above, the budget plus the number of chunks never goes up, and
      a space whose budget did not go down still has the same tail. */
  ghost predicate SpaceGrows(l: Layout, l': Layout) {
    && AlignedGrows(l.aligned, l'.aligned)
    && UnalignedGrows(l.unaligned, l'.unaligned)
    && l'.budget + |l'.aligned| + |l'.unaligned| <= l.budget + |l.aligned| + |l.unaligned|
    && (l'.budget < l.budget || SameTail(l, l'))
  }

  /** l' has as many chunks of each kind as l, and the same top in its last
      aligned chunk. */
  ghost predicate SameTail(l: Layout, l': Layout) {
    && |l'.aligned| == |l.aligned| && |l'.unaligned| == |l.unaligned|
    && (0 < |l.aligned| ==> l'.aligned[|l.aligned| - 1].top == l.aligned[|l.aligned| - 1].top)
  }

  lemma AlignedGrowsTransitive(a: seq<Chunk>, a': seq<Chunk>, a'': seq<Chunk>)
    requires AlignedGrows(a, a') && AlignedGrows(a', a'')
    ensures AlignedGrows(a, a'')
  {
    forall i | 0 <= i < |a| - 1
      ensures a''[i].top == a[i].top
    {
      assert i < |a'| - 1;
    }
  }

  lemma SpaceGrowsTransitive(l: Layout, l': Layout, l'': Layout)
    requires SpaceGrows(l, l') && SpaceGrows(l', l'')
    ensures SpaceGrows(l, l'')
  {
    AlignedGrowsTransitive(l.aligned, l'.aligned, l''.aligned);
  }
}
