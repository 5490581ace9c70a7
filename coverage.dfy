/** What the per-chunk walks of a scan pass cover, stated over the log of
    walks: for every chunk, the ranges walked in it, in order, must tile the
    grey part of that chunk with no gap and no overlap. */
module Coverage {
  import opened Chunks

  /** The ranges walked in chunk c of kind k, in the order of the log. */
  ghost function Ranges(log: seq<Scan>, k: Kind, c: nat): seq<Range>
  {
    if log == [] then []
    else
      var e := log[|log| - 1];
      Ranges(log[..|log| - 1], k, c) + (if e.kind == k && e.chunk == c then [e.range] else [])
  }

  /** rs are adjacent, non-decreasing ranges that start at lo and end at hi. */
  ghost predicate Chain(rs: seq<Range>, lo: int, hi: int)
  {
    if rs == [] then lo == hi
    else rs[0].lo == lo && rs[0].lo <= rs[0].hi && Chain(rs[1..], rs[0].hi, hi)
  }

  ghost predicate InRange(r: Range, x: int) {
    r.lo <= x < r.hi
  }

  /** Some range of rs contains offset x. */
  ghost predicate Covers(rs: seq<Range>, x: int) {
    exists i :: 0 <= i < |rs| && InRange(rs[i], x)
  }

  /** Every offset in [lo, hi) is walked, nothing outside it is, and the ranges
      come in increasing address order, so no offset is walked twice. */
  ghost predicate ExactlyCovers(rs: seq<Range>, lo: int, hi: int) {
    && (forall i, j :: 0 <= i < j < |rs| ==> rs[i].hi <= rs[j].lo)
    && (forall x :: Covers(rs, x) <==> lo <= x < hi)
  }

  /** Where the grey part of aligned chunk c begins: the top recorded in the
      snapshot for the snapshot chunk s, the chunk's start for later chunks. */
  ghost function Base(a: seq<Chunk>, s: int, sTop: int, c: nat): int
    requires c < |a|
  {
    if c == s then sTop else a[c].start
  }

  /** The aligned walks logged since a snapshot (chunk s, top sTop) account
      exactly for the frontier (chunk f, top fTop): only chunks s..f were
      walked; each chunk strictly between was walked from its base to its
      top; chunk f was walked from its base to fTop. */
  ghost predicate AlignedCovered(log: seq<Scan>, a: seq<Chunk>, s: int, sTop: int, f: int, fTop: int)
  {
    && (forall c: nat {:trigger Ranges(log, Aligned, c)} :: c < s || f < c ==> Ranges(log, Aligned, c) == [])
    && (forall c: nat {:trigger Ranges(log, Aligned, c)} :: s <= c < f && c < |a| ==>
          Chain(Ranges(log, Aligned, c), Base(a, s, sTop, c), a[c].top))
    && (0 <= f < |a| ==> Chain(Ranges(log, Aligned, f), Base(a, s, sTop, f), fTop))
  }

  /** The unaligned walks logged since a snapshot at chunk s account exactly
      for the frontier f: each chunk after s up to f was walked once, over its
      whole object, and no other unaligned chunk was walked. */
  ghost predicate UnalignedCovered(log: seq<Scan>, u: seq<Chunk>, s: int, f: int)
  {
    && (forall c: nat {:trigger Ranges(log, Unaligned, c)} :: c <= s || f < c ==> Ranges(log, Unaligned, c) == [])
    && (forall c: nat {:trigger Ranges(log, Unaligned, c)} :: s < c <= f && c < |u| ==>
          Ranges(log, Unaligned, c) == [Range(u[c].start, u[c].top)])
  }

  lemma RangesSnoc(log: seq<Scan>, e: Scan, k: Kind, c: nat)
    ensures Ranges(log + [e], k, c)
         == Ranges(log, k, c) + (if e.kind == k && e.chunk == c then [e.range] else [])
  {
    assert (log + [e])[..|log|] == log;
  }

  /** A walk that resumes exactly where the chain stopped extends it. */
  lemma {:induction false} ChainExtend(rs: seq<Range>, lo: int, mid: int, hi: int)
    requires Chain(rs, lo, mid) && mid <= hi
    ensures Chain(rs + [Range(mid, hi)], lo, hi)
  {
    if rs == [] {
      assert ([] + [Range(mid, hi)])[1..] == [];
    } else {
      ChainExtend(rs[1..], rs[0].hi, mid, hi);
      assert (rs + [Range(mid, hi)])[1..] == rs[1..] + [Range(mid, hi)];
    }
  }

  /** A chain from lo to hi walks every offset of [lo, hi) exactly once, in
      increasing address order. */
  lemma {:induction false} ChainTiles(rs: seq<Range>, lo: int, hi: int)
    requires Chain(rs, lo, hi)
    ensures lo <= hi
    ensures forall i :: 0 <= i < |rs| ==> lo <= rs[i].lo <= rs[i].hi <= hi
    ensures ExactlyCovers(rs, lo, hi)
  {
    if rs != [] {
      var t := rs[1..];
      ChainTiles(t, rs[0].hi, hi);
      forall i | 0 <= i < |rs|
        ensures lo <= rs[i].lo <= rs[i].hi <= hi
      {
        if i > 0 { assert rs[i] == t[i - 1]; }
      }
      forall i, j | 0 <= i < j < |rs|
        ensures rs[i].hi <= rs[j].lo
      {
        assert rs[j] == t[j - 1];
        if i > 0 { assert rs[i] == t[i - 1]; }
      }
      forall x
        ensures Covers(rs, x) <==> lo <= x < hi
      {
        if lo <= x < hi {
          if x < rs[0].hi {
            assert InRange(rs[0], x);
          } else {
            assert Covers(t, x);
            var i :| 0 <= i < |t| && InRange(t[i], x);
            assert InRange(rs[i + 1], x);
          }
        }
        if Covers(rs, x) {
          var i :| 0 <= i < |rs| && InRange(rs[i], x);
        }
      }
    }
  }

  /** Starting the aligned sweep of a space that had no aligned chunk at
      snapshot time: the frontier moves to the start of the first chunk. */
  lemma AlignedFromFirst(log: seq<Scan>, a: seq<Chunk>, sTop: int, fTop: int)
    requires AlignedCovered(log, a, -1, sTop, -1, fTop) && 0 < |a|
    ensures AlignedCovered(log, a, -1, sTop, 0, a[0].start)
  {
    assert Ranges(log, Aligned, 0) == [];
  }

  /** Walking aligned chunk c from the frontier offset off up to the top the
      walk leaves moves the frontier to that top. */
  lemma AlignedWalkStep(log: seq<Scan>, a: seq<Chunk>, a': seq<Chunk>, s: int, sTop: int, c: nat, off: int, e: Scan)
    requires AlignedCovered(log, a, s, sTop, c, off)
    requires s <= c < |a| && AlignedGrows(a, a')
    requires e.kind == Aligned && e.chunk == c && e.range == Range(off, a'[c].top) && off <= a'[c].top
    ensures AlignedCovered(log + [e], a', s, sTop, c, a'[c].top)
  {
    forall c': nat
      ensures Ranges(log + [e], Aligned, c') == Ranges(log, Aligned, c') + (if c' == c then [e.range] else [])
    {
      RangesSnoc(log, e, Aligned, c');
    }
    ChainExtend(Ranges(log, Aligned, c), Base(a, s, sTop, c), off, a'[c].top);
    forall c': nat | s <= c' < c
      ensures Chain(Ranges(log + [e], Aligned, c'), Base(a', s, sTop, c'), a'[c'].top)
    {
      assert Base(a', s, sTop, c') == Base(a, s, sTop, c');
      assert a'[c'].top == a[c'].top;
      assert Ranges(log + [e], Aligned, c') == Ranges(log, Aligned, c');
    }
  }

  /** Once chunk c has been walked to its top and a next chunk exists, the
      frontier moves to the start of that next chunk. */
  lemma AlignedAdvance(log: seq<Scan>, a: seq<Chunk>, s: int, sTop: int, c: nat)
    requires c + 1 < |a| && s <= c
    requires AlignedCovered(log, a, s, sTop, c, a[c].top)
    ensures AlignedCovered(log, a, s, sTop, c + 1, a[c + 1].start)
  {
    assert Ranges(log, Aligned, c + 1) == [];
  }

  /** Walking the unaligned chunk c after the frontier, over its whole
      object, moves the frontier to c. */
  lemma UnalignedWalkStep(log: seq<Scan>, u: seq<Chunk>, u': seq<Chunk>, s: int, c: nat, e: Scan)
    requires UnalignedCovered(log, u, s, c - 1)
    requires s < c < |u| && UnalignedGrows(u, u')
    requires e.kind == Unaligned && e.chunk == c && e.range == Range(u[c].start, u[c].top)
    ensures UnalignedCovered(log + [e], u', s, c)
  {
    assert Ranges(log, Unaligned, c) == [];
    forall c': nat
      ensures Ranges(log + [e], Unaligned, c') == Ranges(log, Unaligned, c') + (if c' == c then [e.range] else [])
    {
      RangesSnoc(log, e, Unaligned, c');
    }
  }

  /** When the aligned frontier has reached the top of the last chunk, every
      aligned chunk before the snapshot chunk was never walked and every
      other one was walked exactly once over its grey part. */
  lemma AlignedDrained(log: seq<Scan>, a: seq<Chunk>, s: int, sTop: int, c: nat)
    requires c < |a|
    requires AlignedCovered(log, a, s, sTop, |a| - 1, a[|a| - 1].top)
    ensures c < s ==> Ranges(log, Aligned, c) == []
    ensures s <= c ==> ExactlyCovers(Ranges(log, Aligned, c), Base(a, s, sTop, c), a[c].top)
  {
    if s <= c {
      ChainTiles(Ranges(log, Aligned, c), Base(a, s, sTop, c), a[c].top);
    }
  }

  /** The walks logged since position m, after es were logged. */
  lemma LogSince(log: seq<Scan>, es: seq<Scan>, m: nat)
    requires m <= |log|
    ensures (log + es)[m..] == log[m..] + es
  {
    assert forall i :: 0 <= i < |es| ==> (log + es)[m..][|log| - m + i] == es[i];
  }

  /** Every walk in the log reached the top it was walking to. */
  ghost predicate AllOk(log: seq<Scan>) {
    forall i :: 0 <= i < |log| ==> log[i].ok
  }

  /** The log ends with its only failed walk: work stopped at the first failure. */
  ghost predicate FailedLast(log: seq<Scan>) {
    0 < |log| && AllOk(log[..|log| - 1]) && !log[|log| - 1].ok
  }

  /** The walks of one aligned sweep: chunks c0, c0 + 1, ... in list order,
      the first from offset off0, every later one from its own start, each
      up to that chunk's top. */
  ghost predicate AlignedSweep(es: seq<Scan>, a: seq<Chunk>, c0: nat, off0: int) {
    && (forall i :: 0 <= i < |es| ==>
          es[i].kind == Aligned && es[i].chunk == c0 + i < |a| && es[i].range.hi == a[c0 + i].top)
    && (0 < |es| ==> es[0].range.lo == off0)
    && (forall i :: 0 < i < |es| ==> es[i].range.lo == a[c0 + i].start)
  }

  /** The walks of one unaligned sweep: chunks c0, c0 + 1, ... in list
      order, each over its whole object. */
  ghost predicate UnalignedSweep(es: seq<Scan>, u: seq<Chunk>, c0: nat) {
    forall i :: 0 <= i < |es| ==>
      && es[i].kind == Unaligned && es[i].chunk == c0 + i < |u|
      && es[i].range == Range(u[c0 + i].start, u[c0 + i].top)
  }

  /** One more walk, of the next chunk in list order, extends an aligned
      sweep; the chunks walked before it are no longer last in the list, so
      their tops stay where the sweep left them. */
  lemma AlignedSweepSnoc(es: seq<Scan>, a: seq<Chunk>, a': seq<Chunk>, c0: nat, off0: int, e: Scan)
    requires AlignedSweep(es, a, c0, off0) && AlignedGrows(a, a')
    requires e.kind == Aligned && e.chunk == c0 + |es| < |a| && e.range.hi == a'[e.chunk].top
    requires |es| == 0 ==> e.range.lo == off0
    requires 0 < |es| ==> e.range.lo == a'[e.chunk].start
    ensures AlignedSweep(es + [e], a', c0, off0)
  {
    var es' := es + [e];
    forall i | 0 <= i < |es'|
      ensures es'[i].kind == Aligned && es'[i].chunk == c0 + i < |a'| && es'[i].range.hi == a'[c0 + i].top
      ensures 0 < i ==> es'[i].range.lo == a'[c0 + i].start
    {
      if i < |es| {
        assert es'[i] == es[i];
      }
    }
  }

  /** One more walk, of the next chunk in list order, extends an unaligned
      sweep, also when the list has grown meanwhile. */
  lemma UnalignedSweepSnoc(es: seq<Scan>, u: seq<Chunk>, u': seq<Chunk>, c0: nat, e: Scan)
    requires UnalignedSweep(es, u, c0) && UnalignedGrows(u, u')
    requires e.kind == Unaligned && e.chunk == c0 + |es| < |u'|
    requires e.range == Range(u'[e.chunk].start, u'[e.chunk].top)
    ensures UnalignedSweep(es + [e], u', c0)
  {
    var es' := es + [e];
    forall i | 0 <= i < |es'|
      ensures es'[i].range == Range(u'[c0 + i].start, u'[c0 + i].top)
    {
      if i < |es| {
        assert es'[i] == es[i];
      }
    }
  }

  lemma AllOkAppend(log: seq<Scan>, es: seq<Scan>)
    requires AllOk(log)
    ensures AllOk(log + es) <==> AllOk(es)
    ensures FailedLast(es) ==> FailedLast(log + es)
  {
    if FailedLast(es) {
      assert (log + es)[..|log + es| - 1] == log + es[..|es| - 1];
    }
    if AllOk(log + es) {
      forall i | 0 <= i < |es|
        ensures es[i].ok
      {
        assert es[i] == (log + es)[|log| + i];
      }
    }
  }

  /** Walks of the other kind leave the ranges walked in a chunk as they were. */
  lemma {:induction false} RangesAppendOther(log: seq<Scan>, es: seq<Scan>, k: Kind, c: nat)
    requires forall i :: 0 <= i < |es| ==> es[i].kind != k
    ensures Ranges(log + es, k, c) == Ranges(log, k, c)
    decreases |es|
  {
    if es == [] {
      assert log + es == log;
    } else {
      var es', e := es[..|es| - 1], es[|es| - 1];
      assert e.kind != k;
      RangesAppendOther(log, es', k, c);
      assert log + es == (log + es') + [e];
      RangesSnoc(log + es', e, k, c);
      assert Ranges(log + es, k, c) == Ranges(log + es', k, c) + [];
    }
  }

  /** Growth of the aligned list, which only moves the top of its last chunk,
      leaves the account of a frontier inside the old list intact. */
  lemma AlignedCoveredGrows(log: seq<Scan>, a: seq<Chunk>, a': seq<Chunk>, s: int, sTop: int, f: int, fTop: int)
    requires AlignedCovered(log, a, s, sTop, f, fTop) && AlignedGrows(a, a') && f < |a|
    ensures AlignedCovered(log, a', s, sTop, f, fTop)
  {
    forall c: nat | s <= c <= f && c < |a|
      ensures Base(a', s, sTop, c) == Base(a, s, sTop, c)
    {
    }
  }

  /** An unaligned sweep leaves the aligned account intact. */
  lemma AlignedUnaffected(log: seq<Scan>, es: seq<Scan>, a: seq<Chunk>, s: int, sTop: int, f: int, fTop: int)
    requires AlignedCovered(log, a, s, sTop, f, fTop)
    requires forall i :: 0 <= i < |es| ==> es[i].kind == Unaligned
    ensures AlignedCovered(log + es, a, s, sTop, f, fTop)
  {
    forall c: nat
      ensures Ranges(log + es, Aligned, c) == Ranges(log, Aligned, c)
    {
      RangesAppendOther(log, es, Aligned, c);
    }
  }

  /** An aligned sweep leaves the unaligned account intact, also when the
      unaligned list has grown meanwhile. */
  lemma UnalignedUnaffected(log: seq<Scan>, es: seq<Scan>, u: seq<Chunk>, u': seq<Chunk>, s: int, f: int)
    requires UnalignedCovered(log, u, s, f) && UnalignedGrows(u, u') && f < |u|
    requires forall i :: 0 <= i < |es| ==> es[i].kind == Aligned
    ensures UnalignedCovered(log + es, u', s, f)
  {
    forall c: nat
      ensures Ranges(log + es, Unaligned, c) == Ranges(log, Unaligned, c)
    {
      RangesAppendOther(log, es, Unaligned, c);
    }
  }

  /** An aligned sweep without its last walk is still an aligned sweep, and
      that last walk went over chunk c0 + |es| - 1 up to its top, from off0
      if it was the first walk and from the chunk's start otherwise. */
  lemma AlignedSweepLast(es: seq<Scan>, a: seq<Chunk>, c0: nat, off0: int)
    requires 0 < |es| && AlignedSweep(es, a, c0, off0)
    ensures AlignedSweep(es[..|es| - 1], a, c0, off0)
    ensures es[|es| - 1].kind == Aligned && es[|es| - 1].chunk == c0 + |es| - 1 < |a|
    ensures es[|es| - 1].range
         == Range(if |es| == 1 then off0 else a[c0 + |es| - 1].start, a[c0 + |es| - 1].top)
  {
    var es' := es[..|es| - 1];
    forall i | 0 <= i < |es'|
      ensures es'[i] == es[i]
    {
    }
  }

  /** An aligned sweep that resumes at the frontier (chunk c0, offset off0)
      and walks chunks c0, c0 + 1, ... each up to its top moves the frontier
      to the top of the last chunk it walked. */
  lemma {:induction false} AlignedSweepCovers(log: seq<Scan>, es: seq<Scan>, a: seq<Chunk>, s: int, sTop: int, c0: nat, off0: int)
    requires WellFormed(a) && s <= c0 && 0 < |es| && c0 + |es| <= |a| && off0 <= a[c0].top
    requires AlignedCovered(log, a, s, sTop, c0, off0)
    requires AlignedSweep(es, a, c0, off0)
    ensures AlignedCovered(log + es, a, s, sTop, c0 + |es| - 1, a[c0 + |es| - 1].top)
    decreases |es|
  {
    var n := |es| - 1;
    var es', e := es[..n], es[n];
    AlignedSweepLast(es, a, c0, off0);
    assert log + es == (log + es') + [e];
    if n == 0 {
      assert log + es' == log;
      AlignedWalkStep(log, a, a, s, sTop, c0, off0, e);
    } else {
      AlignedSweepCovers(log, es', a, s, sTop, c0, off0);
      AlignedAdvance(log + es', a, s, sTop, c0 + n - 1);
      AlignedWalkStep(log + es', a, a, s, sTop, c0 + n, a[c0 + n].start, e);
    }
  }

  /** An unaligned sweep that starts after the frontier chunk and walks the
      chunks after it in order moves the frontier to the last chunk walked,
      also when the list has grown since the frontier was recorded. */
  lemma {:induction false} UnalignedSweepCovers(log: seq<Scan>, es: seq<Scan>, u0: seq<Chunk>, u: seq<Chunk>, s: int, c0: nat)
    requires s < c0 && c0 <= |u0| && c0 + |es| <= |u| && UnalignedGrows(u0, u)
    requires UnalignedCovered(log, u0, s, c0 - 1)
    requires UnalignedSweep(es, u, c0)
    ensures UnalignedCovered(log + es, u, s, c0 + |es| - 1)
    decreases |es|
  {
    if es == [] {
      assert log + es == log;
    } else {
      var n := |es| - 1;
      var es' := es[..n];
      assert UnalignedSweep(es', u, c0) by {
        forall i | 0 <= i < n
          ensures es'[i] == es[i]
        {
        }
      }
      UnalignedSweepCovers(log, es', u0, u, s, c0);
      UnalignedWalkStep(log + es', u, u, s, c0 + n, es[n]);
      assert log + es == (log + es') + [es[n]];
    }
  }
}
