/** How one primitive call of the Simple protocol cuts its elements into slices. */
module Slicing {
  import opened Arith

  /** Slice length before the last-slice clamp. `room` is the number of elements that fit
      into the buffer steps of one slice (`stepSize*StepPerSlice`). */
  function SliceSize(nelem: nat, slices: nat, room: nat): nat
    requires slices > 0
  {
    Max(DivUp(nelem, 16 * slices) * 16, room / 32)
  }

  /** Offset of slice `s` inside the chunk. */
  function SliceOff(nelem: nat, slices: nat, room: nat, s: nat): nat
    requires slices > 0
  {
    Min(s * SliceSize(nelem, slices, room), nelem)
  }

  function SliceLen(nelem: nat, slices: nat, room: nat, s: nat): int
    requires slices > 0
  {
    SliceOff(nelem, slices, room, s + 1) - SliceOff(nelem, slices, room, s)
  }

  /** The slice length is 1/32 of the room, or else the least multiple of 16 with which the slices cover the
      chunk. */
  lemma SliceSizeIs(nelem: nat, slices: nat, room: nat)
    requires slices > 0
    ensures var z := SliceSize(nelem, slices, room);
            z >= room / 32 && z * slices >= nelem && (z > room / 32 ==> z % 16 == 0 && (z - 16) * slices < nelem)
  {
    var q := DivUp(nelem, 16 * slices);
    MulMono(q * 16, SliceSize(nelem, slices, room), slices);
    assert (q * 16) * slices == 16 * slices * q;
    MulMod(16, q);
    if q > 0 { assert (q * 16 - 16) * slices == 16 * slices * (q - 1); }
  }

  /** The slices start at 0, follow each other without gap or overlap and end at `nelem`. */
  lemma SlicesTile(nelem: nat, slices: nat, room: nat)
    requires slices > 0
    ensures SliceOff(nelem, slices, room, 0) == 0
    ensures SliceOff(nelem, slices, room, slices) == nelem
    ensures forall s, t | 0 <= s <= t ::
              SliceOff(nelem, slices, room, s) <= SliceOff(nelem, slices, room, t)
  {
    var z := SliceSize(nelem, slices, room);
    var q := DivUp(nelem, 16 * slices);
    MulMono(q * 16, z, slices);
    assert slices * (q * 16) == 16 * slices * q;
    forall s, t | 0 <= s <= t
      ensures SliceOff(nelem, slices, room, s) <= SliceOff(nelem, slices, room, t)
    {
      MulMono(s, t, z);
    }
  }

  /** The slice, among the first `k`, that holds element `x` of the chunk. */
  lemma {:induction false} FindSlice(nelem: nat, slices: nat, room: nat, x: nat, k: nat) returns (s: nat)
    requires slices > 0 && x < SliceOff(nelem, slices, room, k)
    ensures s < k
    ensures SliceOff(nelem, slices, room, s) <= x < SliceOff(nelem, slices, room, s + 1)
  {
    assert SliceOff(nelem, slices, room, 0) == 0;
    if SliceOff(nelem, slices, room, k - 1) <= x {
      s := k - 1;
    } else {
      s := FindSlice(nelem, slices, room, x, k - 1);
    }
  }

  lemma SliceUnique(nelem: nat, slices: nat, room: nat, x: nat, s: nat, t: nat)
    requires slices > 0
    requires SliceOff(nelem, slices, room, s) <= x < SliceOff(nelem, slices, room, s + 1)
    requires SliceOff(nelem, slices, room, t) <= x < SliceOff(nelem, slices, room, t + 1)
    ensures s == t
  {
    SlicesTile(nelem, slices, room);
  }

  ghost predicate CutAs(cuts: seq<(int, int)>, nelem: nat, slices: nat, room: nat)
    requires slices > 0
  {
    forall s | 0 <= s < |cuts| ::
      cuts[s] == (SliceOff(nelem, slices, room, s), SliceLen(nelem, slices, room, s))
  }

  /** Where the loops stand when the slices of `cuts` are cut. */
  ghost predicate CutUpTo(cuts: seq<(int, int)>, nelem: nat, slices: nat, room: nat, offset: int, size: int)
    requires slices > 0
  {
    && CutAs(cuts, nelem, slices, room) && offset == SliceOff(nelem, slices, room, |cuts|)
    && 0 <= size <= SliceSize(nelem, slices, room) && (offset < nelem ==> size == SliceSize(nelem, slices, room))
  }

  /** The next slice is as long as the slice size and the rest of the chunk allow. */
  lemma CutNext(cuts: seq<(int, int)>, nelem: nat, slices: nat, room: nat, offset: int, size: int)
    requires slices > 0 && CutUpTo(cuts, nelem, slices, room, offset, size)
    ensures var len := if size < nelem - offset then size else nelem - offset;
            CutUpTo(cuts + [(offset, len)], nelem, slices, room, offset + len, len)
  {
    var z := SliceSize(nelem, slices, room);
    assert (|cuts| + 1) * z == |cuts| * z + z;
  }

  /** The two slice loops of a primitive call. A worker thread cuts the non-empty slices in the
      first loop and the empty rest in the second; any other thread runs the second loop only.
      Both kinds of thread cut the same slices, on either end of a connection, whatever the
      sign of `nelem0`. */
  method CutSlices(nelem0: int, slices: nat, room: nat, worker: bool) returns (cuts: seq<(int, int)>)
    requires slices > 0
    ensures |cuts| == slices && CutAs(cuts, Max(nelem0, 0), slices, room)
    ensures cuts[0].0 == 0 && cuts[slices - 1].0 + cuts[slices - 1].1 == Max(nelem0, 0)
    ensures forall s | 0 <= s < slices - 1 :: cuts[s + 1].0 == cuts[s].0 + cuts[s].1
    ensures forall s | 0 <= s < slices ::
              cuts[s].1 == SliceSize(Max(nelem0, 0), slices, room) || cuts[s].0 + cuts[s].1 == Max(nelem0, 0)
  {
    var nelem: nat := if nelem0 < 0 then 0 else nelem0;
    var sliceSize: int := SliceSize(nelem, slices, room);
    var slice: nat, offset: int := 0, 0;
    cuts := [];
    if worker && offset < nelem {
      while true
        invariant slice < slices && slice == |cuts| && offset < nelem
        invariant CutUpTo(cuts, nelem, slices, room, offset, sliceSize)
        decreases slices - slice
      {
        CutNext(cuts, nelem, slices, room, offset, sliceSize);
        sliceSize := if sliceSize < nelem - offset then sliceSize else nelem - offset;
        cuts := cuts + [(offset, sliceSize)];
        offset := offset + sliceSize;
        slice := slice + 1;
        if !(slice < slices && offset < nelem) { break; }
      }
    }
    while slice < slices
      invariant slice <= slices && slice == |cuts|
      invariant CutUpTo(cuts, nelem, slices, room, offset, sliceSize)
    {
      CutNext(cuts, nelem, slices, room, offset, sliceSize);
      sliceSize := if sliceSize < nelem - offset then sliceSize else nelem - offset;
      cuts := cuts + [(offset, sliceSize)];
      offset := offset + sliceSize;
      slice := slice + 1;
    }
    CutsFollow(cuts, nelem, slices, room);
  }

  lemma CutsFollow(cuts: seq<(int, int)>, nelem: nat, slices: nat, room: nat)
    requires slices > 0 && |cuts| == slices && CutAs(cuts, nelem, slices, room)
    ensures cuts[0].0 == 0 && cuts[slices - 1].0 + cuts[slices - 1].1 == nelem
    ensures forall s | 0 <= s < slices - 1 :: cuts[s + 1].0 == cuts[s].0 + cuts[s].1
    ensures forall s | 0 <= s < slices ::
              cuts[s].1 == SliceSize(nelem, slices, room) || cuts[s].0 + cuts[s].1 == nelem
  {
    SlicesTile(nelem, slices, room);
    var z := SliceSize(nelem, slices, room);
    forall s | 0 <= s < slices ensures cuts[s].1 == z || cuts[s].0 + cuts[s].1 == nelem {
      WholeOrLast(nelem, slices, room, s);
    }
  }

  lemma WholeOrLast(nelem: nat, slices: nat, room: nat, s: nat)
    requires slices > 0
    ensures SliceLen(nelem, slices, room, s) == SliceSize(nelem, slices, room)
            || SliceOff(nelem, slices, room, s) + SliceLen(nelem, slices, room, s) == nelem
  {
    var z := SliceSize(nelem, slices, room);
    assert (s + 1) * z == s * z + z;
  }

  /** Whether every slice of every chunk that fits the buffer steps of its chunk
      (`nelem <= slices*room`) fits the buffer steps of one slice. */
  ghost predicate SlicesFit(slices: nat, room: nat)
    requires slices > 0
  {
    forall nelem: nat, s: nat | nelem <= slices * room && s < slices ::
      SliceLen(nelem, slices, room, s) <= room
  }

  lemma SliceAtMost(nelem: nat, slices: nat, room: nat, s: nat)
    requires slices > 0 && s < slices
    ensures SliceLen(nelem, slices, room, s) <= SliceSize(nelem, slices, room)
    ensures SliceLen(nelem, slices, room, s) <= nelem
  {
    var z := SliceSize(nelem, slices, room);
    assert (s + 1) * z == s * z + z;
  }

  /** A slice can run past its buffer steps only when a chunk has several slices and the room of
      one is not a multiple of 16 elements; in exactly that case some chunk does. */
  lemma SlicesFitIff(slices: nat, room: nat)
    requires slices > 0
    ensures SlicesFit(slices, room) <==> slices == 1 || room % 16 == 0
  {
    if slices == 1 {
      forall nelem: nat, s: nat | nelem <= slices * room && s < slices
        ensures SliceLen(nelem, slices, room, s) <= room
      {
        SliceAtMost(nelem, slices, room, s);
      }
    } else if room % 16 == 0 {
      forall nelem: nat, s: nat | nelem <= slices * room && s < slices
        ensures SliceLen(nelem, slices, room, s) <= room
      {
        WholeSixteens(nelem, slices, room);
        SliceAtMost(nelem, slices, room, s);
      }
    } else {
      SliceOverrun(slices, room);
    }
  }

  lemma WholeSixteens(nelem: nat, slices: nat, room: nat)
    requires slices > 0 && room % 16 == 0 && nelem <= slices * room
    ensures SliceSize(nelem, slices, room) <= room
  {
    var r := room / 16;
    assert slices * (16 * r) == 16 * slices * r;
    DivUpAtMost(nelem, 16 * slices, r);
  }

  /** The chunk that overruns: the largest one, whose first slice is longer than its room. */
  lemma SliceOverrun(slices: nat, room: nat)
    requires slices >= 2 && room % 16 != 0
    ensures SliceLen(slices * room, slices, room, 0) > room
    ensures !SlicesFit(slices, room)
  {
    RoundedOver(slices, room);
    MulMono(2, slices, room);
  }

  lemma RoundedOver(slices: nat, room: nat)
    requires slices > 0 && room % 16 != 0
    ensures DivUp(slices * room, 16 * slices) * 16 > room
  {
    var q := DivUp(slices * room, 16 * slices);
    assert (q * 16) * slices == 16 * slices * q;
    assert (room - 1) * slices == slices * room - slices;
    MulLess(room - 1, q * 16, slices);
  }
}
