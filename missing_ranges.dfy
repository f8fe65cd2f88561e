/** The missing-ranges presenter of a track (Tracks::MissingRangesPresenter):
    the gaps in a track's recording, as shown over a selected time window.
    Gaps lasting one second or less are deleted from the caller's list;
    each remaining gap that starts or ends inside the window is shifted to
    the window's start and clamped. Times are integers in tenths of a
    second, so rounding to one decimal leaves them unchanged. */
module MissingRanges {
  import opened Collections

  /** Time units per second: times are tenths of a second. */
  const TicksPerSecond: int := 10

  /** A gap of the recording: the hash with keys 'start' and 'end'. */
  datatype Gap = Gap(start: int, stop: int)

  /** A gap as shown: the hash with keys :start and :end, relative to the window. */
  datatype Shown = Shown(start: int, stop: int)

  /** The gap lasts more than one second. */
  predicate IsLong(g: Gap) {
    g.stop - g.start > TicksPerSecond
  }

  /** The gaps that remove_short_ranges keeps. */
  function LongRanges(gs: seq<Gap>): seq<Gap> {
    Filter(gs, IsLong)
  }

  /** selected_range.cover?(t): the closed window start_time..end_time holds t. */
  predicate Covers(startTime: int, endTime: int, t: int) {
    startTime <= t <= endTime
  }

  /** range_intersects: the gap starts or ends inside the window. */
  predicate Intersects(g: Gap, startTime: int, endTime: int) {
    Covers(startTime, endTime, g.start) || Covers(startTime, endTime, g.stop)
  }

  function InWindow(startTime: int, endTime: int): Gap -> bool {
    (g: Gap) => Intersects(g, startTime, endTime)
  }

  /** The shown gap: start shifted to the window and raised to 0, end shifted
      and lowered to end_time (end_time itself, not the window's length). */
  function Shift(g: Gap, startTime: int, endTime: int): (s: Shown)
    ensures s.start >= 0 && s.stop <= endTime
    ensures s.start == g.start - startTime || (s.start == 0 && g.start - startTime < 0)
    ensures s.stop == g.stop - startTime || (s.stop == endTime && g.stop - startTime > endTime)
  {
    Shown(if g.start - startTime > 0 then g.start - startTime else 0,
          if g.stop - startTime < endTime then g.stop - startTime else endTime)
  }

  /** One step of the map in rearrange_to_selected_range: nil (`next`) for a
      gap outside the window, else the shown gap. */
  function Reposition(g: Gap, startTime: int, endTime: int): (r: Option<Shown>)
    ensures r.Some? <==> Intersects(g, startTime, endTime)
    ensures r.Some? ==> r.value == Shift(g, startTime, endTime)
  {
    if Intersects(g, startTime, endTime) then Some(Shift(g, startTime, endTime)) else None
  }

  /** rearrange_to_selected_range: the map over all gaps. */
  function Rearrange(gs: seq<Gap>, startTime: int, endTime: int): (r: seq<Option<Shown>>)
    ensures |r| == |gs|
    ensures forall i :: 0 <= i < |gs| ==> r[i] == Reposition(gs[i], startTime, endTime)
    decreases |gs|
  {
    if gs == [] then []
    else Rearrange(gs[..|gs| - 1], startTime, endTime) + [Reposition(gs[|gs| - 1], startTime, endTime)]
  }

  /** The whole presenter: `[]` for an empty window or a nil list, else the
      long gaps rearranged to the window with the nils compacted away. */
  function Present(ranges: Option<seq<Gap>>, startTime: int, endTime: int): (out: seq<Shown>)
    ensures startTime == endTime ==> out == []
    ensures ranges.None? ==> out == []
    ensures ranges.Some? ==> |out| <= |ranges.value|
  {
    if startTime == endTime then []
    else match ranges
      case None => []
      case Some(gs) =>
        var long := LongRanges(gs);
        assert |Rearrange(long, startTime, endTime)| <= |gs|;
        Compact(Rearrange(long, startTime, endTime))
  }

  // ---------------------------------------------------------------------
  // What the presenter shows

  /** The gaps the presenter shows, before shifting: the long ones inside the window. */
  function Selected(gs: seq<Gap>, startTime: int, endTime: int): seq<Gap> {
    Filter(LongRanges(gs), InWindow(startTime, endTime))
  }

  function ShiftAll(gs: seq<Gap>, startTime: int, endTime: int): seq<Shown> {
    seq(|gs|, i requires 0 <= i < |gs| => Shift(gs[i], startTime, endTime))
  }

  /** Compacting the rearranged gaps shifts exactly the gaps inside the window, in order. */
  lemma {:induction false} CompactRearrange(gs: seq<Gap>, startTime: int, endTime: int)
    ensures Compact(Rearrange(gs, startTime, endTime)) == ShiftAll(Filter(gs, InWindow(startTime, endTime)), startTime, endTime)
    decreases |gs|
  {
    if gs != [] {
      var init := gs[..|gs| - 1];
      var g := gs[|gs| - 1];
      CompactRearrange(init, startTime, endTime);
      var r := Rearrange(gs, startTime, endTime);
      assert r[..|r| - 1] == Rearrange(init, startTime, endTime);
      assert r[|r| - 1] == Reposition(g, startTime, endTime);
      var f := Filter(init, InWindow(startTime, endTime));
      if Intersects(g, startTime, endTime) {
        assert Filter(gs, InWindow(startTime, endTime)) == f + [g];
        assert ShiftAll(f + [g], startTime, endTime) == ShiftAll(f, startTime, endTime) + [Shift(g, startTime, endTime)];
      } else {
        assert Filter(gs, InWindow(startTime, endTime)) == f;
      }
    }
  }

  /** For a non-empty window, the presenter shows each selected gap shifted
      and clamped, in the order of the caller's list. */
  lemma PresentShiftsSelected(gs: seq<Gap>, startTime: int, endTime: int)
    requires startTime != endTime
    ensures Present(Some(gs), startTime, endTime) == ShiftAll(Selected(gs, startTime, endTime), startTime, endTime)
  {
    CompactRearrange(LongRanges(gs), startTime, endTime);
  }

  /** A gap is selected exactly when it lasts more than a second and starts
      or ends inside the window; the selected gaps keep their relative order. */
  lemma SelectedMembers(gs: seq<Gap>, startTime: int, endTime: int)
    ensures forall g :: g in Selected(gs, startTime, endTime) <==>
      g in gs && g.stop - g.start > TicksPerSecond &&
      (startTime <= g.start <= endTime || startTime <= g.stop <= endTime)
    ensures SubsequenceOf(Selected(gs, startTime, endTime), gs)
  {
    forall g ensures g in Selected(gs, startTime, endTime) <==> g in gs && IsLong(g) && Intersects(g, startTime, endTime) {
      FilterMember(LongRanges(gs), InWindow(startTime, endTime), g);
      FilterMember(gs, IsLong, g);
    }
    FilterIsSubsequence(gs, IsLong);
    FilterIsSubsequence(LongRanges(gs), InWindow(startTime, endTime));
    SubsequenceTransitive(Selected(gs, startTime, endTime), LongRanges(gs), gs);
  }

  /** Every shown gap starts at or after 0 and ends at or before end_time. */
  lemma PresentBounds(ranges: Option<seq<Gap>>, startTime: int, endTime: int)
    ensures forall i :: 0 <= i < |Present(ranges, startTime, endTime)| ==>
      Present(ranges, startTime, endTime)[i].start >= 0 && Present(ranges, startTime, endTime)[i].stop <= endTime
  {
    if startTime != endTime && ranges.Some? {
      PresentShiftsSelected(ranges.value, startTime, endTime);
    }
  }

  /** A gap that starts before the window and ends after it is not shown. */
  lemma EnclosingGapDropped(gs: seq<Gap>, startTime: int, endTime: int, g: Gap)
    requires g.start < startTime && endTime < g.stop
    ensures g !in Selected(gs, startTime, endTime)
  {
    SelectedMembers(gs, startTime, endTime);
  }

  /** A window whose start is after its end covers nothing, so nothing is shown. */
  lemma ReversedWindowShowsNothing(gs: seq<Gap>, startTime: int, endTime: int)
    requires startTime > endTime
    ensures Present(Some(gs), startTime, endTime) == []
  {
    PresentShiftsSelected(gs, startTime, endTime);
    var long := LongRanges(gs);
    assert forall i :: 0 <= i < |long| ==> !InWindow(startTime, endTime)(long[i]);
    FilterNone(long, InWindow(startTime, endTime));
  }

  /** The end is clamped at end_time itself, not at the window's length
      end_time - start_time: on any window start_time..end_time with
      0 < start_time, a gap starting at end_time and lasting start_time
      plus more than a second is shown ending at end_time, after the
      window's length. */
  lemma EndClampedAtEndTime(startTime: int, endTime: int)
    requires 0 < startTime < endTime
    ensures Present(Some([Gap(endTime, endTime + startTime + 11)]), startTime, endTime) == [Shown(endTime - startTime, endTime)]
    ensures Present(Some([Gap(endTime, endTime + startTime + 11)]), startTime, endTime)[0].stop > endTime - startTime
  {
    var g := Gap(endTime, endTime + startTime + 11);
    assert [g][..0] == [];
    assert LongRanges([g]) == [g];
    assert Selected([g], startTime, endTime) == [g];
    PresentShiftsSelected([g], startTime, endTime);
    assert ShiftAll([g], startTime, endTime) == [Shift(g, startTime, endTime)];
  }

  // ---------------------------------------------------------------------
  // The caller's list and the presenter's call

  /** The caller's array of gaps, which remove_short_ranges changes in place. */
  class GapList {
    var items: seq<Gap>

    constructor (items: seq<Gap>)
      ensures this.items == items
    {
      this.items := items;
    }
  }

  /** remove_short_ranges: `delete_if` deletes from the caller's list every
      gap lasting one second or less, keeping the order of the others. */
  method RemoveShortRanges(list: GapList)
    modifies list
    ensures list.items == LongRanges(old(list.items))
  {
    var kept: seq<Gap> := [];
    var i := 0;
    while i < |list.items|
      invariant 0 <= i <= |list.items|
      invariant list.items == old(list.items)
      invariant kept == LongRanges(list.items[..i])
    {
      assert list.items[..i + 1][..i] == list.items[..i];
      if IsLong(list.items[i]) {
        kept := kept + [list.items[i]];
      }
      i := i + 1;
    }
    assert list.items[..i] == list.items;
    list.items := kept;
  }

  /** call: the shown gaps; when the window is not empty and the list is
      not nil, the short gaps are also deleted from the caller's list. */
  method Call(ranges: GapList?, startTime: int, endTime: int) returns (out: seq<Shown>)
    modifies ranges
    ensures out == Present(if ranges == null then None else Some(old(ranges.items)), startTime, endTime)
    ensures ranges != null && startTime != endTime ==> ranges.items == LongRanges(old(ranges.items))
    ensures ranges != null && startTime == endTime ==> ranges.items == old(ranges.items)
  {
    if startTime == endTime {
      return [];
    }
    if ranges == null {
      return [];
    }
    RemoveShortRanges(ranges);
    out := Compact(Rearrange(ranges.items, startTime, endTime));
  }
}
