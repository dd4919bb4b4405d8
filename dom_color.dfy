/**
 * The DomColor extension object. Its fields are the state it reads and
 * writes: the result queue, the status parameter, the execute operator's
 * polling flag, the two Python lists, the luminance range, the ramp table and
 * the two counters that Fill_ramp sets. Each method is proved to have the
 * effect of the matching step function of module Session.
 */
module DomColorExt {
  import opened Centroids
  import opened Ramp
  import opened Session

  class DomColor {
    var queue: seq<Message>
    var status: Status
    var polling: bool
    var luminList: seq<int>
    var colorsForDAT: seq<seq<real>>
    var luminRange: (real, real)
    var rampRows: seq<seq<Cell>>
    var resolutionW: int
    var clustersWithinBounds: int

    function Snapshot(): Snapshot
      reads this
    {
      Session.Snapshot(queue, status, polling, luminList, colorsForDAT, luminRange,
                       rampRows, resolutionW, clustersWithinBounds)
    }

    /** Initialisation: a fresh queue, status Standby, polling off, both lists empty, range (0, 1). */
    constructor (hostRampRows: seq<seq<Cell>>, hostResolutionW: int, hostClustersWithinBounds: int)
      ensures Snapshot() == Initial(hostRampRows, hostResolutionW, hostClustersWithinBounds)
    {
      rampRows := hostRampRows;
      luminList := [];
      colorsForDAT := [];
      luminRange := (0.0, 1.0);
      queue := [];
      status := Standby;
      polling := false;
      resolutionW := hostResolutionW;
      clustersWithinBounds := hostClustersWithinBounds;
    }

    /**
     * Fill_ramp: clears the table to its header, records the bounds, appends
     * the normalised survivors to the colour list, then gives every entry of
     * the list its position and alpha and writes it as a row. Returns true when
     * the position division raises (exactly one entry).
     */
    method FillRamp(sortedColors: Option<seq<LumColor>>, lo: real, hi: real) returns (raised: bool)
      modifies this
      ensures raised == FillRampStep(old(Snapshot()), sortedColors, lo, hi).DivisionByZero?
      ensures Snapshot() == FillRampStep(old(Snapshot()), sortedColors, lo, hi).after
    {
      rampRows := [Header];
      luminRange := (lo, hi);
      raised := false;
      if sortedColors.None? {
        return;
      }
      AppendSurvivors(sortedColors.value, lo, hi);
      raised := LayOut();
    }

    /** The first loop of Fill_ramp: normalise every row and append those within [lo, hi]. */
    method AppendSurvivors(cs: seq<LumColor>, lo: real, hi: real)
      modifies this
      ensures Snapshot() == old(Snapshot()).(colorsForDAT := old(colorsForDAT) + Survivors(cs, lo, hi))
    {
      var i := 0;
      while i < |cs|
        invariant 0 <= i <= |cs|
        invariant Snapshot() == old(Snapshot()).(colorsForDAT := old(colorsForDAT) + Survivors(cs[..i], lo, hi))
      {
        var normalized := Normalize(cs[i]);
        assert cs[..i + 1][..i] == cs[..i];
        if normalized[3] < lo || normalized[3] > hi {
        } else {
          colorsForDAT := colorsForDAT + [normalized];
        }
        i := i + 1;
      }
      assert cs[..i] == cs;
    }

    /**
     * The second loop of Fill_ramp and the two counters: each entry gets its
     * position in front and alpha 1 behind, in place, and is written as a
     * table row. With exactly one entry the first division raises.
     */
    method LayOut() returns (raised: bool)
      modifies this
      ensures raised == (|old(colorsForDAT)| == 1)
      ensures raised ==> Snapshot() == old(Snapshot())
      ensures !raised ==> Snapshot() == old(Snapshot()).(
        colorsForDAT := LaidOut(old(colorsForDAT)),
        rampRows := old(rampRows) + Rows(LaidOut(old(colorsForDAT))),
        resolutionW := |old(colorsForDAT)|,
        clustersWithinBounds := |old(colorsForDAT)|)
    {
      raised := false;
      var m := |colorsForDAT|;
      ghost var entries := colorsForDAT;
      var j := 0;
      while j < m
        invariant 0 <= j <= m == |colorsForDAT|
        invariant 0 < j ==> 2 <= m
        invariant forall k :: 0 <= k < j ==> colorsForDAT[k] == Placed(entries[k], k, m)
        invariant forall k :: j <= k < m ==> colorsForDAT[k] == entries[k]
        invariant rampRows == old(rampRows) + Rows(colorsForDAT[..j])
        invariant Snapshot() == old(Snapshot()).(colorsForDAT := colorsForDAT, rampRows := rampRows)
      {
        if m - 1 == 0 {
          raised := true;
          assert colorsForDAT == entries;
          return;
        }
        var pos := j as real / (m - 1) as real;
        var entry := [pos] + colorsForDAT[j] + [1.0];
        colorsForDAT := colorsForDAT[j := entry];
        assert colorsForDAT[..j + 1] == colorsForDAT[..j] + [entry];
        rampRows := rampRows + [Cells(entry)];
        j := j + 1;
      }
      assert colorsForDAT == LaidOut(entries);
      assert colorsForDAT[..j] == colorsForDAT;
      resolutionW := m;
      clustersWithinBounds := m;
    }

    /** Process_image: clears both lists and turns polling on (the save and the thread start are external). */
    method ProcessImage()
      modifies this
      ensures Snapshot() == ProcessImageStep(old(Snapshot()))
    {
      luminList := [];
      colorsForDAT := [];
      polling := true;
    }

    /**
     * The worker thread run to completion: it puts the status string, computes
     * the rows from the given cluster centres and puts the sorted rows.
     */
    method ProcessImageThreadWorker(centres: seq<Centre>)
      modifies this
      ensures Snapshot() == WorkerStep(old(Snapshot()), centres)
    {
      queue := queue + [ProcessingMarker];
      var rampColors := TruncateAll(centres);
      var lumins := LuminanceList(rampColors);
      var colorAndLumin := WithLuminance(rampColors, lumins);
      var sorted := SortByLuminance(colorAndLumin);
      queue := queue + [SortedColors(sorted)];
    }

    /**
     * Queue_examine: takes at most one item off the queue. The status string
     * sets Processing; anything else goes to Fill_ramp and then sets Ready and
     * turns polling off. An exception raised by Fill_ramp ends the call.
     */
    method QueueExamine(lo: real, hi: real)
      modifies this
      ensures Snapshot() == ExamineStep(old(Snapshot()), lo, hi)
    {
      if queue == [] {
        return;
      }
      var values := queue[0];
      queue := queue[1..];
      if values == ProcessingMarker {
        status := Processing;
      } else {
        var raised := FillRamp(Some(values.colors), lo, hi);
        if raised {
          return;
        }
        status := Ready;
        polling := false;
      }
    }
  }
}
