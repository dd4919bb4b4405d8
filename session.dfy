/**
 * The observable state of a DomColor extension and the effect of each of its
 * operations on that state, as pure functions. The class in DomColorExt is
 * proved to follow these functions; the lemmas here state what a session of
 * trigger, worker and polling ticks does.
 */
module Session {
  import opened Centroids
  import opened Ramp

  datatype Option<T> = None | Some(value: T)

  /** The values of the extension's image-process status parameter. */
  datatype Status = Standby | Processing | Ready

  /** An item of the result queue: the worker's status string, or its sorted result rows. */
  datatype Message = ProcessingMarker | SortedColors(colors: seq<LumColor>)

  /**
   * Everything the extension's operations read or write: the queue, the
   * status parameter, the polling flag of the execute operator (framestart),
   * the two Python lists, the luminance range, the ramp table, the width of
   * the shader operator and the clusters-within-bounds parameter.
   */
  datatype Snapshot = Snapshot(
    queue: seq<Message>,
    status: Status,
    polling: bool,
    luminList: seq<int>,
    colorsForDAT: seq<seq<real>>,
    luminRange: (real, real),
    rampRows: seq<seq<Cell>>,
    resolutionW: int,
    clustersWithinBounds: int)

  /** The state after initialisation; the ramp table and the two counters belong to the host and keep their values. */
  function Initial(rampRows: seq<seq<Cell>>, resolutionW: int, clustersWithinBounds: int): Snapshot {
    Snapshot([], Standby, false, [], [], (0.0, 1.0), rampRows, resolutionW, clustersWithinBounds)
  }

  /** Fill_ramp either returns, or raises ZeroDivisionError when it lays out exactly one entry. */
  datatype FillResult = Completed(after: Snapshot) | DivisionByZero(after: Snapshot)

  /** The effect of Fill_ramp with bounds lo and hi. */
  function FillRampStep(s: Snapshot, sortedColors: Option<seq<LumColor>>, lo: real, hi: real): FillResult {
    var t := s.(rampRows := [Header], luminRange := (lo, hi));
    match sortedColors
    case None => Completed(t)
    case Some(cs) =>
      var entries := s.colorsForDAT + Survivors(cs, lo, hi);
      if |entries| == 1 then
        DivisionByZero(t.(colorsForDAT := entries))
      else
        Completed(t.(colorsForDAT := LaidOut(entries), rampRows := RampTable(entries),
                     resolutionW := |entries|, clustersWithinBounds := |entries|))
  }

  /** The effect of one call of Queue_examine; every exception it meets is swallowed. */
  function ExamineStep(s: Snapshot, lo: real, hi: real): Snapshot {
    if s.queue == [] then s
    else
      match s.queue[0]
      case ProcessingMarker => s.(queue := s.queue[1..], status := Processing)
      case SortedColors(cs) =>
        match FillRampStep(s.(queue := s.queue[1..]), Some(cs), lo, hi)
        case Completed(t) => t.(status := Ready, polling := false)
        case DivisionByZero(t) => t
  }

  /** The effect of the worker thread: two puts on the queue, nothing else. */
  function WorkerStep(s: Snapshot, centres: seq<Centre>): Snapshot {
    s.(queue := s.queue + [ProcessingMarker, SortedColors(Payload(centres))])
  }

  /** The effect of Process_image on the state (the file save and the thread start are outside). */
  function ProcessImageStep(s: Snapshot): Snapshot {
    s.(luminList := [], colorsForDAT := [], polling := true)
  }

  /** n polling ticks with the same bounds. */
  function Ticks(s: Snapshot, lo: real, hi: real, n: nat): Snapshot
    decreases n
  {
    if n == 0 then s else Ticks(ExamineStep(s, lo, hi), lo, hi, n - 1)
  }

  // ---------------------------------------------------------------------
  // Fill_ramp
  // ---------------------------------------------------------------------

  /** Without input only the header is written; the colour list and both counters keep their values. */
  lemma FillRampWithoutInput(s: Snapshot, lo: real, hi: real)
    ensures FillRampStep(s, None, lo, hi).Completed?
    ensures FillRampStep(s, None, lo, hi).after.rampRows == [Header]
    ensures var t := FillRampStep(s, None, lo, hi).after;
      t.colorsForDAT == s.colorsForDAT && t.resolutionW == s.resolutionW &&
      t.clustersWithinBounds == s.clustersWithinBounds && t.queue == s.queue &&
      t.status == s.status && t.polling == s.polling
  {
  }

  /**
   * With input, the survivors are appended to the existing colour list (it is
   * never reset here); unless that makes exactly one entry, every entry gets
   * its position and alpha, the table holds the header and one six-value row
   * per entry, and both counters are the number of entries.
   */
  lemma FillRampLayout(s: Snapshot, cs: seq<LumColor>, lo: real, hi: real)
    requires forall i :: 0 <= i < |s.colorsForDAT| ==> |s.colorsForDAT[i]| == 4
    requires |s.colorsForDAT| + |Survivors(cs, lo, hi)| != 1
    ensures var entries := s.colorsForDAT + Survivors(cs, lo, hi);
      var r := FillRampStep(s, Some(cs), lo, hi);
      var m := |entries|;
      r.Completed? &&
      |r.after.colorsForDAT| == m &&
      (forall i :: 0 <= i < m ==> r.after.colorsForDAT[i] == [Position(i, m)] + entries[i] + [1.0]) &&
      r.after.resolutionW == m && r.after.clustersWithinBounds == m &&
      |r.after.rampRows| == m + 1 && r.after.rampRows[0] == Header &&
      (forall i :: 0 <= i < m ==>
        |r.after.rampRows[i + 1]| == 6 &&
        r.after.rampRows[i + 1][0] == Num(Position(i, m)) &&
        r.after.rampRows[i + 1][1..5] == Cells(entries[i]) &&
        r.after.rampRows[i + 1][5] == Num(1.0))
  {
    var entries := s.colorsForDAT + Survivors(cs, lo, hi);
    SurvivorsLength(cs, lo, hi);
    assert forall i :: 0 <= i < |entries| ==> |entries[i]| == 4;
    RampTableShape(entries);
  }

  /** When exactly one entry results, the division at the first position raises: header only, counters untouched. */
  lemma FillRampSingleEntry(s: Snapshot, cs: seq<LumColor>, lo: real, hi: real)
    requires |s.colorsForDAT| + |Survivors(cs, lo, hi)| == 1
    ensures var r := FillRampStep(s, Some(cs), lo, hi);
      r.DivisionByZero? && r.after.rampRows == [Header] &&
      r.after.colorsForDAT == s.colorsForDAT + Survivors(cs, lo, hi) &&
      r.after.resolutionW == s.resolutionW && r.after.clustersWithinBounds == s.clustersWithinBounds
  {
  }

  // ---------------------------------------------------------------------
  // Queue_examine and the session
  // ---------------------------------------------------------------------

  /**
   * The poller's transitions: an empty queue changes nothing; the status
   * string sets Processing and leaves polling as it was; a result is handed
   * to Fill_ramp and, when that returns, sets Ready and turns polling off.
   */
  lemma ExamineTransitions(s: Snapshot, lo: real, hi: real)
    ensures s.queue == [] ==> ExamineStep(s, lo, hi) == s
    ensures s.queue != [] ==> ExamineStep(s, lo, hi).queue == s.queue[1..]
    ensures s.queue != [] && s.queue[0] == ProcessingMarker ==>
      var t := ExamineStep(s, lo, hi);
      t.status == Processing && t.polling == s.polling && t.rampRows == s.rampRows &&
      t.colorsForDAT == s.colorsForDAT
    ensures s.queue != [] && s.queue[0].SortedColors? ==>
      var t := ExamineStep(s, lo, hi);
      var r := FillRampStep(s.(queue := s.queue[1..]), Some(s.queue[0].colors), lo, hi);
      (r.Completed? ==> t == r.after.(status := Ready, polling := false)) &&
      (r.DivisionByZero? ==> t == r.after && t.status == s.status && t.polling == s.polling)
  {
  }

  /** Once the queue is empty, further ticks change nothing. */
  lemma {:induction false} IdleTicks(s: Snapshot, lo: real, hi: real, n: nat)
    requires s.queue == []
    ensures Ticks(s, lo, hi, n) == s
    decreases n
  {
    if n > 0 {
      IdleTicks(ExamineStep(s, lo, hi), lo, hi, n - 1);
    }
  }

  /** The worker appends exactly two items, the status string first and then its sorted result. */
  lemma WorkerMessages(s: Snapshot, centres: seq<Centre>)
    ensures var q := WorkerStep(s, centres).queue;
      |q| == |s.queue| + 2 && q[..|s.queue|] == s.queue &&
      q[|s.queue|] == ProcessingMarker && q[|s.queue| + 1] == SortedColors(Payload(centres))
    ensures WorkerStep(s, centres).(queue := s.queue) == s
  {
  }

  /** The first tick of a session takes the status string. */
  lemma FirstTick(w: Snapshot, p: seq<LumColor>, lo: real, hi: real)
    requires w.queue == [ProcessingMarker, SortedColors(p)]
    ensures ExamineStep(w, lo, hi) == w.(queue := [SortedColors(p)], status := Processing)
  {
    assert w.queue[1..] == [SortedColors(p)];
  }

  /** The second tick of a session, on a freshly reset colour list, hands the result to Fill_ramp. */
  lemma SecondTick(t1: Snapshot, p: seq<LumColor>, lo: real, hi: real)
    requires t1.queue == [SortedColors(p)] && t1.colorsForDAT == []
    ensures var t2 := ExamineStep(t1, lo, hi);
      var survivors := Survivors(p, lo, hi);
      t2.queue == [] &&
      (|survivors| == 1 ==> t2.status == t1.status && t2.polling == t1.polling && t2.rampRows == [Header]) &&
      (|survivors| != 1 ==>
        t2.status == Ready && !t2.polling && t2.rampRows == RampTable(survivors) &&
        t2.resolutionW == |survivors| && t2.clustersWithinBounds == |survivors|)
  {
    assert t1.queue[1..] == [];
    assert [] + Survivors(p, lo, hi) == Survivors(p, lo, hi);
  }

  /**
   * A whole session, triggered on an idle queue: the first tick reports
   * Processing with polling still on, and from the second tick on the status
   * is Ready with polling off and the ramp built from the survivors of the
   * sorted result, unless exactly one colour survives, in which case the
   * swallowed division by zero leaves the status at Processing and polling on
   * for good. Ready is therefore never reported before Processing.
   */
  lemma {:induction false} SessionOrder(s: Snapshot, centres: seq<Centre>, lo: real, hi: real, n: nat)
    requires s.queue == []
    ensures var w := WorkerStep(ProcessImageStep(s), centres);
      var t := Ticks(w, lo, hi, n);
      var survivors := Survivors(Payload(centres), lo, hi);
      (n == 0 ==> t == w) &&
      (n == 1 ==> t.status == Processing && t.polling && t.queue == [SortedColors(Payload(centres))]) &&
      (n >= 2 && |survivors| == 1 ==> t.status == Processing && t.polling && t.rampRows == [Header]) &&
      (n >= 2 && |survivors| != 1 ==>
        t.status == Ready && !t.polling && t.queue == [] &&
        t.rampRows == RampTable(survivors) &&
        t.resolutionW == |survivors| && t.clustersWithinBounds == |survivors|)
  {
    var p := Payload(centres);
    var w := WorkerStep(ProcessImageStep(s), centres);
    assert w.queue == [ProcessingMarker, SortedColors(p)];
    var t1 := ExamineStep(w, lo, hi);
    FirstTick(w, p, lo, hi);
    if n == 1 {
      assert Ticks(w, lo, hi, 1) == Ticks(t1, lo, hi, 0) == t1;
    } else if n >= 2 {
      var t2 := ExamineStep(t1, lo, hi);
      SecondTick(t1, p, lo, hi);
      assert Ticks(w, lo, hi, n) == Ticks(t1, lo, hi, n - 1) == Ticks(t2, lo, hi, n - 2);
      IdleTicks(t2, lo, hi, n - 2);
    }
  }

  lemma SortTwo(a: LumColor, b: LumColor)
    requires b.lum < a.lum
    ensures SortByLuminance([a, b]) == [b, a]
  {
    assert [a, b][..1] == [a] && [a][..0] == [];
    assert SortByLuminance([a]) == [a];
    assert Insert([], b) == [b];
    assert Insert([a], b) == [b, a];
  }

  lemma TwoColourRows()
    ensures Annotated(TruncateAll([Centre(250.0, 250.0, 250.0), Centre(10.0, 10.0, 10.0)])) ==
      [LumColor(250, 250, 250, 250), LumColor(10, 10, 10, 10)]
  {
    var centres := [Centre(250.0, 250.0, 250.0), Centre(10.0, 10.0, 10.0)];
    LuminanceExamples();
    assert TruncateAll(centres) == [Rgb(250, 250, 250), Rgb(10, 10, 10)];
    AnnotatedRows(TruncateAll(centres));
  }

  /** The worker's result for the two centres (250, 250, 250) and (10, 10, 10): darker first. */
  lemma TwoColourPayload()
    ensures Payload([Centre(250.0, 250.0, 250.0), Centre(10.0, 10.0, 10.0)]) ==
      [LumColor(10, 10, 10, 10), LumColor(250, 250, 250, 250)]
  {
    TwoColourRows();
    SortTwo(LumColor(250, 250, 250, 250), LumColor(10, 10, 10, 10));
  }

  lemma TwoColourTable()
    ensures var dark, light := 10.0 / 255.0, 250.0 / 255.0;
      RampTable([[dark, dark, dark, dark], [light, light, light, light]]) ==
        [Header, Cells([0.0, dark, dark, dark, dark, 1.0]), Cells([1.0, light, light, light, light, 1.0])]
  {
    var dark, light := 10.0 / 255.0, 250.0 / 255.0;
    var es := [[dark, dark, dark, dark], [light, light, light, light]];
    var laid := LaidOut(es);
    assert Position(0, 2) == 0.0 && Position(1, 2) == 1.0;
    assert laid[0] == [0.0, dark, dark, dark, dark, 1.0];
    assert laid[1] == [1.0, light, light, light, light, 1.0];
    assert Rows(laid) == [Cells(laid[0]), Cells(laid[1])];
  }

  lemma TwoColourSurvivors()
    ensures var dark, light := 10.0 / 255.0, 250.0 / 255.0;
      Survivors([LumColor(10, 10, 10, 10), LumColor(250, 250, 250, 250)], 0.0, 1.0) ==
        [[dark, dark, dark, dark], [light, light, light, light]]
  {
    var sorted := [LumColor(10, 10, 10, 10), LumColor(250, 250, 250, 250)];
    assert sorted[..1] == [LumColor(10, 10, 10, 10)];
    assert sorted[..1][..0] == [];
  }

  /**
   * The two-colour scenario: centres (250, 250, 250) and (10, 10, 10) with
   * bounds [0, 1] give, after two ticks, a ready ramp of two rows at
   * positions 0 and 1 in ascending luminance order.
   */
  lemma TwoColourSession(s: Snapshot)
    requires s.queue == []
    ensures var w := WorkerStep(ProcessImageStep(s), [Centre(250.0, 250.0, 250.0), Centre(10.0, 10.0, 10.0)]);
      var t := Ticks(w, 0.0, 1.0, 2);
      var dark, light := 10.0 / 255.0, 250.0 / 255.0;
      t.status == Ready && !t.polling && t.clustersWithinBounds == 2 &&
      t.rampRows == [Header,
                     Cells([0.0, dark, dark, dark, dark, 1.0]),
                     Cells([1.0, light, light, light, light, 1.0])]
  {
    var centres := [Centre(250.0, 250.0, 250.0), Centre(10.0, 10.0, 10.0)];
    TwoColourPayload();
    TwoColourSurvivors();
    SessionOrder(s, centres, 0.0, 1.0, 2);
    TwoColourTable();
  }
}
