/**
  The J32 crank wheel at constant speed, and when the decoder finds its place on it.

  The 22 teeth carry the labels 24, 1..14 (a string of fifteen) and 16..22 (a string of seven).
  Labels 14 and 22 are wide teeth, and a missing tooth precedes labels 16 and 24.
*/
module HondaJ32Wheel {
  import opened Machine
  import opened HondaJ32

  /** The intervals into a plain tooth, into a wide tooth, and across a missing tooth. */
  datatype Spacing = Spacing(regular: nat, wide: nat, gap: nat)
  {
    /** Plain and wide teeth are never far enough apart to look like a missing tooth. */
    predicate Sane() {
      0 < regular <= wide <= gap && wide < regular / 2 * 3 && gap * 3 < TWO32
    }

    /** The interval across a missing tooth is long enough after a wide tooth. */
    predicate GapVisible() {
      gap >= wide / 2 * 3
    }

    function Into(tooth: int): nat {
      if tooth == 14 || tooth == 22 then wide
      else if tooth == 16 || tooth == 24 then gap
      else regular
    }

    function Turn(): nat { 18 * regular + 2 * wide + 2 * gap }

    /** The first turn, as the decoder measures it: tooth 1 is put fifteen wide intervals before tooth 16. */
    function FirstEstimate(): nat { 6 * regular + 16 * wide + gap }
  }

  predicate IsLabel(tooth: int) { 1 <= tooth <= 24 && tooth != 15 && tooth != 23 }

  function NextLabel(tooth: int): int {
    if tooth == 24 then 1 else if tooth == 14 then 16 else if tooth == 22 then 24 else tooth + 1
  }

  /** The teeth passed since the last gap, this one included. */
  function PlaceInString(tooth: int): int {
    if tooth == 24 then 1 else if tooth <= 14 then tooth + 1 else tooth - 15
  }

  predicate LongString(tooth: int) { tooth == 24 || tooth <= 14 }

  /** The wheel at 15, 18 and 27 degrees, turning through 3 degrees in `u` microseconds. */
  lemma RealWheel(u: nat)
    requires 2 <= u && 27 * u < TWO32
    ensures Spacing(5 * u, 6 * u, 9 * u).Sane() && Spacing(5 * u, 6 * u, 9 * u).GapVisible()
    ensures !Spacing(5 * u, 6 * u, 9 * u - 1).GapVisible()
  {
  }

  /** The first edge seen: its tooth and its true time. */
  datatype Start = Start(spacing: Spacing, first: int, time: nat)
  {
    predicate Valid() { spacing.Sane() && IsLabel(first) }

    /**
      The first interval is measured from time zero. Unless its stamp is zero, it must be long
      enough for the next plain tooth not to look like a missing one.
    */
    predicate FirstStampUsable() {
      Stamp(time) == 0 || BigGap(Stamp(time)) > spacing.regular
    }

    function LabelAt(n: nat): (tooth: int)
      requires Valid()
      ensures IsLabel(tooth)
    {
      if n == 0 then first else NextLabel(LabelAt(n - 1))
    }

    function TimeAt(n: nat): nat
      requires Valid()
    {
      if n == 0 then time else TimeAt(n - 1) + spacing.Into(LabelAt(n))
    }

    function StateAt(n: nat): State
      requires Valid()
    {
      EdgeStep(if n == 0 then SetupState else StateAt(n - 1), Stamp(TimeAt(n)))
    }
  }

  // ------------------------------------------------------------------ before sync

  /** No plain interval has been accepted yet, so the first stamp still stands as the last gap. */
  ghost predicate Fresh(st: Start, s: State, tooth: int) {
    && s.sync.None? && s.count == 1 && s.lastGap == Stamp(st.time) != 0
    && (tooth == 14 || tooth == 16 || tooth == 22 || tooth == 24)
    && (if tooth == 14 || tooth == 22 then st.spacing.wide >= BigGap(s.lastGap)
        else st.spacing.gap >= BigGap(s.lastGap))
  }

  ghost predicate FreshAt(st: Start, s: State, n: nat, tooth: int) {
    Fresh(st, s, tooth) && (n == 1 || (n == 2 && (tooth == 16 || tooth == 24)))
  }

  ghost predicate LastGapSettled(sp: Spacing, s: State, tooth: int) {
    if tooth == 14 || tooth == 22 then s.lastGap == sp.wide
    else if tooth == 16 || tooth == 24 then s.lastGap == sp.wide || s.lastGap == sp.gap
    else s.lastGap == sp.regular
  }

  /** Counting teeth since the last gap, or since the start, with at most one too many. */
  ghost predicate Counting(st: Start, s: State, tooth: int) {
    s.sync.None? && LastGapSettled(st.spacing, s, tooth) && 1 <= s.count <= PlaceInString(tooth) + 1
  }

  /** An upper bound on the edges still to come before sync. */
  function Remaining(s: State, tooth: int): int {
    if !LongString(tooth) then 23 - PlaceInString(tooth)
    else if s.count == PlaceInString(tooth) then 16 - PlaceInString(tooth)
    else 38 - PlaceInString(tooth)
  }

  // ------------------------------------------------------------------ in sync

  /** The time since tooth 1; in the first turn after sync, since the decoder's estimate of it. */
  function SinceToothOne(sp: Spacing, tooth: int, firstTurn: bool): int {
    if tooth <= 13 then (tooth - 1) * sp.regular
    else if tooth == 14 then 12 * sp.regular + sp.wide
    else
      (if firstTurn then 15 * sp.wide else 12 * sp.regular + sp.wide + sp.gap)
      + (if tooth <= 21 then (tooth - 16) * sp.regular
         else 5 * sp.regular + sp.wide + if tooth == 24 then sp.gap else 0)
  }

  /** The count is the tooth and the next gap will be recognised. */
  ghost predicate Synced(st: Start, s: State, tooth: int, time: int, firstTurn: bool) {
    && s.sync.Full? && s.count == tooth
    && (2 <= tooth <= 14 || 17 <= tooth <= 22 ==> s.lastGap == st.spacing.regular)
    && (firstTurn ==> 16 <= tooth)
    && s.toothOne == Stamp(time - SinceToothOne(st.spacing, tooth, firstTurn))
  }

  ghost predicate Found(st: Start, s: State, tooth: int, time: int) {
    Synced(st, s, tooth, time, true) || Synced(st, s, tooth, time, false)
  }

  ghost predicate Phase(st: Start, s: State, n: nat, tooth: int, time: int) {
    && s.last == Stamp(time)
    && (|| Found(st, s, tooth, time)
        || (Counting(st, s, tooth) && Remaining(s, tooth) <= 38 - n)
        || FreshAt(st, s, n, tooth))
  }

  /** The edge `interval` later, as the decoder sees it. */
  lemma EdgeSees(s: State, time: int, interval: nat)
    requires s.last == Stamp(time) && interval < TWO32
    ensures var now := Stamp(time + interval);
      EdgeStep(s, now) ==
      if s.sync.Full? then SyncedEdge(s.(last := now), now, interval) else SearchingEdge(s.(last := now), now, interval)
  {
    StampDifference(time + interval, time);
  }

  /** An edge that does not cross a missing tooth is counted. */
  lemma CountingTooth(st: Start, s: State, tooth: int, time: nat)
    requires st.Valid() && IsLabel(tooth) && tooth != 14 && tooth != 22
    requires s.last == Stamp(time) && Counting(st, s, tooth)
    ensures var tooth' := NextLabel(tooth);
      var s' := EdgeStep(s, Stamp(time + st.spacing.Into(tooth')));
      Counting(st, s', tooth') && Remaining(s', tooth') == Remaining(s, tooth) - 1
  {
    EdgeSees(s, time, st.spacing.Into(NextLabel(tooth)));
    assert st.spacing.Into(NextLabel(tooth)) < BigGap(s.lastGap);
    assert Next16(s.count) == s.count + 1;
  }

  /** A missing tooth is recognised, and taken for the second one exactly when it is. */
  lemma CountingGap(st: Start, s: State, tooth: int, time: nat)
    requires st.Valid() && st.spacing.GapVisible() && (tooth == 14 || tooth == 22)
    requires s.last == Stamp(time) && Counting(st, s, tooth)
    ensures var tooth' := NextLabel(tooth);
      var time' := time + st.spacing.Into(tooth');
      var s' := EdgeStep(s, Stamp(time'));
      && (Counting(st, s', tooth') || Synced(st, s', tooth', time', true))
      && (Counting(st, s', tooth') ==> Remaining(s', tooth') == Remaining(s, tooth) - 1)
  {
    var sp, time' := st.spacing, time + st.spacing.gap;
    EdgeSees(s, time, sp.gap);
    assert sp.Into(NextLabel(tooth)) == sp.gap >= BigGap(sp.wide);
    if s.count == 15 {
      FoundAtSecondGap(sp, s.(last := Stamp(time')), time');
      assert tooth == 14;
    }
  }

  /** The time of tooth 1 is worked out from fifteen intervals as long as the last. */
  lemma FoundAtSecondGap(sp: Spacing, s: State, time: nat)
    requires sp.Sane() && sp.GapVisible() && s.sync.None? && s.lastGap == sp.wide && s.count == 15
    ensures var s' := SearchingEdge(s, Stamp(time), sp.gap);
      s'.sync.Full? && s'.count == 16 && s'.toothOne == Stamp(time - SinceToothOne(sp, 16, true)) && s'.last == s.last
  {
    var periods := time / TWO32;
    assert Stamp(time) - 15 * sp.wide == (time - 15 * sp.wide) - TWO32 * periods;
    WholePeriods(time - 15 * sp.wide, periods);
  }

  lemma FreshStep(st: Start, s: State, tooth: int, time: nat)
    requires st.Valid() && st.FirstStampUsable() && IsLabel(tooth)
    requires s.last == Stamp(time) && Fresh(st, s, tooth)
    ensures var tooth' := NextLabel(tooth);
      var s' := EdgeStep(s, Stamp(time + st.spacing.Into(tooth')));
      && (if tooth == 14 || tooth == 22 then Fresh(st, s', tooth') else Counting(st, s', tooth'))
      && Remaining(s', tooth') <= 22
  {
    StampDifference(time + st.spacing.Into(NextLabel(tooth)), time);
  }

  lemma SinceAdvances(sp: Spacing, tooth: int, firstTurn: bool)
    requires IsLabel(tooth) && tooth != 24 && (firstTurn ==> 16 <= tooth)
    ensures SinceToothOne(sp, NextLabel(tooth), firstTurn) ==
            SinceToothOne(sp, tooth, firstTurn) + sp.Into(NextLabel(tooth))
  {
  }

  lemma SyncedStep(st: Start, s: State, tooth: int, time: nat, firstTurn: bool)
    requires st.Valid() && st.spacing.GapVisible() && IsLabel(tooth)
    requires s.last == Stamp(time) && Synced(st, s, tooth, time, firstTurn)
    ensures var tooth' := NextLabel(tooth);
      var time' := time + st.spacing.Into(tooth');
      Synced(st, EdgeStep(s, Stamp(time')), tooth', time', firstTurn && tooth' != 1)
  {
    var interval := st.spacing.Into(NextLabel(tooth));
    EdgeSees(s, time, interval);
    SyncedEdgeStays(st, s, tooth, time, firstTurn, interval);
  }

  lemma SyncedEdgeStays(st: Start, s: State, tooth: int, time: nat, firstTurn: bool, interval: nat)
    requires st.Valid() && st.spacing.GapVisible() && IsLabel(tooth) && interval == st.spacing.Into(NextLabel(tooth))
    requires Synced(st, s, tooth, time, firstTurn)
    ensures var tooth', now := NextLabel(tooth), Stamp(time + interval);
      Synced(st, SyncedEdge(s.(last := now), now, interval), tooth', time + interval, firstTurn && tooth' != 1)
  {
    assert Next16(s.count) == tooth + 1;
    if tooth != 24 {
      SinceAdvances(st.spacing, tooth, firstTurn);
    }
    if tooth == 14 || tooth == 22 {
      assert st.spacing.gap >= BigGap(s.lastGap);
    }
  }

  /** What is published as the revolution time at tooth 1: the truth, except in the first turn. */
  lemma RevolutionTimeAtToothOne(st: Start, s: State, time: nat, firstTurn: bool)
    requires st.Valid() && s.last == Stamp(time) && Synced(st, s, 24, time, firstTurn)
    ensures EdgeStep(s, Stamp(time + st.spacing.regular)).revolutionTime ==
            Stamp(if firstTurn then st.spacing.FirstEstimate() else st.spacing.Turn())
  {
    var since := SinceToothOne(st.spacing, 24, firstTurn);
    StampDifferenceWraps(time + st.spacing.regular, time - since);
  }

  lemma PhaseStep(st: Start, s: State, n: nat, tooth: int, time: nat)
    requires st.Valid() && st.spacing.GapVisible() && st.FirstStampUsable() && IsLabel(tooth)
    requires Phase(st, s, n, tooth, time)
    ensures var tooth' := NextLabel(tooth);
      var time' := time + st.spacing.Into(tooth');
      Phase(st, EdgeStep(s, Stamp(time')), n + 1, tooth', time')
  {
    var time' := time + st.spacing.Into(NextLabel(tooth));
    if Synced(st, s, tooth, time, true) {
      SyncedStep(st, s, tooth, time, true);
    } else if Synced(st, s, tooth, time, false) {
      SyncedStep(st, s, tooth, time, false);
    } else if FreshAt(st, s, n, tooth) {
      FreshStep(st, s, tooth, time);
    } else if tooth == 14 || tooth == 22 {
      CountingGap(st, s, tooth, time);
    } else {
      CountingTooth(st, s, tooth, time);
    }
  }

  lemma SecondEdge(st: Start)
    requires st.Valid() && st.FirstStampUsable()
    ensures Phase(st, st.StateAt(1), 1, st.LabelAt(1), st.TimeAt(1)) && Unseen(st, st.StateAt(1), st.LabelAt(1))
  {
    var s := st.StateAt(0);
    assert s == SetupState.(last := Stamp(st.time), lastGap := Stamp(st.time), count := 1);
    StampDifference(st.TimeAt(1), st.TimeAt(0));
  }

  lemma {:induction false} PhaseAt(st: Start, n: nat)
    requires st.Valid() && st.spacing.GapVisible() && st.FirstStampUsable() && n >= 1
    ensures Phase(st, st.StateAt(n), n, st.LabelAt(n), st.TimeAt(n))
    decreases n
  {
    if n == 1 {
      SecondEdge(st);
    } else {
      PhaseAt(st, n - 1);
      PhaseStep(st, st.StateAt(n - 1), n - 1, st.LabelAt(n - 1), st.TimeAt(n - 1));
    }
  }

  /** From the 39th edge on the decoder is in sync, at the true tooth. */
  lemma SyncedFromEdge38(st: Start, n: nat)
    requires st.Valid() && st.spacing.GapVisible() && st.FirstStampUsable() && n >= 38
    ensures st.StateAt(n).sync.Full? && st.StateAt(n).count == st.LabelAt(n)
  {
    PhaseAt(st, n);
  }

  // ------------------------------------------------------------------ when sync is impossible

  /** A first stamp that makes even a plain tooth look like a missing one is never replaced. */
  lemma {:induction false} StuckOnFirstStamp(st: Start, n: nat)
    requires st.Valid() && !st.FirstStampUsable()
    ensures var s := st.StateAt(n);
      s.last == Stamp(st.TimeAt(n)) && s.sync.None? && s.count == 1 && s.lastGap == Stamp(st.time)
    decreases n
  {
    if n > 0 {
      StuckOnFirstStamp(st, n - 1);
      StampDifference(st.TimeAt(n), st.TimeAt(n - 1));
    }
  }

  ghost predicate Unseen(st: Start, s: State, tooth: int) {
    s.sync.None? && (LastGapSettled(st.spacing, s, tooth) || Fresh(st, s, tooth))
  }

  /** After a settled interval, the interval that follows looks like a plain tooth. */
  lemma LooksPlain(sp: Spacing, s: State, tooth: int)
    requires sp.Sane() && !sp.GapVisible() && IsLabel(tooth) && LastGapSettled(sp, s, tooth)
    ensures sp.Into(NextLabel(tooth)) < BigGap(s.lastGap)
  {
  }

  lemma PlainEdge(s: State, now: uint32)
    requires s.sync.None? && Elapsed(now, s.last) < BigGap(s.lastGap)
    ensures EdgeStep(s, now).sync.None? && EdgeStep(s, now).lastGap == Elapsed(now, s.last)
  {
  }

  lemma UnseenStep(st: Start, s: State, tooth: int, time: nat)
    requires st.Valid() && st.FirstStampUsable() && !st.spacing.GapVisible() && IsLabel(tooth)
    requires s.last == Stamp(time) && Unseen(st, s, tooth)
    ensures var tooth' := NextLabel(tooth);
      Unseen(st, EdgeStep(s, Stamp(time + st.spacing.Into(tooth'))), tooth')
  {
    StampDifference(time + st.spacing.Into(NextLabel(tooth)), time);
    if Fresh(st, s, tooth) {
      FreshStep(st, s, tooth, time);
    } else {
      LooksPlain(st.spacing, s, tooth);
      PlainEdge(s, Stamp(time + st.spacing.Into(NextLabel(tooth))));
    }
  }

  /** A gap that does not stand out after a wide tooth is counted as one more tooth. */
  lemma {:induction false} GapsGoUnseen(st: Start, n: nat)
    requires st.Valid() && st.FirstStampUsable() && !st.spacing.GapVisible()
    ensures st.StateAt(n).sync.None? && st.StateAt(n).last == Stamp(st.TimeAt(n))
    ensures n >= 1 ==> Unseen(st, st.StateAt(n), st.LabelAt(n))
    decreases n
  {
    if n == 1 {
      SecondEdge(st);
    } else if n > 1 {
      GapsGoUnseen(st, n - 1);
      UnseenStep(st, st.StateAt(n - 1), st.LabelAt(n - 1), st.TimeAt(n - 1));
    }
  }

  /**
    Sync is ever reached if and only if the wheel's gap stands out after a wide tooth and the first
    stamp does not mask plain teeth; and then it is reached by the 39th edge.
  */
  lemma SyncReachedIff(st: Start)
    requires st.Valid()
    ensures (exists n: nat :: st.StateAt(n).sync.Full?) <==> st.spacing.GapVisible() && st.FirstStampUsable()
  {
    if st.spacing.GapVisible() && st.FirstStampUsable() {
      SyncedFromEdge38(st, 38);
    } else {
      forall n: nat
        ensures st.StateAt(n).sync.None?
      {
        if st.FirstStampUsable() { GapsGoUnseen(st, n); } else { StuckOnFirstStamp(st, n); }
      }
    }
  }

  /** Full sync never comes with a wrong tooth number, from the first edge on, on any such wheel. */
  lemma NeverFalselySynced(st: Start, n: nat)
    requires st.Valid()
    ensures st.StateAt(n).sync.Full? ==> st.StateAt(n).count == st.LabelAt(n)
  {
    if !st.FirstStampUsable() {
      StuckOnFirstStamp(st, n);
    } else if !st.spacing.GapVisible() {
      GapsGoUnseen(st, n);
    } else if n >= 1 {
      PhaseAt(st, n);
    }
  }

  // ------------------------------------------------------------------ in sync, any speed

  /** In sync, one edge keeps the count on the wheel exactly when a gap is not too short. */
  lemma SyncedEdgeTracksIff(s: State, tooth: int, now: uint32)
    requires IsLabel(tooth) && s.sync.Full? && s.count == tooth
    ensures var s' := EdgeStep(s, now);
      (s'.sync.Full? && s'.count == NextLabel(tooth)) <==>
      (tooth == 14 || tooth == 22 ==> Elapsed(now, s.last) >= BigGap(s.lastGap))
  {
  }
}
