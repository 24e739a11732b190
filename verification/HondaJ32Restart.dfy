/**
  A J32 decoder after a stall. While a log is being taken the engine is only reset, which keeps the
  tooth count and the last gap; what becomes of the restart depends on both.
*/
module HondaJ32Restart {
  import opened Machine
  import opened HondaJ32
  import opened HondaJ32Wheel

  /** The first edge seen after the stall, what the decoder held before, and whether a log was being taken. */
  datatype Restart = Restart(start: Start, prior: State, logging: bool)
  {
    predicate Valid() { start.Valid() }

    function LabelAt(n: nat): (tooth: int)
      requires Valid()
      ensures IsLabel(tooth)
    {
      start.LabelAt(n)
    }

    function TimeAt(n: nat): nat
      requires Valid()
    {
      start.TimeAt(n)
    }

    function StateAt(n: nat): State
      requires Valid()
    {
      EdgeStep(if n == 0 then StalledState(logging, prior) else StateAt(n - 1), Stamp(TimeAt(n)))
    }

    function StaleCount(): uint16 { if logging then prior.count else 0 }

    function StaleGap(): uint32 { if logging then prior.lastGap else 0 }

    function FirstStamp(): uint32 { Stamp(start.time) }

    function SecondInterval(): nat { start.spacing.Into(NextLabel(start.first)) }

    /** The first edge does not look like one after a missing tooth, so its stamp becomes the last gap. */
    predicate FirstCounted() { StaleGap() == 0 || FirstStamp() < BigGap(StaleGap()) }

    /** Nor does the second. */
    predicate SecondCounted() {
      FirstCounted() && (FirstStamp() == 0 || SecondInterval() < BigGap(FirstStamp()))
    }

    /** The last gap after the first edge. */
    function KeptGap(): uint32 { if FirstCounted() then FirstStamp() else StaleGap() }

    /** It does not make plain teeth look like missing ones. */
    predicate KeptGapUsable() { KeptGap() == 0 || BigGap(KeptGap()) > start.spacing.regular }

    /** The stale count is fifteen at an edge that looks like one after a missing tooth. */
    predicate FullAtFirst() { !FirstCounted() && StaleCount() == 15 }

    predicate FullAtSecond() { FirstCounted() && !SecondCounted() && StaleCount() == 14 }

    predicate FullAtOnce() { FullAtFirst() || FullAtSecond() }

    /** Such an edge happens to be that of tooth 16. */
    predicate RightAtOnce() {
      (FullAtFirst() && start.first == 16) || (FullAtSecond() && NextLabel(start.first) == 16)
    }

    /** The edge, from the third on, that first crosses a missing tooth. */
    function GapAt(): int {
      if start.first <= 13 then 15 - start.first
      else if start.first == 14 then 8
      else if start.first <= 21 then 23 - start.first
      else if start.first == 22 then 16
      else 15
    }

    /** It ends the string of seven. */
    predicate GapEndsShortString() { start.first == 14 || 16 <= start.first <= 21 }

    /** The stale count reaches fifteen at the wrong missing tooth. */
    predicate FullTooSoon() {
      start.spacing.GapVisible() && SecondCounted() && GapEndsShortString() && StaleCount() + GapAt() == 15
    }

    predicate FalselySyncs() {
      (FullAtOnce() && !RightAtOnce()) || FullTooSoon()
    }

    /**
      Sync is found and kept: where gaps stand out after wide teeth, unless a gap was kept that makes
      plain teeth look like missing ones; elsewhere by good luck alone.
    */
    predicate SyncsForGood()
      requires Valid()
    {
      if start.spacing.GapVisible() then FullAtOnce() || KeptGapUsable()
      else RightAtOnce() && start.spacing.gap >= BigGap(start.spacing.regular)
    }

    /** The same wheel, first seen when the counter reads `gap`. */
    function AsStart(gap: nat): Start { start.(time := gap) }

    ghost predicate OnTooth(n: nat)
      requires Valid()
    {
      StateAt(n).sync.Full? && StateAt(n).count == LabelAt(n)
    }
  }

  lemma NextEdge(r: Restart, n: nat)
    requires r.Valid() && n > 0
    ensures r.LabelAt(n) == NextLabel(r.LabelAt(n - 1))
    ensures r.TimeAt(n) == r.TimeAt(n - 1) + r.start.spacing.Into(r.LabelAt(n))
    ensures r.StateAt(n) == EdgeStep(r.StateAt(n - 1), Stamp(r.TimeAt(n)))
    ensures r.StateAt(n - 1).last == Stamp(r.TimeAt(n - 1)) && r.StateAt(n).last == Stamp(r.TimeAt(n))
  {
    LastIsStamped(r, n - 1);
    LastIsStamped(r, n);
  }

  lemma LastIsStamped(r: Restart, n: nat)
    requires r.Valid()
    ensures r.StateAt(n).last == Stamp(r.TimeAt(n))
  {
  }

  // ------------------------------------------------------------------ one edge

  /** One edge of a wheel. */
  ghost predicate Moves(sp: Spacing, s: State, tooth: int, s': State, tooth': int) {
    && sp.Sane() && IsLabel(tooth) && tooth' == NextLabel(tooth)
    && (var interval := sp.Into(tooth');
        exists now: uint32 :: s' == if s.sync.Full? then SyncedEdge(s.(last := now), now, interval)
                                    else SearchingEdge(s.(last := now), now, interval))
  }

  lemma EdgeMoves(r: Restart, n: nat)
    requires r.Valid() && n > 0
    ensures Moves(r.start.spacing, r.StateAt(n - 1), r.LabelAt(n - 1), r.StateAt(n), r.LabelAt(n))
  {
    NextEdge(r, n);
    EdgeSees(r.StateAt(n - 1), r.TimeAt(n - 1), r.start.spacing.Into(r.LabelAt(n)));
  }

  predicate IsInterval(sp: Spacing, gap: uint32) { gap == sp.regular || gap == sp.wide || gap == sp.gap }

  /** In sync at the true tooth, whatever tooth 1 is believed to have been. */
  predicate InPlace(sp: Spacing, s: State, tooth: int) {
    && s.sync.Full? && s.count == tooth
    && (2 <= tooth <= 14 || 17 <= tooth <= 22 ==> s.lastGap == sp.regular)
  }

  /** In sync at a wrong tooth. */
  predicate Astray(sp: Spacing, s: State, tooth: int) {
    && s.sync.Full? && IsLabel(s.count) && s.count != tooth
    && (2 <= s.count <= 14 || 17 <= s.count <= 22 ==> IsInterval(sp, s.lastGap))
  }

  /** Sync has just been lost, or a gap has been seen right after that. */
  predicate Recovering(sp: Spacing, s: State) {
    s.sync.None? && s.count == 1 && IsInterval(sp, s.lastGap)
  }

  lemma InPlaceStep(sp: Spacing, s: State, tooth: int, s': State, tooth': int)
    requires Moves(sp, s, tooth, s', tooth') && InPlace(sp, s, tooth)
    ensures if (tooth == 14 || tooth == 22) && sp.gap < BigGap(sp.regular) then Recovering(sp, s')
            else InPlace(sp, s', tooth')
  {
  }

  lemma RecoveringStep(st: Start, s: State, tooth: int, s': State, tooth': int)
    requires Moves(st.spacing, s, tooth, s', tooth') && Recovering(st.spacing, s)
    ensures Counting(st, s', tooth') || (Recovering(st.spacing, s') && (tooth' == 16 || tooth' == 24))
  {
  }

  /** The place of a tooth among the twenty-two. */
  function Index(tooth: int): int { if tooth == 24 then 0 else if tooth <= 14 then tooth else tooth - 1 }

  /** The count is so far off that it reaches 24 at tooth 16. */
  predicate ShortForLong(count: int, tooth: int) {
    Index(tooth) == Index(count) + 15 || Index(tooth) == Index(count) - 7
  }

  /** The edges until the count expects a missing tooth where there is none. */
  function AstrayLeft(count: int, tooth: int): int {
    if !ShortForLong(count, tooth) then 22 - Index(count)
    else if Index(count) < 15 then 15 - Index(count) else 37 - Index(count)
  }

  /** After any interval of the wheel, neither plain nor wide teeth look like missing ones. */
  lemma IntervalsMaskTeeth(sp: Spacing, gap: uint32)
    requires sp.Sane() && IsInterval(sp, gap)
    ensures BigGap(gap) > sp.wide >= sp.regular
  {
    assert gap / 2 * 3 >= sp.regular / 2 * 3;
  }

  lemma SyncIsLost(s: State, now: uint32, interval: uint32)
    requires (s.count == 14 || s.count == 22) && interval < BigGap(s.lastGap)
    ensures var s' := SyncedEdge(s, now, interval);
      s'.sync.None? && s'.count == 1 && s'.lastGap == s.lastGap
  {
  }

  /** Where the count expects a missing tooth, only a missing tooth will do. */
  lemma AstrayAtGap(sp: Spacing, s: State, tooth: int, s': State, tooth': int)
    requires Moves(sp, s, tooth, s', tooth') && Astray(sp, s, tooth) && (s.count == 14 || s.count == 22)
    ensures Recovering(sp, s') ||
            (Astray(sp, s', tooth') && s'.count == NextLabel(s.count) && (tooth' == 16 || tooth' == 24))
  {
    IntervalsMaskTeeth(sp, s.lastGap);
    if sp.Into(tooth') < BigGap(s.lastGap) {
      var now: uint32 :| s' == SyncedEdge(s.(last := now), now, sp.Into(tooth'));
      SyncIsLost(s.(last := now), now, sp.Into(tooth'));
    }
  }

  lemma AstrayBetween(sp: Spacing, s: State, tooth: int, s': State, tooth': int)
    requires Moves(sp, s, tooth, s', tooth') && Astray(sp, s, tooth) && s.count != 14 && s.count != 22
    ensures Astray(sp, s', tooth') && s'.count == NextLabel(s.count)
  {
    assert IsInterval(sp, sp.Into(tooth'));
  }

  /** Two gaps are never as far apart as the count expects them. */
  lemma AstrayClock(count: int, tooth: int)
    requires IsLabel(count) && IsLabel(tooth) && count != tooth
    requires count == 14 || count == 22 ==> NextLabel(tooth) == 16 || NextLabel(tooth) == 24
    ensures AstrayLeft(NextLabel(count), NextLabel(tooth)) == AstrayLeft(count, tooth) - 1 > 0
  {
  }

  lemma AstrayStep(sp: Spacing, s: State, tooth: int, s': State, tooth': int)
    requires Moves(sp, s, tooth, s', tooth') && Astray(sp, s, tooth)
    ensures Recovering(sp, s') ||
            (Astray(sp, s', tooth') && AstrayLeft(s'.count, tooth') == AstrayLeft(s.count, tooth) - 1 > 0)
  {
    if s.count == 14 || s.count == 22 {
      AstrayAtGap(sp, s, tooth, s', tooth');
    } else {
      AstrayBetween(sp, s, tooth, s', tooth');
    }
    if !Recovering(sp, s') {
      AstrayClock(s.count, tooth);
    }
  }

  // ------------------------------------------------------------------ from some edge on

  /** Once the decoder is counting, the run goes on as one from set-up. */
  lemma {:induction false} PhaseFrom(r: Restart, st: Start, from: nat, n: nat)
    requires r.Valid() && r.start.spacing.GapVisible() && st == r.AsStart(st.time) && st.FirstStampUsable()
    requires from <= n && Phase(st, r.StateAt(from), 1, r.LabelAt(from), r.TimeAt(from))
    ensures Phase(st, r.StateAt(n), n - from + 1, r.LabelAt(n), r.TimeAt(n))
    decreases n
  {
    if n > from {
      PhaseFrom(r, st, from, n - 1);
      NextEdge(r, n);
      PhaseStep(st, r.StateAt(n - 1), n - from, r.LabelAt(n - 1), r.TimeAt(n - 1));
    }
  }

  lemma CountingBegins(r: Restart, n: nat)
    requires r.Valid() && Counting(r.AsStart(0), r.StateAt(n), r.LabelAt(n))
    ensures Phase(r.AsStart(0), r.StateAt(n), 1, r.LabelAt(n), r.TimeAt(n)) && r.AsStart(0).FirstStampUsable()
    ensures Unseen(r.AsStart(0), r.StateAt(n), r.LabelAt(n))
  {
    LastIsStamped(r, n);
  }

  lemma {:induction false} UnseenFrom(r: Restart, st: Start, from: nat, n: nat)
    requires r.Valid() && !r.start.spacing.GapVisible() && st == r.AsStart(st.time) && st.FirstStampUsable()
    requires from <= n && Unseen(st, r.StateAt(from), r.LabelAt(from))
    ensures Unseen(st, r.StateAt(n), r.LabelAt(n))
    decreases n
  {
    if n > from {
      UnseenFrom(r, st, from, n - 1);
      NextEdge(r, n);
      UnseenStep(st, r.StateAt(n - 1), r.LabelAt(n - 1), r.TimeAt(n - 1));
    }
  }

  lemma {:induction false} InPlaceFrom(r: Restart, from: nat, n: nat)
    requires r.Valid() && r.start.spacing.gap >= BigGap(r.start.spacing.regular)
    requires from <= n && InPlace(r.start.spacing, r.StateAt(from), r.LabelAt(from))
    ensures InPlace(r.start.spacing, r.StateAt(n), r.LabelAt(n))
    decreases n
  {
    if n > from {
      InPlaceFrom(r, from, n - 1);
      EdgeMoves(r, n);
      InPlaceStep(r.start.spacing, r.StateAt(n - 1), r.LabelAt(n - 1), r.StateAt(n), r.LabelAt(n));
    }
  }

  /** The edges until a missing tooth is due. */
  function ToNextGap(tooth: int): int { if Index(tooth) < 15 then 15 - Index(tooth) else 22 - Index(tooth) }

  lemma InPlaceOn(r: Restart, n: nat)
    requires r.Valid() && r.start.spacing.gap < BigGap(r.start.spacing.regular)
    requires InPlace(r.start.spacing, r.StateAt(n), r.LabelAt(n))
    ensures if r.LabelAt(n) == 14 || r.LabelAt(n) == 22 then Recovering(r.start.spacing, r.StateAt(n + 1))
            else
              && InPlace(r.start.spacing, r.StateAt(n + 1), r.LabelAt(n + 1))
              && ToNextGap(r.LabelAt(n + 1)) == ToNextGap(r.LabelAt(n)) - 1
  {
    EdgeMoves(r, n + 1);
    InPlaceStep(r.start.spacing, r.StateAt(n), r.LabelAt(n), r.StateAt(n + 1), r.LabelAt(n + 1));
  }

  /** In the right place, but the next gap is too short even after a plain tooth. */
  lemma {:induction false} InPlaceEnds(r: Restart, from: nat, left: nat) returns (to: nat)
    requires r.Valid() && r.start.spacing.gap < BigGap(r.start.spacing.regular)
    requires InPlace(r.start.spacing, r.StateAt(from), r.LabelAt(from)) && left == ToNextGap(r.LabelAt(from))
    ensures from < to && Recovering(r.start.spacing, r.StateAt(to))
    ensures forall n: nat | from <= n < to :: r.OnTooth(n)
    decreases left
  {
    InPlaceOn(r, from);
    if r.LabelAt(from) == 14 || r.LabelAt(from) == 22 {
      to := from + 1;
    } else {
      to := InPlaceEnds(r, from + 1, left - 1);
    }
  }

  lemma AstrayOn(r: Restart, n: nat)
    requires r.Valid() && Astray(r.start.spacing, r.StateAt(n), r.LabelAt(n))
    ensures Recovering(r.start.spacing, r.StateAt(n + 1)) ||
            (&& Astray(r.start.spacing, r.StateAt(n + 1), r.LabelAt(n + 1))
             && AstrayLeft(r.StateAt(n + 1).count, r.LabelAt(n + 1)) ==
                AstrayLeft(r.StateAt(n).count, r.LabelAt(n)) - 1 > 0)
  {
    EdgeMoves(r, n + 1);
    AstrayStep(r.start.spacing, r.StateAt(n), r.LabelAt(n), r.StateAt(n + 1), r.LabelAt(n + 1));
  }

  lemma AstrayIsShort(count: int, tooth: int)
    requires IsLabel(count) && IsLabel(tooth)
    ensures 1 <= AstrayLeft(count, tooth) <= 22
  {
  }

  /** A false sync is noticed within one turn. */
  lemma {:induction false} AstrayEnds(r: Restart, from: nat, left: nat) returns (to: nat)
    requires r.Valid() && Astray(r.start.spacing, r.StateAt(from), r.LabelAt(from))
    requires left == AstrayLeft(r.StateAt(from).count, r.LabelAt(from))
    ensures to <= from + left && Recovering(r.start.spacing, r.StateAt(to))
    decreases left
  {
    AstrayOn(r, from);
    AstrayIsShort(r.StateAt(from).count, r.LabelAt(from));
    if Recovering(r.start.spacing, r.StateAt(from + 1)) {
      to := from + 1;
    } else {
      to := AstrayEnds(r, from + 1, left - 1);
    }
  }

  lemma RecoveringOn(r: Restart, n: nat)
    requires r.Valid() && Recovering(r.start.spacing, r.StateAt(n))
    ensures r.StateAt(n + 1).sync.None?
    ensures Counting(r.AsStart(0), r.StateAt(n + 1), r.LabelAt(n + 1)) ||
            (Recovering(r.start.spacing, r.StateAt(n + 1)) && (r.LabelAt(n + 1) == 16 || r.LabelAt(n + 1) == 24))
    ensures r.LabelAt(n) == 16 || r.LabelAt(n) == 24 ==> r.LabelAt(n + 1) != 16 && r.LabelAt(n + 1) != 24
  {
    EdgeMoves(r, n + 1);
    RecoveringStep(r.AsStart(0), r.StateAt(n), r.LabelAt(n), r.StateAt(n + 1), r.LabelAt(n + 1));
  }

  /** After the loss of sync the decoder counts again at once, or after one gap. */
  lemma RecoveringEnds(r: Restart, from: nat) returns (to: nat)
    requires r.Valid() && Recovering(r.start.spacing, r.StateAt(from))
    ensures from < to <= from + 2 && Counting(r.AsStart(0), r.StateAt(to), r.LabelAt(to))
    ensures forall n: nat | from <= n <= to :: r.StateAt(n).sync.None?
  {
    to := from + 1;
    RecoveringOn(r, from);
    if !Counting(r.AsStart(0), r.StateAt(to), r.LabelAt(to)) {
      RecoveringOn(r, to);
      to := to + 1;
    }
  }

  // ------------------------------------------------------------------ the first edges

  /** What the first edge makes of the stale count and gap. */
  lemma FirstEdge(r: Restart)
    requires r.Valid()
    ensures var s := r.StateAt(0);
      if r.FirstCounted() then s.sync.None? && s.count == Next16(r.StaleCount()) && s.lastGap == r.FirstStamp()
      else if r.StaleCount() == 15 then s.sync.Full? && s.count == 16
      else s.sync.None? && s.count == 1 && s.lastGap == r.StaleGap() != 0
  {
    assert r.StateAt(0) == EdgeStep(StalledState(r.logging, r.prior), r.FirstStamp());
  }

  /** An edge of a decoder that has no sync. */
  lemma SearchSees(s: State, time: int, interval: nat)
    requires s.last == Stamp(time) && interval < TWO32 && s.sync.None?
    ensures var s' := EdgeStep(s, Stamp(time + interval));
      if s.lastGap == 0 || interval < BigGap(s.lastGap)
        then s'.sync.None? && s'.count == Next16(s.count) && s'.lastGap == interval
      else if s.count == 15 then s'.sync.Full? && s'.count == 16 && s'.lastGap == s.lastGap
      else s'.sync.None? && s'.count == 1 && s'.lastGap == s.lastGap
  {
    EdgeSees(s, time, interval);
  }

  lemma NextOfStale(k: nat)
    ensures Next16(k % TWO16) == (k + 1) % TWO16
  {
  }

  /** The second edge, when the first was counted. */
  lemma SecondEdgeOfCount(r: Restart)
    requires r.Valid() && r.FirstCounted()
    ensures var s := r.StateAt(1);
      if r.SecondCounted()
        then s.sync.None? && s.count == (r.StaleCount() + 2) % TWO16 && s.lastGap == r.SecondInterval()
      else if r.StaleCount() == 14 then s.sync.Full? && s.count == 16
      else s.sync.None? && s.count == 1 && s.lastGap == r.FirstStamp() != 0
  {
    FirstEdge(r);
    NextEdge(r, 1);
    SearchSees(r.StateAt(0), r.TimeAt(0), r.SecondInterval());
    NextOfStale(r.StaleCount() + 1);
    FourteenIsNext(r.StaleCount());
  }

  lemma FourteenIsNext(k: uint16)
    ensures Next16(k) == (k + 1) % TWO16 && (Next16(k) == 15 <==> k == 14)
  {
  }

  /** A gap that is kept, and does not make plain teeth look like missing ones. */
  lemma UsableGapKept(r: Restart)
    requires r.Valid() && !r.SecondCounted() && !r.FullAtOnce() && r.KeptGapUsable()
    ensures r.StateAt(0).sync.None?
    ensures var st, s, tooth := r.AsStart(r.KeptGap()), r.StateAt(1), r.LabelAt(1);
      && st.FirstStampUsable() && Stamp(st.time) == r.KeptGap() && r.StateAt(1).last == Stamp(r.TimeAt(1))
      && ((Counting(st, s, tooth) && s.count == 2) || Fresh(st, s, tooth))
  {
    StampIsTrue(r.KeptGap());
    FirstEdge(r);
    NextEdge(r, 1);
    if r.FirstCounted() {
      SecondEdgeOfCount(r);
    } else {
      SearchSees(r.StateAt(0), r.TimeAt(0), r.SecondInterval());
    }
  }

  /** A gap that makes even plain teeth look like missing ones is kept for ever. */
  lemma {:induction false} StuckOnKeptGap(r: Restart, n: nat)
    requires r.Valid() && !r.FullAtOnce() && !r.KeptGapUsable()
    ensures r.StateAt(n).sync.None? && r.StateAt(n).lastGap == r.KeptGap()
    ensures n >= 1 ==> r.StateAt(n).count == 1
    decreases n
  {
    FirstEdge(r);
    if n > 0 {
      StuckOnKeptGap(r, n - 1);
      NextEdge(r, n);
      SearchSees(r.StateAt(n - 1), r.TimeAt(n - 1), r.start.spacing.Into(r.LabelAt(n)));
      FourteenIsNext(r.StaleCount());
    }
  }

  // ------------------------------------------------------------------ counting on from a stale count

  lemma {:induction false} LabelsBeforeGap(r: Restart, n: nat)
    requires r.Valid() && 1 <= n < r.GapAt()
    ensures var first := r.start.first;
      r.LabelAt(n) == if first == 14 then 15 + n
                      else if first == 22 then (if n == 1 then 24 else n - 1)
                      else if first == 24 then n else first + n
    decreases n
  {
    if n > 1 {
      LabelsBeforeGap(r, n - 1);
    }
    NextEdge(r, n);
  }

  lemma NoGapNext(r: Restart, n: nat)
    requires r.Valid() && 1 <= n && n + 1 < r.GapAt()
    ensures r.LabelAt(n) != 14 && r.LabelAt(n) != 22
  {
    LabelsBeforeGap(r, n);
  }

  lemma LabelsAtGap(r: Restart, n: nat)
    requires r.Valid() && n == r.GapAt()
    ensures r.LabelAt(n - 1) == if r.GapEndsShortString() then 22 else 14
    ensures r.LabelAt(n) == if r.GapEndsShortString() then 24 else 16
  {
    LabelsBeforeGap(r, n - 1);
    NextEdge(r, n);
  }

  /** Every edge before the first gap that can be seen is counted on top of the stale count. */
  ghost predicate Stale(r: Restart, s: State, n: nat, tooth: int) {
    s.sync.None? && LastGapSettled(r.start.spacing, s, tooth) && s.count == (r.StaleCount() + n + 1) % TWO16
  }

  lemma CountsOn(st: Start, s: State, tooth: int, time: nat)
    requires st.Valid() && IsLabel(tooth) && tooth != 14 && tooth != 22
    requires s.last == Stamp(time) && s.sync.None? && LastGapSettled(st.spacing, s, tooth)
    ensures var tooth' := NextLabel(tooth);
      var s' := EdgeStep(s, Stamp(time + st.spacing.Into(tooth')));
      s'.sync.None? && LastGapSettled(st.spacing, s', tooth') && s'.count == Next16(s.count)
  {
    SearchSees(s, time, st.spacing.Into(NextLabel(tooth)));
    IntervalsMaskTeeth(st.spacing, s.lastGap);
  }

  lemma StaleStep(r: Restart, s: State, n: nat, tooth: int, time: nat)
    requires r.Valid() && IsLabel(tooth) && tooth != 14 && tooth != 22
    requires s.last == Stamp(time) && Stale(r, s, n, tooth)
    ensures var tooth' := NextLabel(tooth);
      Stale(r, EdgeStep(s, Stamp(time + r.start.spacing.Into(tooth'))), n + 1, tooth')
  {
    CountsOn(r.start, s, tooth, time);
    NextOfStale(r.StaleCount() + n + 1);
  }

  lemma StaleOn(r: Restart, n: nat)
    requires r.Valid() && 1 <= n && n + 1 < r.GapAt() && Stale(r, r.StateAt(n), n, r.LabelAt(n))
    ensures Stale(r, r.StateAt(n + 1), n + 1, r.LabelAt(n + 1))
  {
    NoGapNext(r, n);
    NextEdge(r, n + 1);
    StaleStep(r, r.StateAt(n), n, r.LabelAt(n), r.TimeAt(n));
  }

  lemma {:induction false} StaleUntilGap(r: Restart, n: nat)
    requires r.Valid() && r.SecondCounted() && 1 <= n < r.GapAt()
    ensures Stale(r, r.StateAt(n), n, r.LabelAt(n))
    decreases n
  {
    if n == 1 {
      SecondEdgeOfCount(r);
      NextEdge(r, 1);
    } else {
      StaleUntilGap(r, n - 1);
      StaleOn(r, n - 1);
    }
  }

  /** At a visible gap: sync if the count is fifteen, and a new count otherwise. */
  lemma VisibleGap(st: Start, s: State, tooth: int, time: nat)
    requires st.Valid() && st.spacing.GapVisible() && (tooth == 14 || tooth == 22)
    requires s.last == Stamp(time) && s.sync.None? && s.lastGap == st.spacing.wide
    ensures var s' := EdgeStep(s, Stamp(time + st.spacing.gap));
      if s.count == 15 then s'.sync.Full? && s'.count == 16 else Counting(st, s', NextLabel(tooth)) && s'.count == 1
  {
    SearchSees(s, time, st.spacing.gap);
    assert st.spacing.gap >= BigGap(st.spacing.wide);
  }

  lemma StaleAtGap(r: Restart, n: nat)
    requires r.Valid() && r.SecondCounted() && r.start.spacing.GapVisible() && n == r.GapAt()
    ensures r.LabelAt(n) == (if r.GapEndsShortString() then 24 else 16)
    ensures if (r.StaleCount() + n) % TWO16 == 15 then r.StateAt(n).sync.Full? && r.StateAt(n).count == 16
            else Counting(r.AsStart(0), r.StateAt(n), r.LabelAt(n))
  {
    StaleUntilGap(r, n - 1);
    LabelsAtGap(r, n);
    NextEdge(r, n);
    VisibleGap(r.AsStart(0), r.StateAt(n - 1), r.LabelAt(n - 1), r.TimeAt(n - 1));
  }

  lemma SyncBegun(sp: Spacing, s: State, tooth: int)
    requires s.sync.Full? && s.count == 16 && IsLabel(tooth)
    ensures if tooth == 16 then InPlace(sp, s, tooth) else Astray(sp, s, tooth)
  {
  }

  // ------------------------------------------------------------------ soundness

  /** From the true tooth on, the decoder is never in sync at a wrong one. */
  ghost predicate InPlaceOrUnseen(r: Restart, s: State, tooth: int) {
    || InPlace(r.start.spacing, s, tooth)
    || (!r.start.spacing.GapVisible() && (Recovering(r.start.spacing, s) || Unseen(r.AsStart(0), s, tooth)))
  }

  /** A gap that stands out after a wide tooth does so after a plain one. */
  lemma VisibleAfterPlain(sp: Spacing)
    requires sp.Sane()
    ensures sp.GapVisible() ==> sp.gap >= BigGap(sp.regular)
  {
  }

  lemma SoundStep(r: Restart, s: State, tooth: int, time: nat, s': State, tooth': int)
    requires r.Valid() && Moves(r.start.spacing, s, tooth, s', tooth') && s.last == Stamp(time)
    requires s' == EdgeStep(s, Stamp(time + r.start.spacing.Into(tooth'))) && InPlaceOrUnseen(r, s, tooth)
    ensures InPlaceOrUnseen(r, s', tooth')
  {
    if InPlace(r.start.spacing, s, tooth) {
      InPlaceStep(r.start.spacing, s, tooth, s', tooth');
      VisibleAfterPlain(r.start.spacing);
    } else if Recovering(r.start.spacing, s) {
      RecoveringStep(r.AsStart(0), s, tooth, s', tooth');
    } else {
      UnseenStep(r.AsStart(0), s, tooth, time);
    }
  }

  lemma {:induction false} InPlaceIsSound(r: Restart, from: nat, n: nat)
    requires r.Valid() && from <= n && InPlace(r.start.spacing, r.StateAt(from), r.LabelAt(from))
    ensures InPlaceOrUnseen(r, r.StateAt(n), r.LabelAt(n))
    decreases n
  {
    if n > from {
      InPlaceIsSound(r, from, n - 1);
      NextEdge(r, n);
      EdgeMoves(r, n);
      SoundStep(r, r.StateAt(n - 1), r.LabelAt(n - 1), r.TimeAt(n - 1), r.StateAt(n), r.LabelAt(n));
    }
  }

  /** What the decoder does, from which edge on. */
  datatype Outcome = Right | Wrong | Counts | Plain | Stuck

  /** How the restart goes on after edge `n`. */
  ghost predicate GoesOn(r: Restart, n: nat, o: Outcome)
    requires r.Valid()
  {
    var sp, s, tooth := r.start.spacing, r.StateAt(n), r.LabelAt(n);
    match o
    case Right => InPlace(sp, s, tooth)
    case Wrong => Astray(sp, s, tooth)
    case Counts => sp.GapVisible() && exists st: Start ::
      && st == r.AsStart(st.time) && st.FirstStampUsable() && Phase(st, s, 1, tooth, r.TimeAt(n))
    case Plain => !sp.GapVisible() && exists st: Start ::
      st == r.AsStart(st.time) && st.FirstStampUsable() && Unseen(st, s, tooth)
    case Stuck => n == 0 && !r.FullAtOnce() && !r.KeptGapUsable()
  }

  /** The edge by which the stale count has had its effect, and what that is. */
  lemma Begins(r: Restart) returns (n: nat, o: Outcome)
    requires r.Valid()
    ensures n <= 16 && GoesOn(r, n, o)
    ensures forall k: nat | k < n :: r.StateAt(k).sync.None?
    ensures o.Wrong? <==> r.FalselySyncs()
    ensures o.Stuck? <==> !r.FullAtOnce() && !r.KeptGapUsable()
    ensures o.Plain? ==> !r.FullAtOnce()
    ensures o.Right? && !r.start.spacing.GapVisible() ==> r.RightAtOnce()
    ensures o.Wrong? ==> n <= 8
    ensures r.RightAtOnce() ==> o.Right?
  {
    FirstEdge(r);
    if r.FullAtFirst() {
      n := 0;
      SyncBegun(r.start.spacing, r.StateAt(0), r.LabelAt(0));
      o := if r.start.first == 16 then Right else Wrong;
    } else if r.FullAtSecond() {
      n := 1;
      SecondEdgeOfCount(r);
      NextEdge(r, 1);
      SyncBegun(r.start.spacing, r.StateAt(1), r.LabelAt(1));
      o := if r.LabelAt(1) == 16 then Right else Wrong;
    } else if !r.KeptGapUsable() {
      n, o := 0, Stuck;
    } else if r.SecondCounted() {
      n, o := BeginsStale(r);
    } else {
      n := 1;
      o := if r.start.spacing.GapVisible() then Counts else Plain;
      UsableGapKept(r);
      assert r.AsStart(r.KeptGap()) == r.AsStart(r.AsStart(r.KeptGap()).time);
    }
  }

  lemma BeginsStale(r: Restart) returns (n: nat, o: Outcome)
    requires r.Valid() && r.SecondCounted()
    ensures n <= 16 && GoesOn(r, n, o)
    ensures forall k: nat | k < n :: r.StateAt(k).sync.None?
    ensures !o.Stuck? && (o.Wrong? <==> r.FullTooSoon()) && (o.Right? ==> r.start.spacing.GapVisible())
    ensures o.Wrong? ==> n <= 8
  {
    if r.start.spacing.GapVisible() {
      n := r.GapAt();
      o := BeginsAtGap(r, n);
    } else {
      n, o := 1, Plain;
      BeginsPlain(r);
    }
    forall k: nat | k < n
      ensures r.StateAt(k).sync.None?
    {
      UnsyncedBeforeGap(r, k);
    }
  }

  lemma UnsyncedBeforeGap(r: Restart, k: nat)
    requires r.Valid() && r.SecondCounted() && k < r.GapAt()
    ensures r.StateAt(k).sync.None?
  {
    if k == 0 {
      FirstEdge(r);
    } else {
      StaleUntilGap(r, k);
    }
  }

  lemma BeginsPlain(r: Restart)
    requires r.Valid() && r.SecondCounted() && !r.start.spacing.GapVisible()
    ensures GoesOn(r, 1, Plain)
  {
    StaleUntilGap(r, 1);
    assert r.AsStart(0).FirstStampUsable() && Unseen(r.AsStart(0), r.StateAt(1), r.LabelAt(1));
  }

  /** The count cannot be fifteen at the end of the short string by wrapping. */
  lemma FifteenAtGap(r: Restart)
    requires r.Valid()
    ensures r.GapEndsShortString() ==>
              r.GapAt() <= 8 && ((r.StaleCount() + r.GapAt()) % TWO16 == 15 <==> r.StaleCount() + r.GapAt() == 15)
  {
  }

  lemma BeginsAtGap(r: Restart, n: nat) returns (o: Outcome)
    requires r.Valid() && r.SecondCounted() && r.start.spacing.GapVisible() && n == r.GapAt()
    ensures GoesOn(r, n, o) && (o.Right? || o.Wrong? || o.Counts?) && (o.Wrong? <==> r.FullTooSoon())
    ensures o.Wrong? ==> n <= 8
  {
    StaleAtGap(r, n);
    FifteenAtGap(r);
    if (r.StaleCount() + n) % TWO16 == 15 {
      SyncBegun(r.start.spacing, r.StateAt(n), r.LabelAt(n));
      o := if r.LabelAt(n) == 16 then Right else Wrong;
    } else {
      o := Counts;
      CountingGoesOn(r, n);
    }
  }

  lemma CountingGoesOn(r: Restart, n: nat)
    requires r.Valid() && r.start.spacing.GapVisible() && Counting(r.AsStart(0), r.StateAt(n), r.LabelAt(n))
    ensures GoesOn(r, n, Counts)
  {
    CountingBegins(r, n);
  }

  // ------------------------------------------------------------------ what becomes of a restart

  /** Full sync comes at a wrong tooth somewhere in the run. */
  ghost predicate FalseSyncAt(r: Restart, n: nat)
    requires r.Valid()
  {
    r.StateAt(n).sync.Full? && r.StateAt(n).count != r.LabelAt(n)
  }

  lemma NoFalseSync(r: Restart, from: nat, o: Outcome, n: nat)
    requires r.Valid() && GoesOn(r, from, o) && !o.Wrong? && n >= from
    ensures !FalseSyncAt(r, n)
  {
    match o {
      case Right => InPlaceIsSound(r, from, n);
      case Counts =>
        var st: Start :| st == r.AsStart(st.time) && st.FirstStampUsable()
                         && Phase(st, r.StateAt(from), 1, r.LabelAt(from), r.TimeAt(from));
        PhaseFrom(r, st, from, n);
      case Plain =>
        var st: Start :| st == r.AsStart(st.time) && st.FirstStampUsable()
                         && Unseen(st, r.StateAt(from), r.LabelAt(from));
        UnseenFrom(r, st, from, n);
      case Stuck => StuckOnKeptGap(r, n);
    }
  }

  /**
    A restart declares full sync at a wrong tooth somewhere if and only if the stale count is fifteen
    at one of the first two edges and that looks like one after a missing tooth without being that of
    tooth 16, or it reaches fifteen at the gap that ends the short string.
  */
  lemma FalselySyncsIff(r: Restart)
    requires r.Valid()
    ensures (exists n: nat :: FalseSyncAt(r, n)) <==> r.FalselySyncs()
  {
    var from, o := Begins(r);
    if o.Wrong? {
      assert FalseSyncAt(r, from);
    } else {
      forall n: nat
        ensures !FalseSyncAt(r, n)
      {
        if n >= from { NoFalseSync(r, from, o, n); }
      }
    }
  }

  /** From edge `from` on, the true tooth at every edge. */
  ghost predicate OnToothFrom(r: Restart, from: nat)
    requires r.Valid()
  {
    forall n: nat | from <= n :: r.OnTooth(n)
  }

  ghost predicate UnsyncedFrom(r: Restart, from: nat)
    requires r.Valid()
  {
    forall n: nat | from <= n :: r.StateAt(n).sync.None?
  }

  lemma CountingSettles(r: Restart, st: Start, from: nat, n: nat)
    requires r.Valid() && r.start.spacing.GapVisible() && st == r.AsStart(st.time) && st.FirstStampUsable()
    requires Phase(st, r.StateAt(from), 1, r.LabelAt(from), r.TimeAt(from)) && n >= from + 37
    ensures r.OnTooth(n)
  {
    PhaseFrom(r, st, from, n);
  }

  /** Where gaps stand out, a false sync is overcome within two turns and a half. */
  lemma FalseSyncIsOvercome(r: Restart, from: nat, n: nat)
    requires r.Valid() && r.start.spacing.GapVisible() && GoesOn(r, from, Wrong) && n >= from + 61
    ensures r.OnTooth(n)
  {
    AstrayIsShort(r.StateAt(from).count, r.LabelAt(from));
    var lost := AstrayEnds(r, from, AstrayLeft(r.StateAt(from).count, r.LabelAt(from)));
    var counting := RecoveringEnds(r, lost);
    CountingBegins(r, counting);
    CountingSettles(r, r.AsStart(0), counting, n);
  }

  /** Where gaps do not stand out, sync that is lost never comes again. */
  lemma LostForGood(r: Restart, lost: nat)
    requires r.Valid() && !r.start.spacing.GapVisible() && Recovering(r.start.spacing, r.StateAt(lost))
    ensures UnsyncedFrom(r, lost)
  {
    var counting := RecoveringEnds(r, lost);
    CountingBegins(r, counting);
    forall n: nat | lost <= n
      ensures r.StateAt(n).sync.None?
    {
      if n >= counting { UnseenFrom(r, r.AsStart(0), counting, n); }
    }
  }

  lemma SettlesFrom(r: Restart, from: nat, o: Outcome, n: nat)
    requires r.Valid() && GoesOn(r, from, o) && from <= 16 && n >= 69
    requires r.start.spacing.gap >= BigGap(r.start.spacing.regular)
    requires (o.Wrong? && from <= 8 && r.start.spacing.GapVisible()) || o.Right? || o.Counts?
    ensures r.OnTooth(n)
  {
    match o {
      case Right => InPlaceFrom(r, from, n);
      case Wrong => FalseSyncIsOvercome(r, from, n);
      case Counts =>
        var st: Start :| st == r.AsStart(st.time) && st.FirstStampUsable()
                         && Phase(st, r.StateAt(from), 1, r.LabelAt(from), r.TimeAt(from));
        CountingSettles(r, st, from, n);
    }
  }

  /** No sync from some edge on. */
  lemma NeverSettles(r: Restart, from: nat, o: Outcome) returns (lost: nat)
    requires r.Valid() && GoesOn(r, from, o) && !o.Counts?
    requires !o.Stuck? ==> !r.start.spacing.GapVisible()
    requires o.Right? ==> r.start.spacing.gap < BigGap(r.start.spacing.regular)
    ensures UnsyncedFrom(r, lost)
  {
    match o {
      case Right =>
        lost := InPlaceEnds(r, from, ToNextGap(r.LabelAt(from)));
        LostForGood(r, lost);
      case Wrong =>
        lost := AstrayEnds(r, from, AstrayLeft(r.StateAt(from).count, r.LabelAt(from)));
        LostForGood(r, lost);
      case Plain =>
        lost := from;
        var st: Start :| st == r.AsStart(st.time) && st.FirstStampUsable()
                         && Unseen(st, r.StateAt(from), r.LabelAt(from));
        forall n: nat | from <= n ensures r.StateAt(n).sync.None? { UnseenFrom(r, st, from, n); }
      case Stuck =>
        lost := 0;
        forall n: nat ensures r.StateAt(n).sync.None? { StuckOnKeptGap(r, n); }
    }
  }

  /**
    A restart either is in full sync at the true tooth from the 70th edge on, or ends up without sync
    for good.
  */
  lemma SettlesOrNever(r: Restart)
    requires r.Valid()
    ensures r.SyncsForGood() ==> OnToothFrom(r, 69)
    ensures !r.SyncsForGood() ==> exists from: nat :: UnsyncedFrom(r, from)
  {
    var from, o := Begins(r);
    VisibleAfterPlain(r.start.spacing);
    if r.SyncsForGood() {
      forall n: nat | 69 <= n ensures r.OnTooth(n) { SettlesFrom(r, from, o, n); }
    } else {
      var lost := NeverSettles(r, from, o);
    }
  }

  /** Exactly when a restart ends up in full sync at the true tooth for good. */
  lemma SyncsForGoodIff(r: Restart)
    requires r.Valid()
    ensures (exists from: nat :: OnToothFrom(r, from)) <==> r.SyncsForGood()
  {
    SettlesOrNever(r);
    if !r.SyncsForGood() {
      var lost: nat :| UnsyncedFrom(r, lost);
      forall from: nat
        ensures !OnToothFrom(r, from)
      {
        assert !r.OnTooth(from + lost);
      }
    }
  }

  /** Set up again, the decoder does as it does after power-up. */
  lemma WithoutLogging(r: Restart)
    requires r.Valid() && !r.logging
    ensures !r.FalselySyncs()
    ensures r.SyncsForGood() <==> r.start.spacing.GapVisible() && r.start.FirstStampUsable()
  {
  }

  /** Set up again after a stall, the decoder goes through the same states, but for the time published last. */
  lemma {:induction false} RunsAlikeWithoutLogging(r: Restart, n: nat)
    requires r.Valid() && !r.logging
    ensures r.StateAt(n).(revolutionTime := 0) == r.start.StateAt(n).(revolutionTime := 0)
    decreases n
  {
    if n > 0 {
      RunsAlikeWithoutLogging(r, n - 1);
      NextEdge(r, n);
      StepsAlike(r.StateAt(n - 1), r.start.StateAt(n - 1), Stamp(r.TimeAt(n)));
    } else {
      StepsAlike(StalledState(r.logging, r.prior), SetupState, r.FirstStamp());
    }
  }

  lemma StepsAlike(s: State, t: State, now: uint32)
    requires s.(revolutionTime := 0) == t.(revolutionTime := 0)
    ensures EdgeStep(s, now).(revolutionTime := 0) == EdgeStep(t, now).(revolutionTime := 0)
  {
  }

  /** A stall while a log is being taken begins the revolution count again, too. */
  lemma NoRevolutionsAtRestart(r: Restart)
    requires r.Valid()
    ensures r.StateAt(0).startRevolutions == 0
  {
    FirstEdge(r);
  }

  /** What a stall clears and what it keeps. */
  lemma StallKeeps(logging: bool, s: State)
    ensures var r := StalledState(logging, s);
      && r.sync.None? && r.last == 0 && r.startRevolutions == 0 && r.revolutionTime == s.revolutionTime
      && (if logging
          then && r.count == s.count && r.lastGap == s.lastGap
               && r.toothOne == s.toothOne && r.toothOneMinusOne == s.toothOneMinusOne
          else r.count == 0 && r.lastGap == 0 && r.toothOne == 0 && r.toothOneMinusOne == 0)
  {
  }
}
