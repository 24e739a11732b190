/** The revolution times that a J32 decoder publishes over a whole run, from the edge that syncs it on. */
module HondaJ32Revolution {
  import opened Machine
  import opened HondaJ32
  import opened HondaJ32Wheel

  /** Edge `n` is the one that brings full sync. */
  ghost predicate SyncBegins(st: Start, n: nat)
    requires st.Valid()
  {
    n >= 1 && !st.StateAt(n - 1).sync.Full? && st.StateAt(n).sync.Full?
  }

  lemma UnsyncedStep(st: Start, s: State, s': State, n: nat, tooth: int, tooth': int, time: nat, time': nat)
    requires st.Valid() && st.spacing.GapVisible() && st.FirstStampUsable() && IsLabel(tooth)
    requires Phase(st, s, n, tooth, time) && !s.sync.Full?
    requires tooth' == NextLabel(tooth) && time' == time + st.spacing.Into(tooth') && s' == EdgeStep(s, Stamp(time'))
    ensures s'.sync.Full? ==> tooth' == 16 && Synced(st, s', 16, time', true)
  {
    if FreshAt(st, s, n, tooth) {
      FreshStep(st, s, tooth, time);
    } else if tooth == 14 || tooth == 22 {
      CountingGap(st, s, tooth, time);
      GapSyncsAtSixteen(s, Stamp(time'));
    } else {
      CountingTooth(st, s, tooth, time);
    }
  }

  lemma GapSyncsAtSixteen(s: State, now: uint32)
    requires !s.sync.Full?
    ensures EdgeStep(s, now).sync.Full? ==> EdgeStep(s, now).count == 16
  {
  }

  /** Sync is only ever found on a wheel and with a first stamp that allow it, and never by the first two edges. */
  lemma SyncIsPossible(st: Start, n: nat)
    requires st.Valid() && st.StateAt(n).sync.Full?
    ensures st.spacing.GapVisible() && st.FirstStampUsable() && n >= 2
  {
    if !st.FirstStampUsable() {
      StuckOnFirstStamp(st, n);
    } else if !st.spacing.GapVisible() {
      GapsGoUnseen(st, n);
    } else if n == 1 {
      SecondEdge(st);
    } else if n == 0 {
      NotSyncedAtFirst(st);
    }
  }

  lemma NotSyncedAtFirst(st: Start)
    requires st.Valid()
    ensures !st.StateAt(0).sync.Full?
  {
  }

  lemma NextEdge(st: Start, n: nat)
    requires st.Valid() && n > 0
    ensures st.LabelAt(n) == NextLabel(st.LabelAt(n - 1))
    ensures st.TimeAt(n) == st.TimeAt(n - 1) + st.spacing.Into(st.LabelAt(n))
    ensures st.StateAt(n) == EdgeStep(st.StateAt(n - 1), Stamp(st.TimeAt(n)))
  {
  }

  /** If sync comes, it comes at tooth 16, with tooth 1 put where fifteen wide intervals would begin. */
  lemma SyncBeginsAtSixteen(st: Start, m: nat, n: nat)
    requires st.Valid() && st.spacing.GapVisible() && st.FirstStampUsable()
    requires m >= 1 && n == m + 1 && !st.StateAt(m).sync.Full?
    ensures st.StateAt(n).sync.Full? ==> st.LabelAt(n) == 16 && Synced(st, st.StateAt(n), 16, st.TimeAt(n), true)
  {
    PhaseAt(st, m);
    NextEdge(st, n);
    UnsyncedStep(st, st.StateAt(m), st.StateAt(n), m, st.LabelAt(m), st.LabelAt(n), st.TimeAt(m), st.TimeAt(n));
  }

  lemma LastIsStamped(st: Start, n: nat)
    requires st.Valid()
    ensures st.StateAt(n).last == Stamp(st.TimeAt(n))
  {
  }

  /** The labels up to the first tooth 1 after tooth 16. */
  function LabelAfterSync(k: nat): int
    requires k <= 8
  {
    if k <= 6 then 16 + k else if k == 7 then 24 else 1
  }

  lemma SyncedOn(
      st: Start, s: State, s': State, tooth: int, tooth': int, time: nat, time': nat, first: bool, first': bool)
    requires st.Valid() && st.spacing.GapVisible() && IsLabel(tooth)
    requires s.last == Stamp(time) && Synced(st, s, tooth, time, first)
    requires tooth' == NextLabel(tooth) && time' == time + st.spacing.Into(tooth') && s' == EdgeStep(s, Stamp(time'))
    requires first' == (first && tooth' != 1)
    ensures Synced(st, s', tooth', time', first') && s'.last == Stamp(time')
  {
    SyncedStep(st, s, tooth, time, first);
  }

  /** In sync, the first turn lasts until the eighth edge. */
  lemma {:induction false} SyncedFrom(st: Start, n: nat, m: nat)
    requires st.Valid() && SyncBegins(st, n) && m >= n
    ensures Synced(st, st.StateAt(m), st.LabelAt(m), st.TimeAt(m), m < n + 8)
    ensures st.StateAt(m).last == Stamp(st.TimeAt(m)) && st.spacing.GapVisible()
    ensures m <= n + 8 ==> st.LabelAt(m) == LabelAfterSync(m - n)
    decreases m
  {
    if m == n {
      SyncIsPossible(st, n);
      SyncBeginsAtSixteen(st, n - 1, n);
      LastIsStamped(st, n);
    } else {
      SyncedFrom(st, n, m - 1);
      NextEdge(st, m);
      SyncedOn(st, st.StateAt(m - 1), st.StateAt(m), st.LabelAt(m - 1), st.LabelAt(m), st.TimeAt(m - 1), st.TimeAt(m),
               m - 1 < n + 8, m < n + 8);
    }
  }

  /**
    Over every run: at each tooth 1 after sync the true turn is published, except at the first, eight
    edges after sync, where it is the decoder's estimate.
  */
  lemma RevolutionTimesPublished(st: Start, n: nat, m: nat)
    requires st.Valid() && SyncBegins(st, n) && m >= n && st.LabelAt(m) == 1
    ensures m >= n + 8
    ensures st.StateAt(m).revolutionTime == Stamp(if m == n + 8 then st.spacing.FirstEstimate() else st.spacing.Turn())
  {
    SyncedFrom(st, n, m);
    SyncedFrom(st, n, m - 1);
    assert st.LabelAt(m - 1) == 24;
    RevolutionTimeAtToothOne(st, st.StateAt(m - 1), st.TimeAt(m - 1), m - 1 < n + 8);
  }

  /** A run that ever syncs has an edge at which it does. */
  lemma {:induction false} FirstSync(st: Start, m: nat) returns (n: nat)
    requires st.Valid() && st.StateAt(m).sync.Full?
    ensures n <= m && SyncBegins(st, n)
    decreases m
  {
    assert m > 0 by { NotSyncedAtFirst(st); }
    if st.StateAt(m - 1).sync.Full? {
      n := FirstSync(st, m - 1);
    } else {
      n := m;
    }
  }

  /** What sync leads to: the first revolution time published, and all later ones. */
  lemma PublishedAfterSync(st: Start, n: nat)
    requires st.Valid() && SyncBegins(st, n)
    ensures st.LabelAt(n + 8) == 1 && st.StateAt(n + 8).revolutionTime == Stamp(st.spacing.FirstEstimate())
    ensures forall m: nat | n + 8 < m && st.LabelAt(m) == 1 :: st.StateAt(m).revolutionTime == Stamp(st.spacing.Turn())
  {
    SyncedFrom(st, n, n + 8);
    RevolutionTimesPublished(st, n, n + 8);
    forall m: nat | n + 8 < m && st.LabelAt(m) == 1
      ensures st.StateAt(m).revolutionTime == Stamp(st.spacing.Turn())
    {
      RevolutionTimesPublished(st, n, m);
    }
  }

  lemma RealTurn(sp: Spacing, u: nat)
    requires sp == Spacing(5 * u, 6 * u, 9 * u) && 135 * u < TWO32
    ensures 8 * Stamp(sp.FirstEstimate()) == 9 * sp.Turn() && Stamp(sp.Turn()) == sp.Turn()
  {
    assert sp.FirstEstimate() == 135 * u && sp.Turn() == 120 * u;
    StampIsTrue(135 * u);
    StampIsTrue(120 * u);
  }

  /**
    On the real wheel every run with a usable first stamp syncs by the 39th edge, and eight edges later
    it publishes a revolution time that is an eighth too long; all later ones are the true turn.
  */
  lemma FirstRevolutionTimeIsAnEighthTooLong(st: Start, u: nat) returns (n: nat)
    requires st.Valid() && st.FirstStampUsable()
    requires 2 <= u && 135 * u < TWO32 && st.spacing == Spacing(5 * u, 6 * u, 9 * u)
    ensures n <= 38 && SyncBegins(st, n) && st.LabelAt(n + 8) == 1
    ensures 8 * st.StateAt(n + 8).revolutionTime == 9 * st.spacing.Turn()
    ensures forall m: nat | n + 8 < m && st.LabelAt(m) == 1 :: st.StateAt(m).revolutionTime == st.spacing.Turn()
  {
    RealWheel(u);
    SyncedFromEdge38(st, 38);
    n := FirstSync(st, 38);
    PublishedAfterSync(st, n);
    RealTurn(st.spacing, u);
  }

  // ------------------------------------------------------------------ the revolution count

  lemma {:induction false} NothingCountedBefore(st: Start, n: nat)
    requires st.Valid() && (forall k: nat | k < n :: !st.StateAt(k).sync.Full?)
    ensures st.StateAt(n).startRevolutions == 0
    decreases n
  {
    if n > 0 {
      NothingCountedBefore(st, n - 1);
      NextEdge(st, n);
    }
  }

  /** How often tooth 1 passes after edge `n` and up to edge `m`. */
  function ToothOnesPassed(st: Start, n: nat, m: nat): nat
    requires st.Valid()
    decreases m
  {
    if m <= n then 0 else ToothOnesPassed(st, n, m - 1) + if st.LabelAt(m) == 1 then 1 else 0
  }

  lemma CountedAtToothOne(s: State, now: uint32, tooth: int)
    requires IsLabel(tooth) && s.sync.Full? && s.count == tooth
    ensures EdgeStep(s, now).startRevolutions ==
      if NextLabel(tooth) == 1 then (s.startRevolutions + 1) % TWO32 else s.startRevolutions
  {
  }

  /** In sync at the true tooth. */
  ghost predicate InSyncAt(st: Start, k: nat)
    requires st.Valid()
  {
    st.StateAt(k).sync.Full? && st.StateAt(k).count == st.LabelAt(k)
  }

  function Revolutions(st: Start, k: nat): uint32
    requires st.Valid()
  {
    st.StateAt(k).startRevolutions
  }

  lemma EdgeCounts(st: Start, m: nat)
    requires st.Valid() && m > 0 && InSyncAt(st, m - 1)
    ensures Revolutions(st, m) ==
      if st.LabelAt(m) == 1 then (Revolutions(st, m - 1) + 1) % TWO32 else Revolutions(st, m - 1)
  {
    NextEdge(st, m);
    CountedAtToothOne(st.StateAt(m - 1), Stamp(st.TimeAt(m)), st.LabelAt(m - 1));
  }

  lemma CountsAdd(c: nat, passed: nat, before: nat, after: nat, isOne: bool)
    requires before == (c + passed) % TWO32 && after == if isOne then (before + 1) % TWO32 else before
    ensures after == (c + (passed + if isOne then 1 else 0)) % TWO32
  {
  }

  /** In sync, one revolution is counted at each tooth 1. */
  lemma {:induction false} RevolutionsAreCounted(st: Start, n: nat, m: nat)
    requires st.Valid() && m >= n && (forall k: nat | n <= k < m :: InSyncAt(st, k))
    ensures Revolutions(st, m) == (Revolutions(st, n) + ToothOnesPassed(st, n, m)) % TWO32
    decreases m
  {
    if m > n {
      RevolutionsAreCounted(st, n, m - 1);
      assert InSyncAt(st, m - 1);
      EdgeCounts(st, m);
      CountsAdd(Revolutions(st, n), ToothOnesPassed(st, n, m - 1), Revolutions(st, m - 1), Revolutions(st, m),
                st.LabelAt(m) == 1);
    }
  }

  /** And so it is from the edge that brings sync on. */
  lemma InSyncFrom(st: Start, n: nat, k: nat)
    requires st.Valid() && SyncBegins(st, n) && k >= n
    ensures InSyncAt(st, k)
  {
    SyncedFrom(st, n, k);
  }

  // ------------------------------------------------------------------ the stamps of tooth 1

  lemma SearchEstimates(s: State, now: uint32, interval: uint32)
    requires !s.sync.Full?
    ensures var s' := SearchingEdge(s, now, interval);
      s'.sync.Full? ==> s'.toothOneMinusOne == (s'.toothOne - 24 * s.lastGap) % TWO32
  {
  }

  lemma StampMinus(t: int, d: int)
    ensures (Stamp(t) - d) % TWO32 == Stamp(t - d)
  {
    var periods := t / TWO32;
    assert Stamp(t) - d == (t - d) - TWO32 * periods;
    WholePeriods(t - d, periods);
  }

  lemma EstimatesFit(st: Start, s: State, time: nat)
    requires st.Valid() && Synced(st, s, 16, time, true)
    requires s.toothOneMinusOne == (s.toothOne - 24 * st.spacing.wide) % TWO32
    ensures s.toothOne == Stamp(time - 15 * st.spacing.wide)
    ensures s.toothOneMinusOne == Stamp(time - 39 * st.spacing.wide)
  {
    StampMinus(time - 15 * st.spacing.wide, 24 * st.spacing.wide);
  }

  lemma FoundEstimate(st: Start, s: State, s': State, n: nat, tooth: int, time: nat, time': nat)
    requires st.Valid() && st.spacing.GapVisible() && st.FirstStampUsable() && IsLabel(tooth)
    requires Phase(st, s, n, tooth, time) && !s.sync.Full?
    requires time' == time + st.spacing.Into(NextLabel(tooth)) && s' == EdgeStep(s, Stamp(time'))
    ensures s'.sync.Full? ==> s'.toothOneMinusOne == (s'.toothOne - 24 * st.spacing.wide) % TWO32
  {
    if FreshAt(st, s, n, tooth) {
      FreshStep(st, s, tooth, time);
    } else if tooth == 14 || tooth == 22 {
      EdgeSees(s, time, st.spacing.gap);
      SearchEstimates(s.(last := Stamp(time')), Stamp(time'), st.spacing.gap);
    } else {
      CountingTooth(st, s, tooth, time);
    }
  }

  lemma FoundStamps(st: Start, s: State, s': State, n: nat, tooth: int, tooth': int, time: nat, time': nat)
    requires st.Valid() && st.spacing.GapVisible() && st.FirstStampUsable() && IsLabel(tooth)
    requires Phase(st, s, n, tooth, time) && !s.sync.Full?
    requires tooth' == NextLabel(tooth) && time' == time + st.spacing.Into(tooth') && s' == EdgeStep(s, Stamp(time'))
    ensures s'.sync.Full? ==> s'.toothOne == Stamp(time' - 15 * st.spacing.wide)
    ensures s'.sync.Full? ==> s'.toothOneMinusOne == Stamp(time' - 39 * st.spacing.wide)
  {
    UnsyncedStep(st, s, s', n, tooth, tooth', time, time');
    FoundEstimate(st, s, s', n, tooth, time, time');
    if s'.sync.Full? {
      EstimatesFit(st, s', time');
    }
  }

  /** The edge that brings sync puts two tooth ones where they would be if all the teeth were wide. */
  lemma EstimatedStamps(st: Start, m: nat, n: nat)
    requires st.Valid() && st.spacing.GapVisible() && st.FirstStampUsable()
    requires m >= 1 && n == m + 1 && !st.StateAt(m).sync.Full?
    ensures st.StateAt(n).sync.Full? ==>
              && st.StateAt(n).toothOne == Stamp(st.TimeAt(n) - 15 * st.spacing.wide)
              && st.StateAt(n).toothOneMinusOne == Stamp(st.TimeAt(n) - 39 * st.spacing.wide)
  {
    PhaseAt(st, m);
    NextEdge(st, n);
    FoundStamps(st, st.StateAt(m), st.StateAt(n), m, st.LabelAt(m), st.LabelAt(n), st.TimeAt(m), st.TimeAt(n));
  }

  /** From then on, at each tooth 1, they are the true stamps of this tooth 1 and the one before. */
  lemma ToothOneStamps(st: Start, n: nat, m: nat)
    requires st.Valid() && SyncBegins(st, n) && m > n && st.LabelAt(m) == 1
    ensures st.StateAt(m).toothOne == Stamp(st.TimeAt(m))
    ensures st.StateAt(m).toothOneMinusOne ==
            Stamp(st.TimeAt(m) - if m == n + 8 then st.spacing.FirstEstimate() else st.spacing.Turn())
  {
    SyncedFrom(st, n, m);
    SyncedFrom(st, n, m - 1);
    NextEdge(st, m);
    assert st.LabelAt(m - 1) == 24;
    StampsMoveOn(st, st.StateAt(m - 1), st.TimeAt(m - 1), m - 1 < n + 8);
  }

  lemma StampsMoveOn(st: Start, s: State, time: nat, first: bool)
    requires st.Valid() && Synced(st, s, 24, time, first)
    ensures var time' := time + st.spacing.regular;
      var s' := EdgeStep(s, Stamp(time'));
      && s'.toothOne == Stamp(time')
      && s'.toothOneMinusOne == Stamp(time' - if first then st.spacing.FirstEstimate() else st.spacing.Turn())
  {
  }
}
