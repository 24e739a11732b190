/** Why the NGC cam decoder finds its group: every consecutive pair of group sizes occurs once. */
module NgcCamTracking {
  import opened Machine
  import opened NgcCam

  predicate IsGroup(n: nat, group: int) { (n == 6 || n == 8) && 1 <= group <= n }

  function NextGroup(n: nat, group: int): int { if group == n then 1 else group + 1 }

  function PreviousGroup(n: nat, group: int): int { if group == 1 then n else group - 1 }

  /** The true number of teeth in a group. */
  function Size(n: nat, group: int): int
    requires IsGroup(n, group)
  {
    Pattern(n)[group]
  }

  lemma PairsAreUnique(n: nat, a: int, b: int)
    requires IsGroup(n, a) && IsGroup(n, b)
    requires Size(n, a) == Size(n, b)
    requires Size(n, PreviousGroup(n, a)) == Size(n, PreviousGroup(n, b))
    ensures a == b
  {
  }

  /** The teeth of the groups, and their order round the cam. */
  lemma GroupSizes(n: nat, group: int)
    requires IsGroup(n, group)
    ensures n == 6 ==> Size(n, group) == if group in {1, 4} then 3 else if group in {3, 5} then 2 else 1
    ensures n == 8 ==> Size(n, group) == if group in {4, 8} then 3 else if group in {3, 5, 6} then 2 else 1
    ensures Pattern(n)[group - 1] == Size(n, PreviousGroup(n, group))
    ensures Pattern(n)[group + 1] == Size(n, NextGroup(n, group))
  {
  }

  /** The search finds nothing exactly when no two consecutive groups have these sizes. */
  lemma {:induction false} FindGroupFailsIff(n: nat, from: nat, teeth: nat, lastTeeth: uint8)
    requires (n == 6 || n == 8) && 1 <= from <= n + 1
    ensures FindGroup(n, from, teeth, lastTeeth) == 0 <==>
            forall g | from <= g <= n :: teeth != Size(n, g) || lastTeeth != Size(n, PreviousGroup(n, g))
    decreases n + 1 - from
  {
    if from <= n {
      FindGroupFailsIff(n, from + 1, teeth, lastTeeth);
      GroupSizes(n, from);
    }
  }

  /** Without the sizes of two groups the number is left alone. */
  lemma UnknownSizesKeepNumber(n: nat, group: uint8, teeth: nat, lastTeeth: uint8)
    requires (n == 6 || n == 8) && group <= n && (teeth == 0 || lastTeeth == 0)
    ensures GroupCompleted(n, group, teeth, lastTeeth) == group
  {
  }

  /** A size that does not fit, and a pair of sizes that occurs nowhere: the number is given up. */
  lemma WrongSizesLoseNumber(n: nat, group: uint8, teeth: nat, lastTeeth: uint8)
    requires (n == 6 || n == 8) && group <= n && teeth > 0 && lastTeeth > 0
    requires group > 0 ==> teeth != Size(n, NextGroup(n, group))
    requires forall g | 1 <= g <= n :: teeth != Size(n, g) || lastTeeth != Size(n, PreviousGroup(n, g))
    ensures GroupCompleted(n, group, teeth, lastTeeth) == 0
  {
    if group > 0 {
      GroupSizes(n, group);
    }
    FindGroupFailsIff(n, 1, teeth, lastTeeth);
  }

  lemma {:induction false} FindGroupFinds(n: nat, from: nat, group: int)
    requires IsGroup(n, group) && 1 <= from <= group
    ensures FindGroup(n, from, Size(n, group), Size(n, PreviousGroup(n, group))) == group
    decreases group - from
  {
    if from < group {
      if Matches(n, from, Size(n, group), Size(n, PreviousGroup(n, group))) {
        PairsAreUnique(n, from, group);
      }
      FindGroupFinds(n, from + 1, group);
    }
  }

  /** When the true group is completed: the number is right, or a size has matched by coincidence. */
  lemma GroupCompletedIsRightOrFits(n: nat, c: uint8, group: int)
    requires IsGroup(n, group) && c <= n
    ensures var c' := GroupCompleted(n, c, Size(n, group), Size(n, PreviousGroup(n, group)));
      c' == group || (c > 0 && c' == NextGroup(n, c) && Size(n, c') == Size(n, group))
  {
    FindGroupFinds(n, 1, group);
  }

  /**
    When the true group is completed, the number is right if and only if none was believed in, or it was
    the one before, or the size of the next one believed in does not match.
  */
  lemma GroupCompletedIsRightIff(n: nat, c: uint8, group: int)
    requires IsGroup(n, group) && c <= n
    ensures GroupCompleted(n, c, Size(n, group), Size(n, PreviousGroup(n, group))) == group <==>
            c == 0 || NextGroup(n, c) == group || Size(n, NextGroup(n, c)) != Size(n, group)
  {
    FindGroupFinds(n, 1, group);
  }

  /** A right number stays right, through the wrap as well, whatever the last size on record is. */
  lemma RightStaysRight(n: nat, group: int, lastTeeth: uint8)
    requires IsGroup(n, group) && lastTeeth > 0
    ensures GroupCompleted(n, PreviousGroup(n, group), Size(n, group), lastTeeth) == group
  {
  }

  /** One group is not always enough: the decoder believes in group 3, and group 1 passes for group 4. */
  lemma OneGroupMayNotSuffice()
    ensures GroupCompleted(6, 3, Size(6, 1), Size(6, 6)) == 4
  {
  }

  // ------------------------------------------------------------------ edges

  function Run(n: nat, s: State, es: seq<Edge>): (s': State)
    requires (n == 6 || n == 8) && s.group <= n
    ensures s'.group <= n
    decreases |es|
  {
    if es == [] then s else Run(n, EdgeStep(n, s, es[0]), es[1..])
  }

  predicate Usable(e: Edge) { e.now != 0 && e.crankLast != 0 && e.crankMinusOne != 0 }

  function GapLimit(e: Edge): uint32 { (3 * Elapsed(e.crankLast, e.crankMinusOne)) % TWO32 }

  /** Teeth inside a group: each passes the filter and none looks like the start of a group. */
  predicate CleanTeeth(last: uint32, filterTime: uint32, es: seq<Edge>)
    decreases |es|
  {
    es == [] ||
    (&& Usable(es[0]) && filterTime < Elapsed(es[0].now, last) < GapLimit(es[0])
     && CleanTeeth(es[0].now, Elapsed(es[0].now, last) / 4, es[1..]))
  }

  /** A group: a long gap, then its teeth. */
  predicate CleanGroup(last: uint32, filterTime: uint32, es: seq<Edge>) {
    && es != [] && Usable(es[0])
    && filterTime < Elapsed(es[0].now, last) && Elapsed(es[0].now, last) >= GapLimit(es[0])
    && CleanTeeth(es[0].now, 0, es[1..])
  }

  lemma {:induction false} TeethAreCounted(n: nat, s: State, es: seq<Edge>)
    requires (n == 6 || n == 8) && s.group <= n
    requires s.lastSec != 0 && s.teeth > 0 && CleanTeeth(s.lastSec, s.filterTime, es)
    ensures var s' := Run(n, s, es);
      s'.teeth == s.teeth + |es| && s'.lastTeeth == s.lastTeeth && s'.group == s.group && s'.lastSec != 0
    decreases |es|
  {
    if es != [] {
      TeethAreCounted(n, EdgeStep(n, s, es[0]), es[1..]);
    }
  }

  /** How a clean group of `size` teeth takes the decoder from `s` to `s'`. */
  predicate Completes(n: nat, s: State, s': State, size: nat)
    requires (n == 6 || n == 8) && s.group <= n
  {
    && s'.group == GroupCompleted(n, s.group, s.teeth, s.lastTeeth)
    && s'.lastTeeth == s.teeth % TWO8 && s'.teeth == size && s'.lastSec != 0
  }

  /** A group completes the one before it, and is then counted itself. */
  lemma GroupIsCounted(n: nat, s: State, es: seq<Edge>)
    requires (n == 6 || n == 8) && s.group <= n && s.lastSec != 0
    requires CleanGroup(s.lastSec, s.filterTime, es)
    ensures Completes(n, s, Run(n, s, es), |es|)
  {
    var s1 := EdgeStep(n, s, es[0]);
    assert s1.teeth == 1 && s1.filterTime == 0;
    TeethAreCounted(n, s1, es[1..]);
  }

  /** A clean cam signal from the start of the true group `group` on. */
  predicate CleanStream(n: nat, s: State, group: int, gs: seq<seq<Edge>>)
    requires IsGroup(n, group) && s.group <= n
    decreases |gs|
  {
    gs == [] ||
    (&& CleanGroup(s.lastSec, s.filterTime, gs[0]) && |gs[0]| == Size(n, group)
     && CleanStream(n, Run(n, s, gs[0]), NextGroup(n, group), gs[1..]))
  }

  function RunGroups(n: nat, s: State, gs: seq<seq<Edge>>): (s': State)
    requires (n == 6 || n == 8) && s.group <= n
    ensures s'.group <= n
    decreases |gs|
  {
    if gs == [] then s else RunGroups(n, Run(n, s, gs[0]), gs[1..])
  }

  function GroupAfter(n: nat, group: int, k: nat): (g: int)
    requires IsGroup(n, group)
    ensures IsGroup(n, g)
    decreases k
  {
    if k == 0 then group else GroupAfter(n, NextGroup(n, group), k - 1)
  }

  /** In the middle of `group`, with the sizes of that group and of the one before it on record. */
  predicate Counted(n: nat, s: State, group: int)
    requires IsGroup(n, group)
  {
    s.lastSec != 0 && s.group <= n && s.teeth == Size(n, group) && s.lastTeeth == Size(n, PreviousGroup(n, group))
  }

  /** Exact tracking: the number held is that of the group completed last. */
  predicate Exact(n: nat, s: State, group: int)
    requires IsGroup(n, group)
  {
    Counted(n, s, group) && s.group == PreviousGroup(n, group)
  }

  /** The first group of a stream, and what is left of it. */
  lemma StreamHead(n: nat, s: State, group: int, gs: seq<seq<Edge>>)
    requires IsGroup(n, group) && s.group <= n && s.lastSec != 0 && CleanStream(n, s, group, gs) && gs != []
    ensures |gs[0]| == Size(n, group) && Completes(n, s, Run(n, s, gs[0]), Size(n, group))
    ensures CleanStream(n, Run(n, s, gs[0]), NextGroup(n, group), gs[1..])
    ensures RunGroups(n, s, gs) == RunGroups(n, Run(n, s, gs[0]), gs[1..])
  {
    GroupIsCounted(n, s, gs[0]);
  }

  lemma GroupAfterHead(n: nat, group: int, k: nat)
    requires IsGroup(n, group) && k > 0
    ensures GroupAfter(n, group, k) == GroupAfter(n, NextGroup(n, group), k - 1)
  {
  }

  lemma ExactStep(n: nat, s: State, s': State, group: int)
    requires IsGroup(n, group) && Exact(n, s, group) && Completes(n, s, s', Size(n, NextGroup(n, group)))
    ensures Exact(n, s', NextGroup(n, group))
  {
    SizeBounds(n, group);
    SizeBounds(n, PreviousGroup(n, group));
    PreviousOfNext(n, group);
    RightStaysRight(n, group, s.lastTeeth);
  }

  lemma {:induction false} ExactForEver(n: nat, s: State, group: int, gs: seq<seq<Edge>>)
    requires IsGroup(n, group) && Exact(n, s, group) && CleanStream(n, s, NextGroup(n, group), gs)
    ensures Exact(n, RunGroups(n, s, gs), GroupAfter(n, group, |gs|))
    decreases |gs|
  {
    if gs != [] {
      StreamHead(n, s, NextGroup(n, group), gs);
      ExactStep(n, s, Run(n, s, gs[0]), group);
      ExactForEver(n, Run(n, s, gs[0]), NextGroup(n, group), gs[1..]);
      GroupAfterHead(n, group, |gs|);
    }
  }

  /** The number held is right, or the size of the group completed last has matched by coincidence. */
  predicate Plausible(n: nat, s: State, group: int)
    requires IsGroup(n, group)
  {
    var done := PreviousGroup(n, group);
    Counted(n, s, group) && (s.group == done || (s.group > 0 && Size(n, s.group) == Size(n, done)))
  }

  lemma CoincidenceEnds(n: nat, c: uint8, group: int)
    requires IsGroup(n, group) && c <= n
    requires c == PreviousGroup(n, group) || (c > 0 && Size(n, c) == Size(n, PreviousGroup(n, group)))
    ensures GroupCompleted(n, c, Size(n, group), Size(n, PreviousGroup(n, group))) == group
  {
    var c' := GroupCompleted(n, c, Size(n, group), Size(n, PreviousGroup(n, group)));
    GroupCompletedIsRightOrFits(n, c, group);
    if c' != group {
      PreviousOfNext(n, c);
      PairsAreUnique(n, c', group);
    }
  }

  lemma SizeBounds(n: nat, group: int)
    requires IsGroup(n, group)
    ensures 1 <= Size(n, group) <= 3
  {
  }

  lemma PreviousOfNext(n: nat, group: int)
    requires IsGroup(n, group)
    ensures IsGroup(n, NextGroup(n, group)) && PreviousGroup(n, NextGroup(n, group)) == group
  {
  }

  /** One more group settles a plausible number: a coincidence cannot last for a pair of groups. */
  lemma PlausibleBecomesExact(n: nat, s: State, s': State, group: int)
    requires IsGroup(n, group) && Plausible(n, s, group) && Completes(n, s, s', Size(n, NextGroup(n, group)))
    ensures Exact(n, s', NextGroup(n, group))
  {
    CoincidenceEnds(n, s.group, group);
    SizeBounds(n, group);
    PreviousOfNext(n, group);
  }

  lemma CountedBecomesPlausible(n: nat, s: State, s': State, group: int)
    requires IsGroup(n, group) && Counted(n, s, group) && Completes(n, s, s', Size(n, NextGroup(n, group)))
    ensures Plausible(n, s', NextGroup(n, group))
  {
    GroupCompletedIsRightOrFits(n, s.group, group);
    SizeBounds(n, group);
    PreviousOfNext(n, group);
  }

  lemma ExactFromPlausible(n: nat, s: State, group: int, gs: seq<seq<Edge>>)
    requires IsGroup(n, group) && Plausible(n, s, group) && CleanStream(n, s, NextGroup(n, group), gs) && |gs| >= 1
    ensures Exact(n, RunGroups(n, s, gs), GroupAfter(n, group, |gs|))
  {
    var s1, next, rest := Run(n, s, gs[0]), NextGroup(n, group), gs[1..];
    StreamHead(n, s, next, gs);
    PlausibleBecomesExact(n, s, s1, group);
    ExactForEver(n, s1, next, rest);
    GroupAfterHead(n, group, |gs|);
  }

  /**
    With the sizes of two groups on record and any group number at all, two more complete groups
    make the number exact, and it is exact at every group after that.
  */
  lemma ExactAfterTwoGroups(n: nat, s: State, group: int, gs: seq<seq<Edge>>)
    requires IsGroup(n, group) && Counted(n, s, group) && CleanStream(n, s, NextGroup(n, group), gs) && |gs| >= 2
    ensures Exact(n, RunGroups(n, s, gs), GroupAfter(n, group, |gs|))
  {
    StreamHead(n, s, NextGroup(n, group), gs);
    CountedBecomesPlausible(n, s, Run(n, s, gs[0]), group);
    ExactFromPlausible(n, Run(n, s, gs[0]), NextGroup(n, group), gs[1..]);
    GroupAfterHead(n, group, |gs|);
  }

  /** In the middle of `group`, all of whose teeth have been counted. */
  predicate Tallied(n: nat, s: State, group: int)
    requires IsGroup(n, group)
  {
    s.group <= n && s.lastSec != 0 && s.teeth == Size(n, group)
  }

  lemma AnyBecomesTallied(n: nat, s: State, s': State, group: int)
    requires IsGroup(n, group) && s.group <= n && Completes(n, s, s', Size(n, group))
    ensures Tallied(n, s', group)
  {
  }

  lemma TalliedBecomesCounted(n: nat, s: State, s': State, group: int)
    requires IsGroup(n, group) && Tallied(n, s, group) && Completes(n, s, s', Size(n, NextGroup(n, group)))
    ensures Counted(n, s', NextGroup(n, group))
  {
    SizeBounds(n, group);
    PreviousOfNext(n, group);
  }

  lemma ExactAfterThreeGroups(n: nat, s: State, group: int, gs: seq<seq<Edge>>)
    requires IsGroup(n, group) && Tallied(n, s, group) && CleanStream(n, s, NextGroup(n, group), gs) && |gs| >= 3
    ensures Exact(n, RunGroups(n, s, gs), GroupAfter(n, group, |gs|))
  {
    StreamHead(n, s, NextGroup(n, group), gs);
    TalliedBecomesCounted(n, s, Run(n, s, gs[0]), group);
    ExactAfterTwoGroups(n, Run(n, s, gs[0]), NextGroup(n, group), gs[1..]);
    GroupAfterHead(n, group, |gs|);
  }

  lemma TalliedAfterOneGroup(n: nat, s: State, group: int, gs: seq<seq<Edge>>)
    requires IsGroup(n, group) && s.group <= n && s.lastSec != 0
    requires CleanStream(n, s, group, gs) && gs != []
    ensures var s1 := Run(n, s, gs[0]);
      && Tallied(n, s1, group) && CleanStream(n, s1, NextGroup(n, group), gs[1..])
      && RunGroups(n, s, gs) == RunGroups(n, s1, gs[1..])
  {
    StreamHead(n, s, group, gs);
    AnyBecomesTallied(n, s, Run(n, s, gs[0]), group);
  }

  /**
    Self-stabilisation from any state with a cam stamp: any group number, any counts on record. From the
    fourth clean group on, the group number is exact.
  */
  lemma SelfStabilises(n: nat, s: State, group: int, gs: seq<seq<Edge>>)
    requires IsGroup(n, group) && s.group <= n && s.lastSec != 0
    requires CleanStream(n, s, group, gs) && |gs| >= 4
    ensures Exact(n, RunGroups(n, s, gs), GroupAfter(n, group, |gs[1..]|))
  {
    TalliedAfterOneGroup(n, s, group, gs);
    ExactAfterThreeGroups(n, Run(n, s, gs[0]), group, gs[1..]);
  }

  /** No edge is stamped zero. */
  predicate Stamped(es: seq<Edge>) { forall e | e in es :: e.now != 0 }

  lemma {:induction false} StampIsKept(n: nat, s: State, es: seq<Edge>)
    requires (n == 6 || n == 8) && s.group <= n && s.lastSec != 0 && Stamped(es)
    ensures Run(n, s, es).lastSec != 0
    decreases |es|
  {
    if es != [] {
      StampIsKept(n, EdgeStep(n, s, es[0]), es[1..]);
    }
  }

  /** Without a cam stamp, as after set-up, the first edge above the filter leaves one. */
  lemma FirstStamp(n: nat, s: State, pre: seq<Edge>)
    requires (n == 6 || n == 8) && s.group <= n && s.lastSec == 0
    requires pre != [] && pre[0].now > s.filterTime && Stamped(pre)
    ensures Run(n, s, pre).lastSec != 0
  {
    assert Elapsed(pre[0].now, 0) == pre[0].now;
    StampIsKept(n, EdgeStep(n, s, pre[0]), pre[1..]);
  }

  /**
    From set-up, or any other state without a cam stamp, after any edges at all of which the first is
    above the filter: exact from the fourth clean group on.
  */
  lemma SelfStabilisesFromSetup(n: nat, s: State, pre: seq<Edge>, group: int, gs: seq<seq<Edge>>)
    requires IsGroup(n, group) && s.group <= n && s.lastSec == 0
    requires pre != [] && pre[0].now > s.filterTime && Stamped(pre)
    requires CleanStream(n, Run(n, s, pre), group, gs) && |gs| >= 4
    ensures Exact(n, RunGroups(n, Run(n, s, pre), gs), GroupAfter(n, group, |gs[1..]|))
  {
    FirstStamp(n, s, pre);
    SelfStabilises(n, Run(n, s, pre), group, gs);
  }

  /**
    Noise on the cam signal: after a tooth inside a group, an edge within a quarter of the interval before
    leaves the decoder untouched, and no later one does.
  */
  lemma NoiseIsDroppedIff(n: nat, s: State, e1: Edge, e2: Edge, gap: uint32, d: uint32)
    requires (n == 6 || n == 8) && s.group <= n && s.lastSec != 0 && s.teeth > 0 && Usable(e1)
    requires gap == Elapsed(e1.now, s.lastSec) && d == Elapsed(e2.now, e1.now)
    requires s.filterTime < gap < GapLimit(e1)
    ensures var s1 := EdgeStep(n, s, e1);
      EdgeStep(n, s1, e2) == s1 <==> 4 * d <= gap
  {
  }

  /** After the first tooth of a group the filter is open: only an edge in the same microsecond is dropped. */
  lemma FilterOpensAtGroup(n: nat, s: State, e1: Edge, e2: Edge)
    requires (n == 6 || n == 8) && s.group <= n && s.lastSec != 0 && Usable(e1)
    requires s.filterTime < Elapsed(e1.now, s.lastSec) && Elapsed(e1.now, s.lastSec) >= GapLimit(e1)
    ensures var s1 := EdgeStep(n, s, e1);
      EdgeStep(n, s1, e2) == s1 <==> e2.now == e1.now
  {
  }

  /** Teeth before the first gap are not counted. */
  lemma StragglersAreNotCounted(n: nat, s: State, e: Edge)
    requires (n == 6 || n == 8) && s.group <= n && s.lastSec != 0 && s.teeth == 0 && Usable(e)
    requires s.filterTime < Elapsed(e.now, s.lastSec) < GapLimit(e)
    ensures EdgeStep(n, s, e) == s.(lastSec := e.now)
  {
  }
}
