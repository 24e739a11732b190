/**
  The Subaru 6/7 wheel: twelve crank teeth in two turns, with 3, 1, 2 and 1 cam teeth just before
  crank teeth 2, 5, 8 and 11.
*/
module Subaru67Cycle {
  import opened Machine
  import opened Decoders
  import opened Subaru67

  // ------------------------------------------------------------------ any signal at all

  /** What the decoder may meet; a stall may come while a log is being taken. */
  datatype Interrupt = Crank(now: uint32) | Cam(now: uint32) | Stalled(logging: bool)

  function Step(s: State, i: Interrupt): State {
    match i
    case Crank(now) => CrankStep(s, now)
    case Cam(now) => CamStep(s, now)
    case Stalled(logging) => StalledState(logging, s)
  }

  function RunAll(s: State, xs: seq<Interrupt>): State
    decreases |xs|
  {
    if xs == [] then s else RunAll(Step(s, xs[0]), xs[1..])
  }

  /** The count can index the table of the twelve tooth angles whenever sync is full. */
  predicate CountInRange(s: State) {
    s.count <= 13 && (s.sync.Full? ==> 1 <= s.count <= 12)
  }

  /** Under any order of interrupts, noise and stalls included, full sync comes with a count in 1..12. */
  lemma {:induction false} FullSyncHasAToothNumber(s: State, xs: seq<Interrupt>)
    requires CountInRange(s)
    ensures CountInRange(RunAll(s, xs))
    decreases |xs|
  {
    if xs != [] {
      FullSyncHasAToothNumber(Step(s, xs[0]), xs[1..]);
    }
  }

  // ------------------------------------------------------------------ the clean pattern

  /** A cam group and the three crank teeth that follow it. */
  datatype Block = Block(cams: seq<uint32>, cranks: seq<uint32>)

  predicate IsGroup(g: int) { 0 <= g < 4 }

  function NextGroup(g: int): int { if g == 3 then 0 else g + 1 }

  function CamTeeth(g: int): int { if g == 0 then 3 else if g == 2 then 2 else 1 }

  /** The number of the `j`th crank tooth after cam group `g`. */
  function CrankTooth(g: int, j: int): int {
    if g == 3 && j == 2 then 1 else 3 * g + 2 + j
  }

  function RunCams(s: State, ts: seq<uint32>): State
    decreases |ts|
  {
    if ts == [] then s else RunCams(CamStep(s, ts[0]), ts[1..])
  }

  function RunCranks(s: State, ts: seq<uint32>): State
    decreases |ts|
  {
    if ts == [] then s else RunCranks(CrankStep(s, ts[0]), ts[1..])
  }

  function RunBlock(s: State, b: Block): State {
    RunCranks(RunCams(s, b.cams), b.cranks)
  }

  /** No tooth is dropped by a noise filter. */
  predicate CamsPass(s: State, ts: seq<uint32>)
    decreases |ts|
  {
    ts == [] || (Elapsed(ts[0], s.lastSec) > s.secFilterTime && CamsPass(CamStep(s, ts[0]), ts[1..]))
  }

  predicate CranksPass(s: State, ts: seq<uint32>)
    decreases |ts|
  {
    ts == [] || (Elapsed(ts[0], s.last) >= s.filterTime && CranksPass(CrankStep(s, ts[0]), ts[1..]))
  }

  predicate Clean(s: State, g: int, b: Block) {
    && |b.cams| == CamTeeth(g) && |b.cranks| == 3
    && CamsPass(s, b.cams) && CranksPass(RunCams(s, b.cams), b.cranks)
  }

  predicate CleanRun(s: State, g: int, bs: seq<Block>)
    decreases |bs|
  {
    bs == [] || (Clean(s, g, bs[0]) && CleanRun(RunBlock(s, bs[0]), NextGroup(g), bs[1..]))
  }

  function RunBlocks(s: State, bs: seq<Block>): State
    decreases |bs|
  {
    if bs == [] then s else RunBlocks(RunBlock(s, bs[0]), bs[1..])
  }

  function GroupAfter(g: int, k: nat): int
    decreases k
  {
    if k == 0 then g else GroupAfter(NextGroup(g), k - 1)
  }

  /** Between two groups, with no cam tooth pending; the next group will be counted in full. */
  predicate Aligned(s: State) { s.sinceCam == 3 && s.camTeeth == 0 }

  /** As `Aligned`, or one group away from it. */
  predicate NearlyAligned(s: State) { 3 <= s.sinceCam <= 5 && s.camTeeth == 0 }

  /** A whole group is counted from any state that takes its first tooth. */
  lemma {:induction false} CamsAreCounted(s: State, ts: seq<uint32>)
    requires (s.sinceCam == 0 || s.sinceCam == 3) && CamsPass(s, ts) && ts != []
    ensures var s' := RunCams(s, ts);
      && s'.camTeeth == s.camTeeth + |ts| && s'.sinceCam == 0
      && s'.count == s.count && s'.sync == s.sync && s'.last == s.last
    decreases |ts|
  {
    if |ts| > 1 {
      CamsAreCounted(CamStep(s, ts[0]), ts[1..]);
    }
  }

  /** What a group does to a state in which its first tooth does not fit. */
  lemma CamsOutOfPlace(s: State, g: int, ts: seq<uint32>)
    requires IsGroup(g) && |ts| == CamTeeth(g) && CamsPass(s, ts)
    requires s.sinceCam != 0 && s.sinceCam != 3
    ensures RunCams(s, ts).sinceCam == if s.sinceCam > 3 then 0 else s.sinceCam
  {
    var s1 := CamStep(s, ts[0]);
    assert RunCams(s, ts) == RunCams(s1, ts[1..]);
    if s.sinceCam > 3 {
      if |ts| > 1 {
        CamsAreCounted(s1, ts[1..]);
      }
    } else if |ts| > 1 {
      var s2 := CamStep(s1, ts[1..][0]);
      assert RunCams(s1, ts[1..]) == RunCams(s2, ts[1..][1..]);
      if |ts| > 2 {
        assert RunCams(s2, ts[1..][1..]) == RunCams(CamStep(s2, ts[1..][1..][0]), []);
      }
    }
  }

  /** One accepted crank tooth uses up the cam teeth and is counted since the last of them. */
  lemma CrankUsesCams(s: State, now: uint32)
    requires Elapsed(now, s.last) >= s.filterTime
    ensures var s' := CrankStep(s, now);
      s'.camTeeth == 0 && s'.sinceCam == Next8(s.sinceCam) && s'.last == now && s'.filterTime == s.filterTime
  {
  }

  lemma FirstCrank(s: State, ts: seq<uint32>)
    requires ts != [] && CranksPass(s, ts)
    ensures Elapsed(ts[0], s.last) >= s.filterTime && CranksPass(CrankStep(s, ts[0]), ts[1..])
    ensures RunCranks(s, ts) == RunCranks(CrankStep(s, ts[0]), ts[1..])
    ensures CrankStep(s, ts[0]).last == ts[0] && CrankStep(s, ts[0]).filterTime == s.filterTime
  {
    CrankUsesCams(s, ts[0]);
  }

  lemma ThreeCranks(s: State, ts: seq<uint32>)
    requires |ts| == 3 && CranksPass(s, ts)
    ensures RunCranks(s, ts) == CrankStep(CrankStep(CrankStep(s, ts[0]), ts[1]), ts[2])
    ensures Elapsed(ts[0], s.last) >= s.filterTime
    ensures Elapsed(ts[1], ts[0]) >= s.filterTime && Elapsed(ts[2], ts[1]) >= s.filterTime
  {
    var s1, second := CrankStep(s, ts[0]), ts[1..];
    var s2, third := CrankStep(s1, ts[1]), second[1..];
    FirstCrank(s, ts);
    FirstCrank(s1, second);
    FirstCrank(s2, third);
    assert third[1..] == [];
  }

  /** Any state at all is nearly aligned one block later, and aligned one block after that. */
  lemma BlockAligns(s: State, g: int, b: Block)
    requires IsGroup(g) && Clean(s, g, b)
    ensures NearlyAligned(RunBlock(s, b))
    ensures NearlyAligned(s) ==> Aligned(RunBlock(s, b))
  {
    var c := RunCams(s, b.cams);
    if s.sinceCam == 0 || s.sinceCam == 3 {
      CamsAreCounted(s, b.cams);
    } else {
      CamsOutOfPlace(s, g, b.cams);
    }
    assert c.sinceCam <= 2;
    ThreeCranks(c, b.cranks);
    var c1 := CrankStep(c, b.cranks[0]);
    var c2 := CrankStep(c1, b.cranks[1]);
    CrankUsesCams(c, b.cranks[0]);
    CrankUsesCams(c1, b.cranks[1]);
    CrankUsesCams(c2, b.cranks[2]);
  }

  /** The count is the number of the last tooth of the block of group `g`. */
  predicate Exact(s: State, g: int) {
    Aligned(s) && s.count == CrankTooth(g, 2) && (g == 3 ==> s.sync.Full?)
  }

  /** A crank tooth with no cam tooth pending just advances a good count. */
  lemma PlainCrank(s: State, now: uint32)
    requires Elapsed(now, s.last) >= s.filterTime && s.camTeeth == 0 && s.count <= 12
    requires s.count == 12 ==> s.sync.Full?
    ensures var s' := CrankStep(s, now);
      && s'.count == (if s.count == 12 then 1 else s.count + 1)
      && s'.sync == s.sync && s'.camTeeth == 0 && s'.sinceCam == Next8(s.sinceCam)
      && s'.last == now && s'.filterTime == s.filterTime
  {
  }

  /** After the first crank tooth of a block has the right number, so have the other two. */
  lemma RestOfBlock(c: State, g: int, ts: seq<uint32>)
    requires IsGroup(g) && |ts| == 3 && CranksPass(c, ts) && c.sinceCam == 0
    requires CrankStep(c, ts[0]).count == CrankTooth(g, 0)
    requires g == 3 ==> CrankStep(c, ts[0]).sync.Full?
    ensures var c1 := CrankStep(c, ts[0]);
      var c2 := CrankStep(c1, ts[1]);
      && c2.count == CrankTooth(g, 1) && c2.sync == c1.sync
      && RunCranks(c, ts).sync == c1.sync && Exact(RunCranks(c, ts), g)
  {
    ThreeCranks(c, ts);
    var c1 := CrankStep(c, ts[0]);
    CrankUsesCams(c, ts[0]);
    PlainCrank(c1, ts[1]);
    PlainCrank(CrankStep(c1, ts[1]), ts[2]);
  }

  /**
    A group of two or three cam teeth, aligned at its first tooth, makes the count exact at the
    crank tooth that follows and at the two after that, whatever the count was.
  */
  lemma BigGroupLocks(s: State, g: int, b: Block)
    requires IsGroup(g) && CamTeeth(g) >= 2 && Aligned(s) && Clean(s, g, b)
    ensures Exact(RunBlock(s, b), g)
  {
    CamsAreCounted(s, b.cams);
    var c := RunCams(s, b.cams);
    ThreeCranks(c, b.cranks);
    assert CrankStep(c, b.cranks[0]).count == CrankTooth(g, 0);
    RestOfBlock(c, g, b.cranks);
  }

  /** The first crank tooth after a counted cam group, from an exact count. */
  lemma CrankAfterGroup(c: State, g: int, now: uint32)
    requires IsGroup(g) && c.sinceCam == 0 && c.camTeeth == CamTeeth(NextGroup(g))
    requires Elapsed(now, c.last) >= c.filterTime
    requires c.count == CrankTooth(g, 2) && (g == 3 ==> c.sync.Full?)
    ensures CrankStep(c, now).count == CrankTooth(NextGroup(g), 0) && CrankStep(c, now).sync.Full?
  {
  }

  /** From an exact count, every crank tooth of the next block is exact and in full sync. */
  lemma ExactStays(s: State, g: int, b: Block)
    requires IsGroup(g) && Exact(s, g) && Clean(s, NextGroup(g), b)
    ensures var c := RunCams(s, b.cams);
      var c1 := CrankStep(c, b.cranks[0]);
      var c2 := CrankStep(c1, b.cranks[1]);
      && c1.count == CrankTooth(NextGroup(g), 0) && c1.sync.Full?
      && c2.count == CrankTooth(NextGroup(g), 1) && c2.sync.Full?
    ensures Exact(RunBlock(s, b), NextGroup(g)) && RunBlock(s, b).sync.Full?
    ensures RunBlock(s, b).count == CrankTooth(NextGroup(g), 2)
  {
    CamsAreCounted(s, b.cams);
    var c := RunCams(s, b.cams);
    ThreeCranks(c, b.cranks);
    CrankAfterGroup(c, g, b.cranks[0]);
    RestOfBlock(c, NextGroup(g), b.cranks);
  }

  lemma {:induction false} ExactForEver(s: State, g: int, bs: seq<Block>)
    requires IsGroup(g) && Exact(s, g) && CleanRun(s, NextGroup(g), bs)
    ensures Exact(RunBlocks(s, bs), GroupAfter(g, |bs|))
    ensures bs != [] ==> RunBlocks(s, bs).sync.Full?
    decreases |bs|
  {
    if bs != [] {
      ExactStays(s, g, bs[0]);
      ExactForEver(RunBlock(s, bs[0]), NextGroup(g), bs[1..]);
    }
  }

  lemma FromAligned(s: State, g: int, bs: seq<Block>)
    requires IsGroup(g) && Aligned(s) && CleanRun(s, g, bs) && |bs| >= 2
    ensures Exact(RunBlocks(s, bs), GroupAfter(g, |bs| - 1))
    ensures |bs| >= 3 ==> RunBlocks(s, bs).sync.Full?
  {
    var s1, rest := RunBlock(s, bs[0]), bs[1..];
    if CamTeeth(g) >= 2 {
      BigGroupLocks(s, g, bs[0]);
      ExactForEver(s1, g, rest);
    } else {
      SmallThenBig(s, g, bs);
    }
  }

  lemma SmallThenBig(s: State, g: int, bs: seq<Block>)
    requires IsGroup(g) && CamTeeth(g) == 1 && Aligned(s) && CleanRun(s, g, bs) && |bs| >= 2
    ensures Exact(RunBlocks(s, bs), GroupAfter(g, |bs| - 1))
    ensures |bs| >= 3 ==> RunBlocks(s, bs).sync.Full?
  {
    var s1, rest := RunBlock(s, bs[0]), bs[1..];
    BlockAligns(s, g, bs[0]);
    BigGroupLocks(s1, NextGroup(g), rest[0]);
    ExactForEver(RunBlock(s1, rest[0]), NextGroup(g), rest[1..]);
    assert |rest[1..]| == |bs| - 2;
  }

  lemma FromNearlyAligned(s: State, g: int, bs: seq<Block>)
    requires IsGroup(g) && NearlyAligned(s) && CleanRun(s, g, bs) && |bs| >= 3
    ensures Exact(RunBlocks(s, bs), GroupAfter(g, |bs| - 1))
    ensures |bs| >= 4 ==> RunBlocks(s, bs).sync.Full?
  {
    var s1, rest := RunBlock(s, bs[0]), bs[1..];
    BlockAligns(s, g, bs[0]);
    FromAligned(s1, NextGroup(g), rest);
    assert |rest| == |bs| - 1;
  }

  /**
    Self-stabilisation: from any state whatever, at the start of any group, the count is exact once
    four groups have passed cleanly and stays exact, and sync is full from the fifth group on.
  */
  lemma SelfStabilises(s: State, g: int, bs: seq<Block>)
    requires IsGroup(g) && CleanRun(s, g, bs) && |bs| >= 4
    ensures Exact(RunBlocks(s, bs), GroupAfter(g, |bs| - 1))
    ensures |bs| >= 5 ==> RunBlocks(s, bs).sync.Full?
  {
    var s1, rest := RunBlock(s, bs[0]), bs[1..];
    BlockAligns(s, g, bs[0]);
    FromNearlyAligned(s1, NextGroup(g), rest);
    assert |rest| == |bs| - 1;
  }

  // ------------------------------------------------------------------ a small group, and the stamps of tooth 1

  /**
    A group of one cam tooth says that the tooth is number 5 or 11. A count of neither is set to 5, the
    sync it had is lost, and the loss is counted.
  */
  lemma SmallGroupGuesses(s: State, g: int, b: Block)
    requires IsGroup(g) && CamTeeth(g) == 1 && Aligned(s) && Clean(s, g, b)
    ensures var s' := CrankStep(RunCams(s, b.cams), b.cranks[0]);
      if s.count == 4 || s.count == 10 then s'.sync.Full? && s'.count == s.count + 1 && s'.syncLoss == s.syncLoss
      else s'.sync.None? && s'.count == 5
  {
    var c := RunCams(s, b.cams);
    CamsAreCounted(s, b.cams);
    ThreeCranks(c, b.cranks);
    SingleCam(s, b.cams);
    OneCamTooth(c, b.cranks[0]);
  }

  lemma SingleCam(s: State, ts: seq<uint32>)
    requires |ts| == 1 && Aligned(s) && CamsPass(s, ts)
    ensures RunCams(s, ts) == CamStep(s, ts[0]) && RunCams(s, ts).syncLoss == s.syncLoss
  {
    assert ts[1..] == [];
  }

  lemma OneCamTooth(c: State, now: uint32)
    requires c.camTeeth == 1 && Elapsed(now, c.last) >= c.filterTime
    ensures var s' := CrankStep(c, now);
      if c.count == 4 || c.count == 10 then s'.sync.Full? && s'.count == c.count + 1 && s'.syncLoss == c.syncLoss
      else s'.sync.None? && s'.count == 5
  {
  }

  /** What tooth 1 leaves behind: two stamps and the number of cycles. */
  datatype ToothOnes = ToothOnes(last: uint32, before: uint32, cycles: uint32)

  function Ones(s: State): ToothOnes { ToothOnes(s.toothOne, s.toothOneMinusOne, s.startRevolutions) }

  lemma {:induction false} CamsKeepOnes(s: State, ts: seq<uint32>)
    ensures Ones(RunCams(s, ts)) == Ones(s)
    decreases |ts|
  {
    if ts != [] {
      CamsKeepOnes(CamStep(s, ts[0]), ts[1..]);
    }
  }

  /** Only the end of a cycle touches them. */
  lemma CrankOnes(s: State, now: uint32)
    requires Elapsed(now, s.last) >= s.filterTime && s.count <= 12
    ensures Ones(CrankStep(s, now)) ==
      if s.count == 12 && CrankStep(s, now).sync.Full?
      then ToothOnes(now, s.toothOne, (s.startRevolutions + 1) % TWO32) else Ones(s)
  {
  }

  lemma RestKeepsOnes(c1: State, g: int, t1: uint32, t2: uint32)
    requires IsGroup(g) && c1.camTeeth == 0 && c1.count == CrankTooth(g, 0) && (g == 3 ==> c1.sync.Full?)
    requires Elapsed(t1, c1.last) >= c1.filterTime && Elapsed(t2, t1) >= c1.filterTime
    ensures Ones(CrankStep(CrankStep(c1, t1), t2)) ==
      if g == 3 then ToothOnes(t2, c1.toothOne, (c1.startRevolutions + 1) % TWO32) else Ones(c1)
  {
    CrankOnes(c1, t1);
    PlainCrank(c1, t1);
    CrankUsesCams(c1, t1);
    CrankOnes(CrankStep(c1, t1), t2);
    PlainCrank(CrankStep(c1, t1), t2);
  }

  /** A block of the fourth group ends with tooth 1, which takes its stamp; no other block touches the stamps. */
  lemma BlockOnes(s: State, g: int, b: Block)
    requires IsGroup(g) && Exact(s, g) && Clean(s, NextGroup(g), b)
    ensures Ones(RunBlock(s, b)) ==
      if NextGroup(g) == 3 then ToothOnes(b.cranks[2], s.toothOne, (s.startRevolutions + 1) % TWO32) else Ones(s)
  {
    var c := RunCams(s, b.cams);
    CamsAreCounted(s, b.cams);
    CamsKeepOnes(s, b.cams);
    ThreeCranks(c, b.cranks);
    CrankAfterGroup(c, g, b.cranks[0]);
    CrankUsesCams(c, b.cranks[0]);
    CrankOnes(c, b.cranks[0]);
    RestKeepsOnes(CrankStep(c, b.cranks[0]), NextGroup(g), b.cranks[1], b.cranks[2]);
  }

  /** The stamps that tooth 1 leaves in a run whose first block is that of group `g`. */
  function ToothOneStamps(g: int, bs: seq<Block>): seq<uint32>
    decreases |bs|
  {
    if bs == [] then []
    else
      (if g == 3 && |bs[0].cranks| == 3 then [bs[0].cranks[2]] else []) + ToothOneStamps(NextGroup(g), bs[1..])
  }

  /** The last two stamps of a list, and its length beyond the first two. */
  predicate LastTwo(s: State, first: State, stamps: seq<uint32>) {
    var all := [first.toothOneMinusOne, first.toothOne] + stamps;
    && s.toothOne == all[|all| - 1] && s.toothOneMinusOne == all[|all| - 2]
    && s.startRevolutions == (first.startRevolutions + |stamps|) % TWO32
  }

  lemma CountsAddUp(a: int, m: int, n: int)
    ensures ((a + m) % TWO32 + n) % TWO32 == (a + (m + n)) % TWO32
  {
  }

  lemma LastTwoOn(s: State, first: State, next: State, here: seq<uint32>, rest: seq<uint32>)
    requires LastTwo(next, first, here) && |here| <= 1 && LastTwo(s, next, rest)
    ensures LastTwo(s, first, here + rest)
  {
    CountsAddUp(first.startRevolutions, |here|, |rest|);
    if here == [] {
      assert here + rest == rest;
    } else {
      var x, y := first.toothOneMinusOne, first.toothOne;
      assert [x, y] + (here + rest) == [x] + ([y, here[0]] + rest);
    }
  }

  /**
    Over any clean run from an exact count: the two stamps are those of the last two tooth ones, in order,
    and one cycle is counted for each.
  */
  lemma {:induction false} ToothOnesAreTrue(s: State, g: int, bs: seq<Block>)
    requires IsGroup(g) && Exact(s, g) && CleanRun(s, NextGroup(g), bs)
    ensures LastTwo(RunBlocks(s, bs), s, ToothOneStamps(NextGroup(g), bs))
    decreases |bs|
  {
    if bs != [] {
      var s1, rest, g1 := RunBlock(s, bs[0]), bs[1..], NextGroup(g);
      ExactStays(s, g, bs[0]);
      BlockOnes(s, g, bs[0]);
      ToothOnesAreTrue(s1, g1, rest);
      var here := if g1 == 3 then [bs[0].cranks[2]] else [];
      LastTwoOn(RunBlocks(s1, rest), s, s1, here, ToothOneStamps(NextGroup(g1), rest));
    }
  }

  /** Tooth 1 comes once in four blocks. */
  lemma {:induction false} OneInFour(g: int, bs: seq<Block>)
    requires IsGroup(g) && forall b | b in bs :: |b.cranks| == 3
    ensures |ToothOneStamps(g, bs)| == (|bs| + g) / 4
    decreases |bs|
  {
    if bs != [] {
      OneInFour(NextGroup(g), bs[1..]);
    }
  }

  /** The revolution time computed from the two stamps, when it is computed at all. */
  function PublishedTime(s: State, cranking: bool): (micros: int) {
    if !s.sync.None? && !cranking && s.toothOneMinusOne != 0 && s.toothOne > s.toothOneMinusOne
    then (s.toothOne - s.toothOneMinusOne) / 2 else -1
  }

  /** What is published is half the true time of a cycle, unless the counter rolled over in it. */
  lemma HalfACycleIsPublished(s: State, cranking: bool, before: int, last: int)
    requires s.sync.Full? && s.toothOneMinusOne == Stamp(before) && s.toothOne == Stamp(last)
    requires before < last < before + TWO32
    ensures PublishedTime(s, cranking) != -1 <==>
            !cranking && Stamp(before) != 0 && before / TWO32 == last / TWO32
    ensures PublishedTime(s, cranking) != -1 ==> PublishedTime(s, cranking) == (last - before) / 2
  {
    StampDifference(last, before);
  }

  // ------------------------------------------------------------------ losses and noise

  /** The crank teeth at which so many cam teeth just before are right. */
  predicate Expects(camTeeth: nat, tooth: int) {
    (camTeeth == 1 && (tooth == 5 || tooth == 11)) || (camTeeth == 2 && tooth == 8) || (camTeeth == 3 && tooth == 2)
  }

  /** The number of the tooth that an accepted edge is, before the cam teeth are looked at. */
  function Tooth(s: State): int { if s.count >= 13 then 0 else s.count + 1 }

  /** When an accepted crank tooth finds or loses sync, and that each loss is counted. */
  lemma CrankSyncIff(s: State, now: uint32)
    requires Elapsed(now, s.last) >= s.filterTime && s.count < 0xFFFF
    ensures var s' := CrankStep(s, now);
      && (s'.sync.Full? <==> if s.camTeeth == 0 then s.sync.Full? && s.count < 13 else Expects(s.camTeeth, Tooth(s)))
      && s'.syncLoss == (s.syncLoss + (if s.count >= 13 then 1 else 0)
                         + (if s.camTeeth > 0 && !Expects(s.camTeeth, Tooth(s)) then 1 else 0)) % TWO8
      && (s.camTeeth > 0 || s.count >= 13 ==> !s'.sync.Partial?)
      && s'.last == now && s'.lastMinusOne == s.last
  {
  }

  /** Too many teeth in a cycle, or too many cam teeth, and no sync: the count is as it comes. */
  lemma CrankCountsWithoutSync(s: State, now: uint32)
    requires Elapsed(now, s.last) >= s.filterTime && s.count < 0xFFFF
    requires s.camTeeth > 3 || (s.camTeeth == 0 && (s.count >= 13 || !s.sync.Full?))
    ensures CrankStep(s, now).count == Tooth(s)
  {
  }

  /** A cam tooth three crank teeth after the last group, or after another cam tooth, counts if it passes the filter. */
  lemma CamCountsIff(s: State, now: uint32, gap: uint32)
    requires (s.sinceCam == 0 || s.sinceCam == 3) && gap == Elapsed(now, s.lastSec)
    ensures var s' := CamStep(s, now);
      && (s' == s <==> gap <= s.secFilterTime)
      && (gap > s.secFilterTime ==>
            && s'.camTeeth == s.camTeeth + 1 && s'.sinceCam == 0 && s'.lastSec == now
            && s'.sync == s.sync && s'.syncLoss == s.syncLoss && s'.count == s.count)
  {
  }

  /**
    After the first tooth of a group the filter is open; after any other, an edge within a quarter of the
    interval before is dropped, and no later one.
  */
  lemma CamNoiseIsDroppedIff(s: State, t1: uint32, t2: uint32, gap: uint32, d: uint32)
    requires (s.sinceCam == 0 || s.sinceCam == 3) && gap == Elapsed(t1, s.lastSec) > s.secFilterTime
    requires d == Elapsed(t2, t1)
    ensures var s1 := CamStep(s, t1);
      CamStep(s1, t2) == s1 <==> if s.camTeeth == 0 then d == 0 else 4 * d <= gap
  {
  }

  /** More than three crank teeth between cam teeth: sync is lost, and counted, and the cam teeth start anew. */
  lemma CamTooLate(s: State, now: uint32)
    requires s.sinceCam > 3
    ensures CamStep(s, now) == s.(sinceCam := 0, camTeeth := 0, sync := None, syncLoss := Next8(s.syncLoss))
  {
  }

  /** A cam tooth in the middle of three crank teeth is noise, and spoils the cam teeth before it. */
  lemma CamTooEarly(s: State, now: uint32)
    requires s.sinceCam == 1 || s.sinceCam == 2
    ensures CamStep(s, now) == s.(camTeeth := 0)
  {
  }

  /** What a stall clears and what it keeps. */
  lemma StallKeeps(logging: bool, s: State)
    ensures var r := StalledState(logging, s);
      && r.sync.None? && r.last == 0 && r.lastSec == 0 && r.camTeeth == 0 && r.sinceCam == 0 && r.startRevolutions == 0
      && r.lastMinusOne == s.lastMinusOne && r.syncLoss == s.syncLoss
      && r.toothOne == s.toothOne && r.toothOneMinusOne == s.toothOneMinusOne
      && (if logging then r.count == s.count && r.filterTime == 0 && r.secFilterTime == s.secFilterTime
          else r.count == 1 && r.filterTime == CRANK_FILTER && r.secFilterTime == 0)
  {
  }

  /** The crank filter is the time of one degree at the highest RPM. */
  lemma FilterIsOneDegree()
    ensures CRANK_FILTER == 9 && MAX_RPM == 18_000 && 9 * 360 * 300 <= MICROS_PER_SEC < 10 * 360 * 300
  {
  }
}
