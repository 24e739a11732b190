/**
  How long a time may be for the angle it came from to be got back from it, whatever the speed.

  A time below 30531 microseconds always gives back its angle. Up to 29000 the error bounds of the two
  conversions are enough. Beyond, from 18000 microseconds a revolution on, they still are. For faster
  revolutions the two rounded factors are looked at one by one: their errors never conspire, except at
  15350 microseconds a revolution.
*/
module CrankRoundTrip {
  import opened Machine
  import opened FixedPoint
  import opened CrankMaths

  /** The two factors as one would multiply them: 1/32768ths times 1/256ths. */
  const ONE := 0x80_0000

  /** Degrees per microsecond and microseconds per degree, each the nearest to its true value. */
  predicate Rounded(r: int, d: int, m: int) {
    -r <= 2 * (r * d - 360 * 32768) <= r && -180 <= 360 * m - 256 * r <= 180
  }

  /** The product of the factors is near enough to one: scaled by the angle, it is off by less than half a degree. */
  predicate ErrorIsSmall(angle: int, d: int, m: int) {
    -(0x40_0000 - 128 * d) < angle * (m * d - ONE) < 0x40_0000 - 128 * d
  }

  /**
    One value of `d`: the speeds it is for, the values `m` can have with it, and the largest angle whose
    time is below 30531.
  */
  lemma Row(r: int, d: int, m: int, angle: nat, rLow: int, rHigh: int, mLow: int, mHigh: int, top: int)
    requires 0 < d && Rounded(r, d, m) && r != 15350 && angle <= 720 && angle * m <= 7_815_807
    requires (rLow - 1) * (2 * d + 1) < 720 * 32768
    requires 720 * 32768 < (rHigh + 1) * (2 * d - 1) || (rHigh == 15349 && 720 * 32768 < (rHigh + 2) * (2 * d - 1))
    requires 360 * (mLow - 1) + 180 < 256 * rLow && 256 * rHigh + 180 < 360 * (mHigh + 1)
    requires 0 < mLow && (top == 720 || 7_815_807 < (top + 1) * mLow)
    requires -(0x40_0000 - 128 * d) < top * (mLow * d - ONE) && top * (mHigh * d - ONE) < 0x40_0000 - 128 * d
    requires mLow * d <= ONE <= mHigh * d && 0 <= top
    ensures ErrorIsSmall(angle, d, m)
  {
    SpeedsOf(r, d, rLow, rHigh);
    AngleBelow(angle, m, mLow, top);
    ScaleMonotone(d, mLow, m);
    ScaleMonotone(d, m, mHigh);
    ErrorBetween(angle, top, m * d - ONE, mLow * d - ONE, mHigh * d - ONE);
  }

  lemma SpeedsOf(r: int, d: int, rLow: int, rHigh: int)
    requires 0 < d && -r <= 2 * (r * d - 360 * 32768) <= r && r != 15350
    requires (rLow - 1) * (2 * d + 1) < 720 * 32768
    requires 720 * 32768 < (rHigh + 1) * (2 * d - 1) || (rHigh == 15349 && 720 * 32768 < (rHigh + 2) * (2 * d - 1))
    ensures rLow <= r <= rHigh
  {
    assert r * (2 * d + 1) >= 720 * 32768 >= r * (2 * d - 1);
    if r < rLow {
      ScaleMonotone(2 * d + 1, r, rLow - 1);
    } else if r > rHigh + 1 {
      ScaleMonotone(2 * d - 1, rHigh + 2, r);
      ScaleMonotone(2 * d - 1, rHigh + 1, r);
    }
  }

  lemma AngleBelow(angle: nat, m: int, mLow: int, top: int)
    requires 0 < mLow <= m && angle <= 720 && angle * m <= 7_815_807 && (top == 720 || 7_815_807 < (top + 1) * mLow)
    ensures angle <= top
  {
    if angle > top && top != 720 {
      ScaleMonotone(angle, mLow, m);
      ScaleMonotone(mLow, top + 1, angle);
    }
  }

  lemma ErrorBetween(angle: nat, top: int, error: int, low: int, high: int)
    requires angle <= top && low <= error <= high && low <= 0 <= high
    ensures top * low <= angle * error <= top * high
  {
    ScaleMonotone(angle, error, high);
    ScaleMonotone(high, angle, top);
    ScaleMonotone(angle, low, error);
    ScaleMonotone(-low, angle, top);
    assert angle * low == -(angle * -low) && top * low == -(top * -low);
  }

  // ------------------------------------------------------------------ the factors, value by value

  lemma Degrees655(r: int, d: int, m: int, angle: nat)
    requires Rounded(r, d, m) && r != 15350 && angle <= 720 && angle * m <= 7_815_807 && 655 <= d <= 670
    ensures ErrorIsSmall(angle, d, m)
  {
    if d == 655 { Row(r, d, m, angle, 17997, 18023, 12798, 12816, 610); }
    if d == 656 { Row(r, d, m, angle, 17969, 17996, 12778, 12797, 611); }
    if d == 657 { Row(r, d, m, angle, 17942, 17968, 12759, 12777, 612); }
    if d == 658 { Row(r, d, m, angle, 17915, 17941, 12740, 12758, 613); }
    if d == 659 { Row(r, d, m, angle, 17888, 17914, 12720, 12739, 614); }
    if d == 660 { Row(r, d, m, angle, 17860, 17887, 12700, 12720, 615); }
    if d == 661 { Row(r, d, m, angle, 17833, 17859, 12681, 12700, 616); }
    if d == 662 { Row(r, d, m, angle, 17807, 17832, 12663, 12681, 617); }
    if d == 663 { Row(r, d, m, angle, 17780, 17806, 12644, 12662, 618); }
    if d == 664 { Row(r, d, m, angle, 17753, 17779, 12624, 12643, 619); }
    if d == 665 { Row(r, d, m, angle, 17726, 17752, 12605, 12624, 620); }
    if d == 666 { Row(r, d, m, angle, 17700, 17725, 12587, 12604, 620); }
    if d == 667 { Row(r, d, m, angle, 17673, 17699, 12567, 12586, 621); }
    if d == 668 { Row(r, d, m, angle, 17647, 17672, 12549, 12567, 622); }
    if d == 669 { Row(r, d, m, angle, 17620, 17646, 12530, 12548, 623); }
    if d == 670 { Row(r, d, m, angle, 17594, 17619, 12511, 12529, 624); }
  }

  lemma Degrees671(r: int, d: int, m: int, angle: nat)
    requires Rounded(r, d, m) && r != 15350 && angle <= 720 && angle * m <= 7_815_807 && 671 <= d <= 686
    ensures ErrorIsSmall(angle, d, m)
  {
    if d == 671 { Row(r, d, m, angle, 17568, 17593, 12493, 12511, 625); }
    if d == 672 { Row(r, d, m, angle, 17542, 17567, 12474, 12492, 626); }
    if d == 673 { Row(r, d, m, angle, 17516, 17541, 12456, 12474, 627); }
    if d == 674 { Row(r, d, m, angle, 17490, 17515, 12437, 12455, 628); }
    if d == 675 { Row(r, d, m, angle, 17464, 17489, 12419, 12437, 629); }
    if d == 676 { Row(r, d, m, angle, 17438, 17463, 12400, 12418, 630); }
    if d == 677 { Row(r, d, m, angle, 17412, 17437, 12382, 12400, 631); }
    if d == 678 { Row(r, d, m, angle, 17387, 17411, 12364, 12381, 632); }
    if d == 679 { Row(r, d, m, angle, 17361, 17386, 12346, 12363, 633); }
    if d == 680 { Row(r, d, m, angle, 17336, 17360, 12328, 12345, 633); }
    if d == 681 { Row(r, d, m, angle, 17310, 17335, 12309, 12327, 634); }
    if d == 682 { Row(r, d, m, angle, 17285, 17309, 12292, 12309, 635); }
    if d == 683 { Row(r, d, m, angle, 17259, 17284, 12273, 12291, 636); }
    if d == 684 { Row(r, d, m, angle, 17234, 17258, 12255, 12272, 637); }
    if d == 685 { Row(r, d, m, angle, 17209, 17233, 12238, 12255, 638); }
    if d == 686 { Row(r, d, m, angle, 17184, 17208, 12220, 12237, 639); }
  }

  lemma Degrees687(r: int, d: int, m: int, angle: nat)
    requires Rounded(r, d, m) && r != 15350 && angle <= 720 && angle * m <= 7_815_807 && 687 <= d <= 702
    ensures ErrorIsSmall(angle, d, m)
  {
    if d == 687 { Row(r, d, m, angle, 17159, 17183, 12202, 12219, 640); }
    if d == 688 { Row(r, d, m, angle, 17134, 17158, 12184, 12201, 641); }
    if d == 689 { Row(r, d, m, angle, 17109, 17133, 12166, 12183, 642); }
    if d == 690 { Row(r, d, m, angle, 17084, 17108, 12149, 12166, 643); }
    if d == 691 { Row(r, d, m, angle, 17060, 17083, 12132, 12148, 644); }
    if d == 692 { Row(r, d, m, angle, 17035, 17059, 12114, 12131, 645); }
    if d == 693 { Row(r, d, m, angle, 17011, 17034, 12097, 12113, 646); }
    if d == 694 { Row(r, d, m, angle, 16986, 17010, 12079, 12096, 647); }
    if d == 695 { Row(r, d, m, angle, 16962, 16985, 12062, 12078, 647); }
    if d == 696 { Row(r, d, m, angle, 16937, 16961, 12044, 12061, 648); }
    if d == 697 { Row(r, d, m, angle, 16913, 16936, 12027, 12043, 649); }
    if d == 698 { Row(r, d, m, angle, 16889, 16912, 12010, 12026, 650); }
    if d == 699 { Row(r, d, m, angle, 16865, 16888, 11993, 12009, 651); }
    if d == 700 { Row(r, d, m, angle, 16841, 16864, 11976, 11992, 652); }
    if d == 701 { Row(r, d, m, angle, 16817, 16840, 11959, 11975, 653); }
    if d == 702 { Row(r, d, m, angle, 16793, 16816, 11942, 11958, 654); }
  }

  lemma Degrees703(r: int, d: int, m: int, angle: nat)
    requires Rounded(r, d, m) && r != 15350 && angle <= 720 && angle * m <= 7_815_807 && 703 <= d <= 718
    ensures ErrorIsSmall(angle, d, m)
  {
    if d == 703 { Row(r, d, m, angle, 16769, 16792, 11925, 11941, 655); }
    if d == 704 { Row(r, d, m, angle, 16745, 16768, 11908, 11924, 656); }
    if d == 705 { Row(r, d, m, angle, 16721, 16744, 11890, 11907, 657); }
    if d == 706 { Row(r, d, m, angle, 16698, 16720, 11874, 11890, 658); }
    if d == 707 { Row(r, d, m, angle, 16674, 16697, 11857, 11873, 659); }
    if d == 708 { Row(r, d, m, angle, 16650, 16673, 11840, 11856, 660); }
    if d == 709 { Row(r, d, m, angle, 16627, 16649, 11824, 11839, 661); }
    if d == 710 { Row(r, d, m, angle, 16604, 16626, 11807, 11823, 661); }
    if d == 711 { Row(r, d, m, angle, 16580, 16603, 11790, 11807, 662); }
    if d == 712 { Row(r, d, m, angle, 16557, 16579, 11774, 11790, 663); }
    if d == 713 { Row(r, d, m, angle, 16534, 16556, 11758, 11773, 664); }
    if d == 714 { Row(r, d, m, angle, 16511, 16533, 11741, 11757, 665); }
    if d == 715 { Row(r, d, m, angle, 16488, 16510, 11725, 11740, 666); }
    if d == 716 { Row(r, d, m, angle, 16465, 16487, 11708, 11724, 667); }
    if d == 717 { Row(r, d, m, angle, 16442, 16464, 11692, 11708, 668); }
    if d == 718 { Row(r, d, m, angle, 16419, 16441, 11676, 11691, 669); }
  }

  lemma Degrees719(r: int, d: int, m: int, angle: nat)
    requires Rounded(r, d, m) && r != 15350 && angle <= 720 && angle * m <= 7_815_807 && 719 <= d <= 734
    ensures ErrorIsSmall(angle, d, m)
  {
    if d == 719 { Row(r, d, m, angle, 16396, 16418, 11659, 11675, 670); }
    if d == 720 { Row(r, d, m, angle, 16373, 16395, 11643, 11659, 671); }
    if d == 721 { Row(r, d, m, angle, 16350, 16372, 11627, 11642, 672); }
    if d == 722 { Row(r, d, m, angle, 16328, 16349, 11611, 11626, 673); }
    if d == 723 { Row(r, d, m, angle, 16305, 16327, 11595, 11610, 674); }
    if d == 724 { Row(r, d, m, angle, 16283, 16304, 11579, 11594, 674); }
    if d == 725 { Row(r, d, m, angle, 16260, 16282, 11563, 11578, 675); }
    if d == 726 { Row(r, d, m, angle, 16238, 16259, 11547, 11562, 676); }
    if d == 727 { Row(r, d, m, angle, 16216, 16237, 11531, 11546, 677); }
    if d == 728 { Row(r, d, m, angle, 16193, 16215, 11515, 11531, 678); }
    if d == 729 { Row(r, d, m, angle, 16171, 16192, 11499, 11514, 679); }
    if d == 730 { Row(r, d, m, angle, 16149, 16170, 11484, 11499, 680); }
    if d == 731 { Row(r, d, m, angle, 16127, 16148, 11468, 11483, 681); }
    if d == 732 { Row(r, d, m, angle, 16105, 16126, 11452, 11467, 682); }
    if d == 733 { Row(r, d, m, angle, 16083, 16104, 11437, 11452, 683); }
    if d == 734 { Row(r, d, m, angle, 16061, 16082, 11421, 11436, 684); }
  }

  lemma Degrees735(r: int, d: int, m: int, angle: nat)
    requires Rounded(r, d, m) && r != 15350 && angle <= 720 && angle * m <= 7_815_807 && 735 <= d <= 750
    ensures ErrorIsSmall(angle, d, m)
  {
    if d == 735 { Row(r, d, m, angle, 16039, 16060, 11406, 11420, 685); }
    if d == 736 { Row(r, d, m, angle, 16017, 16038, 11390, 11405, 686); }
    if d == 737 { Row(r, d, m, angle, 15996, 16016, 11375, 11389, 687); }
    if d == 738 { Row(r, d, m, angle, 15974, 15995, 11359, 11374, 688); }
    if d == 739 { Row(r, d, m, angle, 15952, 15973, 11344, 11359, 688); }
    if d == 740 { Row(r, d, m, angle, 15931, 15951, 11329, 11343, 689); }
    if d == 741 { Row(r, d, m, angle, 15909, 15930, 11313, 11328, 690); }
    if d == 742 { Row(r, d, m, angle, 15888, 15908, 11298, 11312, 691); }
    if d == 743 { Row(r, d, m, angle, 15867, 15887, 11283, 11297, 692); }
    if d == 744 { Row(r, d, m, angle, 15845, 15866, 11268, 11282, 693); }
    if d == 745 { Row(r, d, m, angle, 15824, 15844, 11253, 11267, 694); }
    if d == 746 { Row(r, d, m, angle, 15803, 15823, 11238, 11252, 695); }
    if d == 747 { Row(r, d, m, angle, 15782, 15802, 11223, 11237, 696); }
    if d == 748 { Row(r, d, m, angle, 15761, 15781, 11208, 11222, 697); }
    if d == 749 { Row(r, d, m, angle, 15740, 15760, 11193, 11207, 698); }
    if d == 750 { Row(r, d, m, angle, 15719, 15739, 11178, 11192, 699); }
  }

  lemma Degrees751(r: int, d: int, m: int, angle: nat)
    requires Rounded(r, d, m) && r != 15350 && angle <= 720 && angle * m <= 7_815_807 && 751 <= d <= 766
    ensures ErrorIsSmall(angle, d, m)
  {
    if d == 751 { Row(r, d, m, angle, 15698, 15718, 11163, 11177, 700); }
    if d == 752 { Row(r, d, m, angle, 15677, 15697, 11148, 11162, 701); }
    if d == 753 { Row(r, d, m, angle, 15656, 15676, 11133, 11147, 702); }
    if d == 754 { Row(r, d, m, angle, 15635, 15655, 11118, 11132, 702); }
    if d == 755 { Row(r, d, m, angle, 15615, 15634, 11104, 11118, 703); }
    if d == 756 { Row(r, d, m, angle, 15594, 15614, 11089, 11103, 704); }
    if d == 757 { Row(r, d, m, angle, 15573, 15593, 11074, 11088, 705); }
    if d == 758 { Row(r, d, m, angle, 15553, 15572, 11060, 11073, 706); }
    if d == 759 { Row(r, d, m, angle, 15532, 15552, 11045, 11059, 707); }
    if d == 760 { Row(r, d, m, angle, 15512, 15531, 11031, 11044, 708); }
    if d == 761 { Row(r, d, m, angle, 15492, 15511, 11017, 11030, 709); }
    if d == 762 { Row(r, d, m, angle, 15471, 15491, 11002, 11016, 710); }
    if d == 763 { Row(r, d, m, angle, 15451, 15470, 10987, 11001, 711); }
    if d == 764 { Row(r, d, m, angle, 15431, 15450, 10973, 10987, 712); }
    if d == 765 { Row(r, d, m, angle, 15411, 15430, 10959, 10972, 713); }
    if d == 766 { Row(r, d, m, angle, 15391, 15410, 10945, 10958, 714); }
  }

  lemma Degrees767(r: int, d: int, m: int, angle: nat)
    requires Rounded(r, d, m) && r != 15350 && angle <= 720 && angle * m <= 7_815_807 && 767 <= d <= 782
    ensures ErrorIsSmall(angle, d, m)
  {
    if d == 767 { Row(r, d, m, angle, 15371, 15390, 10930, 10944, 715); }
    if d == 768 { Row(r, d, m, angle, 15351, 15370, 10916, 10930, 715); }
    if d == 769 { Row(r, d, m, angle, 15331, 15349, 10902, 10915, 716); }
    if d == 770 { Row(r, d, m, angle, 15311, 15330, 10888, 10901, 717); }
    if d == 771 { Row(r, d, m, angle, 15291, 15310, 10874, 10887, 718); }
    if d == 772 { Row(r, d, m, angle, 15271, 15290, 10859, 10873, 719); }
    if d == 773 { Row(r, d, m, angle, 15251, 15270, 10845, 10859, 720); }
    if d == 774 { Row(r, d, m, angle, 15232, 15250, 10832, 10844, 720); }
    if d == 775 { Row(r, d, m, angle, 15212, 15231, 10817, 10831, 720); }
    if d == 776 { Row(r, d, m, angle, 15192, 15211, 10803, 10817, 720); }
    if d == 777 { Row(r, d, m, angle, 15173, 15191, 10790, 10802, 720); }
    if d == 778 { Row(r, d, m, angle, 15153, 15172, 10775, 10789, 720); }
    if d == 779 { Row(r, d, m, angle, 15134, 15152, 10762, 10775, 720); }
    if d == 780 { Row(r, d, m, angle, 15115, 15133, 10748, 10761, 720); }
    if d == 781 { Row(r, d, m, angle, 15095, 15114, 10734, 10748, 720); }
    if d == 782 { Row(r, d, m, angle, 15076, 15094, 10721, 10734, 720); }
  }

  lemma Degrees783(r: int, d: int, m: int, angle: nat)
    requires Rounded(r, d, m) && r != 15350 && angle <= 720 && angle * m <= 7_815_807 && 783 <= d <= 798
    ensures ErrorIsSmall(angle, d, m)
  {
    if d == 783 { Row(r, d, m, angle, 15057, 15075, 10707, 10720, 720); }
    if d == 784 { Row(r, d, m, angle, 15037, 15056, 10693, 10706, 720); }
    if d == 785 { Row(r, d, m, angle, 15018, 15036, 10679, 10692, 720); }
    if d == 786 { Row(r, d, m, angle, 14999, 15017, 10666, 10679, 720); }
    if d == 787 { Row(r, d, m, angle, 14980, 14998, 10652, 10665, 720); }
    if d == 788 { Row(r, d, m, angle, 14961, 14979, 10639, 10652, 720); }
    if d == 789 { Row(r, d, m, angle, 14942, 14960, 10625, 10638, 720); }
    if d == 790 { Row(r, d, m, angle, 14923, 14941, 10612, 10625, 720); }
    if d == 791 { Row(r, d, m, angle, 14904, 14922, 10598, 10611, 720); }
    if d == 792 { Row(r, d, m, angle, 14886, 14903, 10586, 10598, 720); }
    if d == 793 { Row(r, d, m, angle, 14867, 14885, 10572, 10585, 720); }
    if d == 794 { Row(r, d, m, angle, 14848, 14866, 10559, 10571, 720); }
    if d == 795 { Row(r, d, m, angle, 14830, 14847, 10546, 10558, 720); }
    if d == 796 { Row(r, d, m, angle, 14811, 14829, 10532, 10545, 720); }
    if d == 797 { Row(r, d, m, angle, 14792, 14810, 10519, 10532, 720); }
    if d == 798 { Row(r, d, m, angle, 14774, 14791, 10506, 10518, 720); }
  }

  lemma Degrees799(r: int, d: int, m: int, angle: nat)
    requires Rounded(r, d, m) && r != 15350 && angle <= 720 && angle * m <= 7_815_807 && 799 <= d <= 814
    ensures ErrorIsSmall(angle, d, m)
  {
    if d == 799 { Row(r, d, m, angle, 14755, 14773, 10492, 10505, 720); }
    if d == 800 { Row(r, d, m, angle, 14737, 14754, 10480, 10492, 720); }
    if d == 801 { Row(r, d, m, angle, 14719, 14736, 10467, 10479, 720); }
    if d == 802 { Row(r, d, m, angle, 14700, 14718, 10453, 10466, 720); }
    if d == 803 { Row(r, d, m, angle, 14682, 14699, 10441, 10453, 720); }
    if d == 804 { Row(r, d, m, angle, 14664, 14681, 10428, 10440, 720); }
    if d == 805 { Row(r, d, m, angle, 14645, 14663, 10414, 10427, 720); }
    if d == 806 { Row(r, d, m, angle, 14627, 14644, 10401, 10414, 720); }
    if d == 807 { Row(r, d, m, angle, 14609, 14626, 10389, 10401, 720); }
    if d == 808 { Row(r, d, m, angle, 14591, 14608, 10376, 10388, 720); }
    if d == 809 { Row(r, d, m, angle, 14573, 14590, 10363, 10375, 720); }
    if d == 810 { Row(r, d, m, angle, 14555, 14572, 10350, 10362, 720); }
    if d == 811 { Row(r, d, m, angle, 14537, 14554, 10337, 10350, 720); }
    if d == 812 { Row(r, d, m, angle, 14519, 14536, 10325, 10337, 720); }
    if d == 813 { Row(r, d, m, angle, 14501, 14518, 10312, 10324, 720); }
    if d == 814 { Row(r, d, m, angle, 14484, 14500, 10300, 10311, 720); }
  }

  lemma ErrorIsAlwaysSmall(r: int, d: int, m: int, angle: nat)
    requires Rounded(r, d, m) && r != 15350 && angle <= 720 && angle * m <= 7_815_807 && 655 <= d <= 814
    ensures ErrorIsSmall(angle, d, m)
  {
    if d <= 670 {
      Degrees655(r, d, m, angle);
    } else if d <= 686 {
      Degrees671(r, d, m, angle);
    } else if d <= 702 {
      Degrees687(r, d, m, angle);
    } else if d <= 718 {
      Degrees703(r, d, m, angle);
    } else if d <= 734 {
      Degrees719(r, d, m, angle);
    } else if d <= 750 {
      Degrees735(r, d, m, angle);
    } else if d <= 766 {
      Degrees751(r, d, m, angle);
    } else if d <= 782 {
      Degrees767(r, d, m, angle);
    } else if d <= 798 {
      Degrees783(r, d, m, angle);
    } else {
      Degrees799(r, d, m, angle);
    }
  }

  // ------------------------------------------------------------------ from the factors to the angle

  lemma FactorRange(revolution: int, d: int)
    requires 14499 <= revolution < 18000 && -revolution <= 2 * (revolution * d - 360 * 32768) <= revolution
    ensures 655 <= d <= 814
  {
    if d >= 815 {
      ScaleMonotone(revolution, 815, d);
    } else if d <= 654 {
      ScaleMonotone(revolution, d, 654);
    }
  }

  /** The scaled time differs from the product by the rounding only. */
  lemma TimeAndProduct(angle: uint16, m: uint32, time: uint32)
    requires angle * m + 128 < TWO32 && time == AngleToTime(m, angle)
    ensures 256 * time <= angle * m + 128 < 256 * time + 256
  {
    ProductFits(angle, m);
    var sum := angle * m + 128;
    assert sum == 256 * (sum / 256) + sum % 256;
  }

  /** What is left over of the angle stays below one half of 1/32768th of a degree, times 256. */
  lemma ErrorOfFactors(angle: nat, d: nat, m: nat, time: nat)
    requires -128 <= 256 * time - angle * m <= 128
    requires ErrorIsSmall(angle, d, m)
    ensures -16384 < time * d - 32768 * angle < 16384
  {
    var rounding := 256 * time - angle * m;
    ScaleBound(d, rounding, 128);
    Regroup(angle, d, m, time);
  }

  lemma Regroup(angle: int, d: int, m: int, time: int)
    ensures 256 * (time * d - 32768 * angle) == angle * (m * d - ONE) + d * (256 * time - angle * m)
  {
    Distribute(d, 256, time, 1, angle * m);
    Distribute(angle, 1, m * d, ONE, 1);
    assert d * (angle * m) == angle * (m * d);
    assert d * time == time * d;
  }

  lemma FastRoundTrip(revolution: uint32, angle: uint16)
    requires 14499 <= revolution < 18000 && revolution != 15350 && angle <= 720
    requires AngleToTime(MicrosPerDegree(revolution), angle) <= 30530
    ensures TimeToAngle(DegreesPerMicro(revolution), AngleToTime(MicrosPerDegree(revolution), angle)) == angle
  {
    var m, d := MicrosPerDegree(revolution), DegreesPerMicro(revolution);
    var time := AngleToTime(m, angle);
    AngleToTimeBound(revolution, angle);
    MicrosPerDegreeIsNear(revolution);
    DegreesPerMicroIsNear(revolution);
    FactorRange(revolution, d);
    TimeAndProduct(angle, m, time);
    ErrorIsAlwaysSmall(revolution, d, m, angle);
    ErrorOfFactors(angle, d, m, time);
    TimeToAngleIs(d, time, angle);
  }

  /** At 15350 microseconds a revolution the factors do err the same way, and the last angles are checked one by one. */
  lemma RoundTripAt15350(angle: uint16)
    requires angle <= 720 && AngleToTime(10916, angle) <= 30530
    ensures TimeToAngle(769, AngleToTime(10916, angle)) == angle
  {
    var time := AngleToTime(10916, angle);
    TimeAndProduct(angle, 10916, time);
    if angle <= 706 {
      ErrorOfFactors(angle, 769, 10916, time);
    } else {
      LastAngles(angle, time);
    }
    TimeToAngleIs(769, time, angle);
  }

  lemma LastAngles(angle: int, time: int)
    requires angle >= 707 && time <= 30530 && 256 * time <= 10916 * angle + 128 < 256 * time + 256
    ensures angle <= 715 && -16384 < time * 769 - 32768 * angle < 16384
  {
    assert angle < 716;
    LastTime(angle, time);
  }

  lemma LastTime(angle: int, time: int)
    requires 707 <= angle <= 715 && 256 * time <= 10916 * angle + 128 < 256 * time + 256
    ensures -16384 < time * 769 - 32768 * angle < 16384
  {
    if angle == 707 { assert time == 30147; }
    if angle == 708 { assert time == 30190; }
    if angle == 709 { assert time == 30232; }
    if angle == 710 { assert time == 30275; }
    if angle == 711 { assert time == 30317; }
    if angle == 712 { assert time == 30360; }
    if angle == 713 { assert time == 30403; }
    if angle == 714 { assert time == 30445; }
    if angle == 715 { assert time == 30488; }
  }

  /** From 18000 microseconds a revolution on, the general error bounds are enough. */
  lemma SlowRoundTrip(revolution: uint32, angle: uint16)
    requires InRange(revolution) && revolution >= 18000 && angle <= 720
    requires AngleToTime(MicrosPerDegree(revolution), angle) <= 30530
    ensures TimeToAngle(DegreesPerMicro(revolution), AngleToTime(MicrosPerDegree(revolution), angle)) == angle
  {
    var m, d := MicrosPerDegree(revolution), DegreesPerMicro(revolution);
    var time := AngleToTime(m, angle);
    AngleToTimeBound(revolution, angle);
    MicrosPerDegreeIsNear(revolution);
    DegreesPerMicroIsNear(revolution);
    TimeAndProduct(angle, m, time);
    AngleIsSmall(angle, m);
    SlackIsLarge(revolution, angle, time);
    RoundsBack(revolution, angle, time, d);
    TimeToAngleIs(d, time, angle);
  }

  lemma AngleIsSmall(angle: int, m: int)
    requires m >= 12799 && angle * m <= 7_815_807
    ensures angle <= 610
  {
    if angle >= 611 {
      ScaleMonotone(611, 12799, m);
      ScaleMonotone(m, 611, angle);
    }
  }

  lemma SlackIsLarge(revolution: int, angle: int, time: int)
    requires revolution >= 18000 && angle <= 610 && time <= 30530
    ensures time * revolution + 256 * (180 * angle + 46080) < 32768 * revolution
  {
    ScaleMonotone(revolution, time, 30530);
  }

  lemma FactorsAt15350()
    ensures MicrosPerDegree(15350) == 10916 && DegreesPerMicro(15350) == 769
  {
  }

  /** A time above 29000 microseconds is for a slow enough crank. */
  lemma LongTimeIsSlow(revolution: uint32, angle: uint16, time: uint32)
    requires InRange(revolution) && angle <= 720
    requires time == AngleToTime(MicrosPerDegree(revolution), angle) && time > 29000
    ensures revolution >= 14499
  {
    AngleToTimeBound(revolution, angle);
    RevolutionIsLong(revolution, angle, time);
  }

  lemma RoundTripBelow30531(revolution: uint32, angle: uint16, time: uint32)
    requires InRange(revolution) && angle <= 720
    requires time == AngleToTime(MicrosPerDegree(revolution), angle) && time <= 30530
    ensures TimeToAngle(DegreesPerMicro(revolution), time) == angle
  {
    if time <= 29000 {
      RoundTrip(revolution, angle);
    } else if revolution >= 18000 {
      SlowRoundTrip(revolution, angle);
    } else if revolution == 15350 {
      FactorsAt15350();
      RoundTripAt15350(angle);
    } else {
      LongTimeIsSlow(revolution, angle, time);
      FastRoundTrip(revolution, angle);
    }
  }

  /** Every angle comes back from its time, at every speed, when the time is at most `limit`. */
  ghost predicate RoundTripsUpTo(limit: nat) {
    forall revolution: uint32, angle: uint16 |
      InRange(revolution) && angle <= 720 && AngleToTime(MicrosPerDegree(revolution), angle) <= limit ::
      TimeToAngle(DegreesPerMicro(revolution), AngleToTime(MicrosPerDegree(revolution), angle)) == angle
  }

  /** The round trip holds exactly up to 30530 microseconds. */
  lemma RoundTripsUpToIff(limit: nat)
    ensures RoundTripsUpTo(limit) <==> limit < 30531
  {
    if limit < 30531 {
      forall revolution: uint32, angle: uint16 |
        InRange(revolution) && angle <= 720 && AngleToTime(MicrosPerDegree(revolution), angle) <= limit
        ensures TimeToAngle(DegreesPerMicro(revolution), AngleToTime(MicrosPerDegree(revolution), angle)) == angle
      {
        RoundTripBelow30531(revolution, angle, AngleToTime(MicrosPerDegree(revolution), angle));
      }
    } else {
      LongTimesDoNotRoundTrip();
      assert InRange(15350) && AngleToTime(MicrosPerDegree(15350), 716) <= limit;
    }
  }
}
