/**
  The MLX90393 sensitivity table: microtesla per ADC count, indexed by Hall
  configuration, gain, resolution and axis class. Entries are stored exactly
  as integer nanotesla per count (0.150 uT/LSB is 150 nT/LSB), so the table
  carries no floating-point rounding.
 */
module ScaleTable {

  /** Hall plate configuration; index 0 is HALLCONF = 0xC (the default), index 1 is HALLCONF = 0x0. */
  datatype HallConf = HallConfC | HallConf0 {
    function Index(): (i: nat)
      ensures i < 2
    {
      match this
      case HallConfC => 0
      case HallConf0 => 1
    }
  }

  /** `mlx90393_gain_t`, in the order of its C enumerator values 0..7. */
  datatype Gain = Gain5X | Gain4X | Gain3X | Gain2_5X | Gain2X | Gain1_67X | Gain1_33X | Gain1X {
    function Index(): (i: nat)
      ensures i < 8
    {
      match this
      case Gain5X => 0
      case Gain4X => 1
      case Gain3X => 2
      case Gain2_5X => 3
      case Gain2X => 4
      case Gain1_67X => 5
      case Gain1_33X => 6
      case Gain1X => 7
    }
  }

  /** `mlx90393_resolution_t`, in the order of its C enumerator values 0..3. */
  datatype Resolution = Res16 | Res17 | Res18 | Res19 {
    function Index(): (i: nat)
      ensures i < 4
    {
      match this
      case Res16 => 0
      case Res17 => 1
      case Res18 => 2
      case Res19 => 3
    }
  }

  /** Column of the table: the X and Y axes share one factor, the Z axis has its own. */
  datatype AxisClass = AxisXY | AxisZ {
    function Index(): (i: nat)
      ensures i < 2
    {
      match this
      case AxisXY => 0
      case AxisZ => 1
    }
  }

  /** `mlx90393_lsb_lookup[2][8][4][2]`, in nanotesla per count. */
  const LsbTable: seq<seq<seq<seq<nat>>>> := [
    // HALLCONF = 0xC
    [
      [[751, 1210], [1502, 2420], [3004, 4840], [6009, 9680]],   // GAIN 5X
      [[601, 968], [1202, 1936], [2403, 3872], [4840, 7744]],    // GAIN 4X
      [[451, 726], [901, 1452], [1803, 2904], [3605, 5808]],     // GAIN 3X
      [[376, 605], [751, 1210], [1502, 2420], [3004, 4840]],     // GAIN 2.5X
      [[300, 484], [601, 968], [1202, 1936], [2403, 3872]],      // GAIN 2X
      [[250, 403], [501, 807], [1001, 1613], [2003, 3227]],      // GAIN 1.67X
      [[200, 323], [401, 645], [801, 1291], [1602, 2581]],       // GAIN 1.33X
      [[150, 242], [300, 484], [601, 968], [1202, 1936]]         // GAIN 1X
    ],
    // HALLCONF = 0x0
    [
      [[787, 1267], [1573, 2534], [3146, 5068], [6292, 10137]],
      [[629, 1014], [1258, 2027], [2517, 4055], [5034, 8109]],
      [[472, 760], [944, 1521], [1888, 3041], [3775, 6082]],
      [[393, 634], [787, 1267], [1573, 2534], [3146, 5068]],
      [[315, 507], [629, 1014], [1258, 2027], [2517, 4055]],
      [[262, 422], [524, 845], [1049, 1689], [2097, 3379]],
      [[210, 338], [419, 676], [839, 1352], [1678, 2703]],
      [[157, 253], [315, 507], [629, 1014], [1258, 2027]]
    ]
  ]

  /** The table has the declared shape 2 x 8 x 4 x 2. */
  predicate WellShaped(t: seq<seq<seq<seq<nat>>>>)
  {
    && |t| == 2
    && (forall h :: 0 <= h < 2 ==> |t[h]| == 8)
    && (forall h, g :: 0 <= h < 2 && 0 <= g < 8 ==> |t[h][g]| == 4)
    && (forall h, g, r :: 0 <= h < 2 && 0 <= g < 8 && 0 <= r < 4 ==> |t[h][g][r]| == 2)
  }

  lemma LsbTableWellShaped()
    ensures WellShaped(LsbTable)
  {
  }

  /**
    `mlx90393_lsb_lookup[hall][gain][res][axis]`, in nanotesla per count. The
    enumerations make every index in range, so the lookup has no error path.
   */
  function Lsb(hall: HallConf, gain: Gain, res: Resolution, axis: AxisClass): (nT: nat)
    ensures 150 <= nT <= 10137
  {
    LsbTableWellShaped();
    LsbTable[hall.Index()][gain.Index()][res.Index()][axis.Index()]
  }

  /** The Z axis is less sensitive than X and Y: its factor is the larger one in every cell. */
  lemma ZFactorExceedsXY(hall: HallConf, gain: Gain, res: Resolution)
    ensures Lsb(hall, gain, res, AxisXY) < Lsb(hall, gain, res, AxisZ)
  {
  }

  /** Each extra bit of resolution makes a count worth more field. */
  lemma LsbGrowsWithResolution(hall: HallConf, gain: Gain, r1: Resolution, r2: Resolution, axis: AxisClass)
    requires r1.Index() < r2.Index()
    ensures Lsb(hall, gain, r1, axis) < Lsb(hall, gain, r2, axis)
  {
  }

  /** A higher gain (lower enumerator value) makes a count worth more field. */
  lemma LsbShrinksWithGainIndex(hall: HallConf, g1: Gain, g2: Gain, res: Resolution, axis: AxisClass)
    requires g1.Index() < g2.Index()
    ensures Lsb(hall, g1, res, axis) > Lsb(hall, g2, res, axis)
  {
  }
}
