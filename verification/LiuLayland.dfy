/** The table of the utilization test (kernel/sched/ub_test.c) is the bound of Liu and Layland: `n`
    periodic tasks are schedulable up to a load of n * (2^(1/n) - 1). */
module LiuLayland {
  import opened Config
  import opened Schedule

  function Power(x: real, k: nat): real {
    if k == 0 then 1.0 else x * Power(x, k - 1)
  }

  /** `b` is n * (2^(1/n) - 1) to four decimals. */
  predicate ToFourDecimals(n: nat, b: real)
    requires n > 0
  {
    Power(1.0 + (b - 0.00005) / (n as real), n) <= 2.0 <= Power(1.0 + (b + 0.00005) / (n as real), n)
  }

  // ---------------------------------------------------------------------------
  // Powers
  // ---------------------------------------------------------------------------

  lemma Associate(x: real, y: real, z: real)
    ensures (x * y) * z == x * (y * z)
  {}

  lemma {:induction false} PowerOfSum(x: real, a: nat, b: nat)
    ensures Power(x, a + b) == Power(x, a) * Power(x, b)
  {
    if a > 0 {
      PowerOfSum(x, a - 1, b);
      Associate(x, Power(x, a - 1), Power(x, b));
      assert a + b - 1 == (a - 1) + b;
    }
  }

  lemma {:induction false} PowerOfPower(x: real, m: nat, a: nat)
    ensures Power(x, m * a) == Power(Power(x, m), a)
  {
    if a == 0 {
      assert m * a == 0;
    } else {
      PowerOfPower(x, m, a - 1);
      PowerOfSum(x, m, m * (a - 1));
      assert m * a == m + m * (a - 1);
    }
  }

  lemma Grow(x: real, y: real, p: real, q: real)
    requires 0.0 <= x <= y && 0.0 <= p <= q
    ensures 0.0 <= x * p <= y * q
  {
    assert x * p <= y * p <= y * q;
  }

  lemma {:induction false} PowerMonotone(x: real, y: real, k: nat)
    requires 0.0 <= x <= y
    ensures 0.0 <= Power(x, k) <= Power(y, k)
  {
    if k > 0 {
      PowerMonotone(x, y, k - 1);
      Grow(x, y, Power(x, k - 1), Power(y, k - 1));
    }
  }

  lemma {:induction false} PowerInParts(x: real, n: nat, m: nat, a: nat, c: nat)
    requires n == m * a + c
    ensures Power(x, n) == Power(x, c) * Power(Power(x, m), a)
  {
    var k := m * a;
    PowerOfPower(x, m, a);
    PowerOfSum(x, c, k);
    assert c + k == n;
  }

  lemma Products(p: real, q: real, w: real, r: real)
    requires 0.0 <= p <= w && 0.0 <= q <= r
    ensures p * q <= w * r
  {
    Grow(p, w, q, r);
  }

  /** Rounding on the way, a power of exponent `m * a + c` is bounded from above by small steps ... */
  lemma {:induction false} PowerAtMost(x: real, n: nat, m: nat, a: nat, c: nat, y: real, z: real, w: real)
    requires n == m * a + c && 0.0 <= x <= y && Power(y, m) <= z && Power(y, c) <= w
    ensures Power(x, n) <= w * Power(z, a)
  {
    PowerInParts(x, n, m, a, c);
    PowerMonotone(x, y, m);
    PowerMonotone(x, y, c);
    PowerMonotone(Power(x, m), z, a);
    Products(Power(x, c), Power(Power(x, m), a), w, Power(z, a));
  }

  /** ... and from below. */
  lemma {:induction false} PowerAtLeast(x: real, n: nat, m: nat, a: nat, c: nat, y: real, z: real, w: real)
    requires n == m * a + c && 0.0 <= y <= x && 0.0 <= z <= Power(y, m) && 0.0 <= w <= Power(y, c)
    ensures w * Power(z, a) <= Power(x, n)
  {
    PowerInParts(x, n, m, a, c);
    PowerMonotone(y, x, m);
    PowerMonotone(y, x, c);
    PowerMonotone(z, Power(x, m), a);
    Products(w, Power(z, a), Power(x, c), Power(Power(x, m), a));
  }

  // ---------------------------------------------------------------------------
  // The entries, one by one
  // ---------------------------------------------------------------------------

  /** For exponents 1, `m` and `c`, powers of 1 + b / n are at most `y`, `z` and `w`, and at least `s`,
      `t` and `v`. */
  lemma {:induction false} Entry(
    n: nat, r: real, b: real, m: nat, a: nat, c: nat, y: real, z: real, w: real, s: real, t: real, v: real)
    requires 0 < n == m * a + c && r == n as real && b > 0.5
    requires 1.0 + (b - 0.00005) / r <= y && Power(y, m) <= z && Power(y, c) <= w && w * Power(z, a) <= 2.0
    requires 0.0 <= s <= 1.0 + (b + 0.00005) / r && 0.0 <= t <= Power(s, m) && 0.0 <= v <= Power(s, c)
    requires 2.0 <= v * Power(t, a)
    ensures ToFourDecimals(n, b)
  {
    PositiveShare(b - 0.00005, r);
    PowerAtMost(1.0 + (b - 0.00005) / r, n, m, a, c, y, z, w);
    PowerAtLeast(1.0 + (b + 0.00005) / r, n, m, a, c, s, t, v);
  }

  lemma PositiveShare(x: real, r: real)
    requires x > 0.0 && r > 0.0
    ensures x / r > 0.0
  {}

  lemma Entry1() ensures ToFourDecimals(1, 1.0000) {
    Entry(1, 1.0, 1.0000, 1, 1, 0, 1.99995, 1.99995, 1.00000, 2.00005, 2.00005, 1.00000);
  }

  lemma Entry2() ensures ToFourDecimals(2, 0.8284) {
    Entry(2, 2.0, 0.8284, 1, 2, 0, 1.41418, 1.41418, 1.00000, 1.41422, 1.41422, 1.00000);
  }

  lemma Entry3() ensures ToFourDecimals(3, 0.7798) {
    Entry(3, 3.0, 0.7798, 1, 3, 0, 1.25992, 1.25992, 1.00000, 1.25995, 1.25995, 1.00000);
  }

  lemma Entry4() ensures ToFourDecimals(4, 0.7568) {
    Entry(4, 4.0, 0.7568, 1, 4, 0, 1.18919, 1.18919, 1.00000, 1.18921, 1.18921, 1.00000);
  }

  lemma Entry5() ensures ToFourDecimals(5, 0.7435) {
    Entry(5, 5.0, 0.7435, 1, 5, 0, 1.14869, 1.14869, 1.00000, 1.14871, 1.14871, 1.00000);
  }

  lemma Entry6() ensures ToFourDecimals(6, 0.7348) {
    Entry(6, 6.0, 0.7348, 1, 6, 0, 1.12246, 1.12246, 1.00000, 1.12247, 1.12247, 1.00000);
  }

  lemma Entry7() ensures ToFourDecimals(7, 0.7286) {
    Entry(7, 7.0, 0.7286, 1, 7, 0, 1.10408, 1.10408, 1.00000, 1.10409, 1.10409, 1.00000);
  }

  lemma Entry8() ensures ToFourDecimals(8, 0.7241) {
    Entry(8, 8.0, 0.7241, 1, 8, 0, 1.090507, 1.090507, 1.000000, 1.090518, 1.090518, 1.000000);
  }

  lemma Entry9() ensures ToFourDecimals(9, 0.7205) {
    Entry(9, 9.0, 0.7205, 1, 9, 0, 1.08005, 1.08005, 1.00000, 1.08006, 1.08006, 1.00000);
  }

  lemma Entry10() ensures ToFourDecimals(10, 0.7177) {
    Entry(10, 10.0, 0.7177, 3, 3, 1, 1.071765, 1.231116, 1.071765, 1.071775, 1.231149, 1.071775);
  }

  lemma Entry11() ensures ToFourDecimals(11, 0.7155) {
    Entry(11, 11.0, 0.7155, 3, 3, 2, 1.0650410, 1.2080892, 1.1343124, 1.0650500, 1.2081197, 1.1343315);
  }

  lemma Entry12() ensures ToFourDecimals(12, 0.7136) {
    Entry(12, 12.0, 0.7136, 3, 4, 0, 1.059463, 1.189207, 1.000000, 1.059470, 1.189230, 1.000000);
  }

  lemma Entry13() ensures ToFourDecimals(13, 0.7120) {
    Entry(13, 13.0, 0.7120, 3, 4, 1, 1.0547654, 1.1734583, 1.0547654, 1.0547730, 1.1734835, 1.0547730);
  }

  lemma Entry14() ensures ToFourDecimals(14, 0.7106) {
    Entry(14, 14.0, 0.7106, 3, 4, 2, 1.050754, 1.160121, 1.104084, 1.050760, 1.160140, 1.104096);
  }

  lemma Entry15() ensures ToFourDecimals(15, 0.7094) {
    Entry(15, 15.0, 0.7094, 4, 3, 3, 1.047290, 1.203007, 1.148685, 1.047296, 1.203033, 1.148704);
  }

  lemma Entry16() ensures ToFourDecimals(16, 0.7084) {
    Entry(16, 16.0, 0.7084, 4, 4, 0, 1.044272, 1.189199, 1.000000, 1.044278, 1.189226, 1.000000);
  }

  lemma Entry17() ensures ToFourDecimals(17, 0.7075) {
    Entry(17, 17.0, 0.7075, 4, 4, 1, 1.041615, 1.177143, 1.041615, 1.041620, 1.177164, 1.041620);
  }

  lemma Entry18() ensures ToFourDecimals(18, 0.7067) {
    Entry(18, 18.0, 0.7067, 4, 4, 2, 1.0392584, 1.1665254, 1.0800581, 1.0392638, 1.1665495, 1.0800692);
  }

  lemma Entry19() ensures ToFourDecimals(19, 0.7059) {
    Entry(19, 19.0, 0.7059, 4, 4, 3, 1.0371500, 1.1570878, 1.1156417, 1.0371552, 1.1571109, 1.1156584);
  }

  lemma Entry20() ensures ToFourDecimals(20, 0.7053) {
    Entry(20, 20.0, 0.7053, 4, 5, 0, 1.035263, 1.148690, 1.000000, 1.035267, 1.148707, 1.000000);
  }

  lemma Entry21() ensures ToFourDecimals(21, 0.7047) {
    Entry(21, 21.0, 0.7047, 4, 5, 1, 1.033555, 1.141129, 1.033555, 1.033559, 1.141145, 1.033559);
  }

  lemma Entry22() ensures ToFourDecimals(22, 0.7042) {
    Entry(22, 22.0, 0.7042, 4, 5, 2, 1.032007, 1.134307, 1.065039, 1.032011, 1.134324, 1.065046);
  }

  lemma Entry23() ensures ToFourDecimals(23, 0.7037) {
    Entry(23, 23.0, 0.7037, 4, 5, 3, 1.030594, 1.128108, 1.094619, 1.030597, 1.128120, 1.094628);
  }

  lemma Entry24() ensures ToFourDecimals(24, 0.7033) {
    Entry(24, 24.0, 0.7033, 5, 4, 4, 1.0293021, 1.1553520, 1.1224615, 1.0293062, 1.1553749, 1.1224793);
  }

  lemma Entry25() ensures ToFourDecimals(25, 0.7028) {
    Entry(25, 25.0, 0.7028, 5, 5, 0, 1.028110, 1.148677, 1.000000, 1.028114, 1.148699, 1.000000);
  }

  lemma Entry26() ensures ToFourDecimals(26, 0.7025) {
    Entry(26, 26.0, 0.7025, 5, 5, 1, 1.0270174, 1.1425863, 1.0270174, 1.0270211, 1.1426068, 1.0270211);
  }

  lemma Entry27() ensures ToFourDecimals(27, 0.7021) {
    Entry(27, 27.0, 0.7021, 5, 5, 2, 1.026002, 1.136950, 1.052681, 1.026005, 1.136965, 1.052686);
  }

  lemma Entry28() ensures ToFourDecimals(28, 0.7018) {
    Entry(28, 28.0, 0.7018, 5, 5, 3, 1.025063, 1.131756, 1.077090, 1.025066, 1.131772, 1.077098);
  }

  lemma Entry29() ensures ToFourDecimals(29, 0.7015) {
    Entry(29, 29.0, 0.7015, 5, 5, 4, 1.024188, 1.126934, 1.100320, 1.024191, 1.126950, 1.100332);
  }

  lemma Entry30() ensures ToFourDecimals(30, 0.7012) {
    Entry(30, 30.0, 0.7012, 5, 6, 0, 1.023372, 1.122452, 1.000000, 1.023375, 1.122468, 1.000000);
  }

  lemma Entry31() ensures ToFourDecimals(31, 0.7010) {
    Entry(31, 31.0, 0.7010, 5, 6, 1, 1.0226113, 1.1182862, 1.0226113, 1.0226145, 1.1183036, 1.0226145);
  }

  lemma Entry32() ensures ToFourDecimals(32, 0.7007) {
    Entry(32, 32.0, 0.7007, 5, 6, 2, 1.021896, 1.114381, 1.044272, 1.021898, 1.114391, 1.044275);
  }

  lemma Entry33() ensures ToFourDecimals(33, 0.7005) {
    Entry(33, 33.0, 0.7005, 5, 6, 3, 1.021226, 1.110733, 1.065040, 1.021228, 1.110742, 1.065045);
  }

  lemma Entry34() ensures ToFourDecimals(34, 0.7003) {
    Entry(34, 34.0, 0.7003, 5, 6, 4, 1.0205956, 1.1073081, 1.0849626, 1.0205985, 1.1073237, 1.0849749);
  }

  lemma Entry35() ensures ToFourDecimals(35, 0.7001) {
    Entry(35, 35.0, 0.7001, 6, 5, 5, 1.0200015, 1.1261724, 1.1040890, 1.0200042, 1.1261902, 1.1041035);
  }

  lemma Entry36() ensures ToFourDecimals(36, 0.6999) {
    Entry(36, 36.0, 0.6999, 6, 6, 0, 1.0194403, 1.1224598, 1.0000000, 1.0194430, 1.1224776, 1.0000000);
  }

  lemma Entry37() ensures ToFourDecimals(37, 0.6997) {
    Entry(37, 37.0, 0.6997, 6, 6, 1, 1.018910, 1.118961, 1.018910, 1.018912, 1.118974, 1.018912);
  }

  lemma Entry38() ensures ToFourDecimals(38, 0.6995) {
    Entry(38, 38.0, 0.6995, 6, 6, 2, 1.018407, 1.115651, 1.037153, 1.018409, 1.115663, 1.037156);
  }

  lemma Entry39() ensures ToFourDecimals(39, 0.6993) {
    Entry(39, 39.0, 0.6993, 6, 6, 3, 1.017930, 1.112520, 1.054761, 1.017932, 1.112532, 1.054766);
  }

  lemma Entry40() ensures ToFourDecimals(40, 0.6992) {
    Entry(40, 40.0, 0.6992, 6, 6, 4, 1.017479, 1.109565, 1.071771, 1.017481, 1.109578, 1.071778);
  }

  lemma Entry41() ensures ToFourDecimals(41, 0.6990) {
    Entry(41, 41.0, 0.6990, 6, 6, 5, 1.017048, 1.106748, 1.088197, 1.017050, 1.106760, 1.088207);
  }

  lemma Entry42() ensures ToFourDecimals(42, 0.6989) {
    Entry(42, 42.0, 0.6989, 6, 7, 0, 1.016640, 1.104087, 1.000000, 1.016641, 1.104093, 1.000000);
  }

  lemma Entry43() ensures ToFourDecimals(43, 0.6988) {
    Entry(43, 43.0, 0.6988, 6, 7, 1, 1.016250, 1.101548, 1.016250, 1.016252, 1.101560, 1.016252);
  }

  lemma Entry44() ensures ToFourDecimals(44, 0.6986) {
    Entry(44, 44.0, 0.6986, 6, 7, 2, 1.0158762, 1.0991190, 1.0320045, 1.0158784, 1.0991332, 1.0320089);
  }

  lemma Entry45() ensures ToFourDecimals(45, 0.6985) {
    Entry(45, 45.0, 0.6985, 6, 7, 3, 1.015522, 1.096822, 1.047293, 1.015523, 1.096828, 1.047295);
  }

  lemma Entry46() ensures ToFourDecimals(46, 0.6984) {
    Entry(46, 46.0, 0.6984, 6, 7, 4, 1.015182, 1.094621, 1.062126, 1.015183, 1.094626, 1.062129);
  }

  lemma Entry47() ensures ToFourDecimals(47, 0.6983) {
    Entry(47, 47.0, 0.6983, 6, 7, 5, 1.0148564, 1.0925155, 1.0765222, 1.0148585, 1.0925289, 1.0765332);
  }

  lemma Entry48() ensures ToFourDecimals(48, 0.6982) {
    Entry(48, 48.0, 0.6982, 7, 6, 6, 1.014545, 1.106367, 1.090506, 1.014546, 1.106374, 1.090512);
  }

  lemma Entry49() ensures ToFourDecimals(49, 0.6981) {
    Entry(49, 49.0, 0.6981, 7, 7, 0, 1.014246, 1.104087, 1.000000, 1.014247, 1.104094, 1.000000);
  }

  lemma Entry50() ensures ToFourDecimals(50, 0.6980) {
    Entry(50, 50.0, 0.6980, 7, 7, 1, 1.013959, 1.101902, 1.013959, 1.013961, 1.101916, 1.013961);
  }

  lemma Entry51() ensures ToFourDecimals(51, 0.6979) {
    Entry(51, 51.0, 0.6979, 7, 7, 2, 1.0136834, 1.0998067, 1.0275541, 1.0136852, 1.0998203, 1.0275576);
  }

  lemma Entry52() ensures ToFourDecimals(52, 0.6978) {
    Entry(52, 52.0, 0.6978, 7, 7, 3, 1.0134183, 1.0977949, 1.0407975, 1.0134201, 1.0978085, 1.0408030);
  }

  lemma Entry53() ensures ToFourDecimals(53, 0.6977) {
    Entry(53, 53.0, 0.6977, 7, 7, 4, 1.013164, 1.095869, 1.053705, 1.013165, 1.095875, 1.053709);
  }

  lemma Entry54() ensures ToFourDecimals(54, 0.6976) {
    Entry(54, 54.0, 0.6976, 7, 7, 5, 1.012918, 1.094007, 1.066281, 1.012919, 1.094014, 1.066285);
  }

  lemma Entry55() ensures ToFourDecimals(55, 0.6975) {
    Entry(55, 55.0, 0.6975, 7, 7, 6, 1.0126810, 1.0922163, 1.0785393, 1.0126827, 1.0922290, 1.0785501);
  }

  lemma Entry56() ensures ToFourDecimals(56, 0.6975) {
    Entry(56, 56.0, 0.6975, 7, 8, 0, 1.0124545, 1.0905074, 1.0000000, 1.0124562, 1.0905201, 1.0000000);
  }

  lemma Entry57() ensures ToFourDecimals(57, 0.6974) {
    Entry(57, 57.0, 0.6974, 7, 8, 1, 1.0122343, 1.0888483, 1.0122343, 1.0122359, 1.0888602, 1.0122359);
  }

  lemma Entry58() ensures ToFourDecimals(58, 0.6973) {
    Entry(58, 58.0, 0.6973, 7, 8, 2, 1.012022, 1.087251, 1.024189, 1.012023, 1.087258, 1.024190);
  }

  lemma Entry59() ensures ToFourDecimals(59, 0.6972) {
    Entry(59, 59.0, 0.6972, 7, 8, 3, 1.0118162, 1.0857040, 1.0358692, 1.0118177, 1.0857151, 1.0358737);
  }

  lemma Entry60() ensures ToFourDecimals(60, 0.6972) {
    Entry(60, 60.0, 0.6972, 7, 8, 4, 1.0116192, 1.0842251, 1.0472932, 1.0116208, 1.0842370, 1.0472997);
  }

  lemma Entry61() ensures ToFourDecimals(61, 0.6971) {
    Entry(61, 61.0, 0.6971, 7, 8, 5, 1.0114271, 1.0827847, 1.0584563, 1.0114286, 1.0827959, 1.0584641);
  }

  lemma Entry62() ensures ToFourDecimals(62, 0.6970) {
    Entry(62, 62.0, 0.6970, 7, 8, 6, 1.0112412, 1.0813924, 1.0693714, 1.0112427, 1.0814035, 1.0693808);
  }

  lemma Entry63() ensures ToFourDecimals(63, 0.6970) {
    Entry(63, 63.0, 0.6970, 8, 7, 7, 1.011063, 1.092008, 1.080060, 1.011064, 1.092016, 1.080066);
  }

  lemma Entry64() ensures ToFourDecimals(64, 0.6969) {
    Entry(64, 64.0, 0.6969, 8, 8, 0, 1.0108883, 1.0904993, 1.0000000, 1.0108898, 1.0905121, 1.0000000);
  }

  lemma Entries1To8(n: nat, b: real)
    requires 1 <= n <= 8 && b == Bound(n - 1)
    ensures ToFourDecimals(n, b) && b > 0.5
  {
    match n
    case 1 => Entry1();
    case 2 => Entry2();
    case 3 => Entry3();
    case 4 => Entry4();
    case 5 => Entry5();
    case 6 => Entry6();
    case 7 => Entry7();
    case 8 => Entry8();
  }

  lemma Entries9To16(n: nat, b: real)
    requires 9 <= n <= 16 && b == Bound(n - 1)
    ensures ToFourDecimals(n, b) && b > 0.5
  {
    match n
    case 9 => Entry9();
    case 10 => Entry10();
    case 11 => Entry11();
    case 12 => Entry12();
    case 13 => Entry13();
    case 14 => Entry14();
    case 15 => Entry15();
    case 16 => Entry16();
  }

  lemma Entries17To24(n: nat, b: real)
    requires 17 <= n <= 24 && b == Bound(n - 1)
    ensures ToFourDecimals(n, b) && b > 0.5
  {
    match n
    case 17 => Entry17();
    case 18 => Entry18();
    case 19 => Entry19();
    case 20 => Entry20();
    case 21 => Entry21();
    case 22 => Entry22();
    case 23 => Entry23();
    case 24 => Entry24();
  }

  lemma Entries25To32(n: nat, b: real)
    requires 25 <= n <= 32 && b == Bound(n - 1)
    ensures ToFourDecimals(n, b) && b > 0.5
  {
    match n
    case 25 => Entry25();
    case 26 => Entry26();
    case 27 => Entry27();
    case 28 => Entry28();
    case 29 => Entry29();
    case 30 => Entry30();
    case 31 => Entry31();
    case 32 => Entry32();
  }

  lemma Entries33To40(n: nat, b: real)
    requires 33 <= n <= 40 && b == Bound(n - 1)
    ensures ToFourDecimals(n, b) && b > 0.5
  {
    match n
    case 33 => Entry33();
    case 34 => Entry34();
    case 35 => Entry35();
    case 36 => Entry36();
    case 37 => Entry37();
    case 38 => Entry38();
    case 39 => Entry39();
    case 40 => Entry40();
  }

  lemma Entries41To48(n: nat, b: real)
    requires 41 <= n <= 48 && b == Bound(n - 1)
    ensures ToFourDecimals(n, b) && b > 0.5
  {
    match n
    case 41 => Entry41();
    case 42 => Entry42();
    case 43 => Entry43();
    case 44 => Entry44();
    case 45 => Entry45();
    case 46 => Entry46();
    case 47 => Entry47();
    case 48 => Entry48();
  }

  lemma Entries49To56(n: nat, b: real)
    requires 49 <= n <= 56 && b == Bound(n - 1)
    ensures ToFourDecimals(n, b) && b > 0.5
  {
    match n
    case 49 => Entry49();
    case 50 => Entry50();
    case 51 => Entry51();
    case 52 => Entry52();
    case 53 => Entry53();
    case 54 => Entry54();
    case 55 => Entry55();
    case 56 => Entry56();
  }

  lemma Entries57To64(n: nat, b: real)
    requires 57 <= n <= 64 && b == Bound(n - 1)
    ensures ToFourDecimals(n, b) && b > 0.5
  {
    match n
    case 57 => Entry57();
    case 58 => Entry58();
    case 59 => Entry59();
    case 60 => Entry60();
    case 61 => Entry61();
    case 62 => Entry62();
    case 63 => Entry63();
    case 64 => Entry64();
  }

  /** Every entry is the bound of Liu and Layland for its number of tasks, to four decimals. */
  lemma TableIsLiuLayland(n: nat, b: real)
    requires 1 <= n <= OS_MAX_TASKS && b == Bound(n - 1)
    ensures Power(1.0 + (b - 0.00005) / (n as real), n) <= 2.0 <= Power(1.0 + (b + 0.00005) / (n as real), n)
    ensures b > 0.5
  {
    if n <= 8 {
      Entries1To8(n, b);
    } else if n <= 16 {
      Entries9To16(n, b);
    } else if n <= 24 {
      Entries17To24(n, b);
    } else if n <= 32 {
      Entries25To32(n, b);
    } else if n <= 40 {
      Entries33To40(n, b);
    } else if n <= 48 {
      Entries41To48(n, b);
    } else if n <= 56 {
      Entries49To56(n, b);
    } else {
      Entries57To64(n, b);
    }
  }

  // ---------------------------------------------------------------------------
  // Admission
  // ---------------------------------------------------------------------------

  lemma Shares(a: real, b: real, m: real)
    requires -1.0 <= a <= b && m >= 1.0
    ensures -1.0 <= a / m <= b / m
  {
    if a >= 0.0 { assert a / m >= 0.0; } else { assert a / m >= a; }
  }

  lemma {:induction false} Compare(a: real, b: real, m: real, n: nat)
    requires -1.0 <= a <= b && m >= 1.0
    ensures Power(1.0 + a / m, n) <= Power(1.0 + b / m, n)
  {
    Shares(a, b, m);
    PowerMonotone(1.0 + a / m, 1.0 + b / m, n);
  }

  lemma {:induction false} LoadNotNegative(a: seq<TaskDesc>)
    ensures Load(a) >= 0.0
  {
    if a != [] {
      LoadNotNegative(a[1..]);
      ShareNotNegative(a[0]);
    }
  }

  lemma ShareNotNegative(t: TaskDesc)
    ensures Share(t) >= 0.0
  {}

  lemma {:induction false} EitherSide(load: real, b: real, m: real, n: nat)
    requires 0 < n && m == n as real && load >= 0.0 && b >= 0.0 && ToFourDecimals(n, b)
    ensures load <= b ==> Power(1.0 + (load - 0.00005) / m, n) <= 2.0
    ensures load >= b ==> Power(1.0 + (load + 0.00005) / m, n) >= 2.0
  {
    if load <= b { Compare(load - 0.00005, b - 0.00005, m, n); }
    if load >= b { Compare(b + 0.00005, load + 0.00005, m, n); }
  }

  lemma {:induction false} BoundOf(a: seq<TaskDesc>, n: nat) returns (b: real)
    requires 0 < |a| == n <= OS_MAX_TASKS && forall x :: x in a ==> x.T > 0 && x.B == 0
    ensures b >= 0.0 && ToFourDecimals(n, b) && (Admit(Reorder(a)) <==> Load(a) <= b)
  {
    b := Bound(n - 1);
    AdmitWithoutBlocking(a);
    TableIsLiuLayland(n, b);
  }

  /** Positive periods and no blocking terms: accepted sets are within the bound of Liu and Layland, and
      refused ones are not, up to the fourth decimal of the load. */
  lemma {:induction false} AdmissionIsLiuLayland(a: seq<TaskDesc>, n: nat)
    requires 0 < |a| == n <= OS_MAX_TASKS && forall x :: x in a ==> x.T > 0 && x.B == 0
    ensures Admit(Reorder(a)) ==> Power(1.0 + (Load(a) - 0.00005) / (n as real), n) <= 2.0
    ensures !Admit(Reorder(a)) ==> Power(1.0 + (Load(a) + 0.00005) / (n as real), n) >= 2.0
  {
    var b := BoundOf(a, n);
    LoadNotNegative(a);
    EitherSide(Load(a), b, n as real, n);
  }
}
