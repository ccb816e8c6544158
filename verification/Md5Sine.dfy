/** The table T of RFC 1321 (section 3.4): 4294967296 times the sine of i, i in radians. */
module Md5Sine {
  import opened Bits
  import opened Md5Spec
  import opened Words

  // ----- sine and cosine of 1 -----------------------------------------------------------------------

  /** 1 / n! */
  function Inverse(n: nat): real {
    if n == 0 then 1.0 else Inverse(n - 1) / (n as real)
  }

  /** The first `n` terms of the series of sin 1: 1 - 1/3! + 1/5! - ... */
  function SineSum(n: nat): real {
    if n == 0 then 0.0
    else if n % 2 == 1 then SineSum(n - 1) + Inverse(2 * n - 1)
    else SineSum(n - 1) - Inverse(2 * n - 1)
  }

  /** The first `n` terms of the series of cos 1: 1 - 1/2! + 1/4! - ... */
  function CosineSum(n: nat): real {
    if n == 0 then 0.0
    else if n % 2 == 1 then CosineSum(n - 1) + Inverse(2 * n - 2)
    else CosineSum(n - 1) - Inverse(2 * n - 2)
  }

  predicate Between(x: real, y: real, z: real) {
    x <= y <= z || z <= y <= x
  }

  /** The terms alternate and fall: the value lies between any two sums that follow each other, and is the only
      number that does. */
  ghost predicate IsSineOfOne(s: real) {
    forall n: nat :: InSineSums(s, n)
  }

  predicate InSineSums(s: real, n: nat) {
    Between(SineSum(n), s, SineSum(n + 1))
  }

  ghost predicate IsCosineOfOne(c: real) {
    forall n: nat :: InCosineSums(c, n)
  }

  predicate InCosineSums(c: real, n: nat) {
    Between(CosineSum(n), c, CosineSum(n + 1))
  }

  datatype Angle = Angle(sin: real, cos: real)

  /** Sine and cosine of `n`, by the addition theorems. */
  function AngleOf(s: real, c: real, n: nat): Angle {
    if n == 0 then Angle(0.0, 1.0)
    else
      var a := AngleOf(s, c, n - 1);
      Angle(a.sin * c + a.cos * s, a.cos * c - a.sin * s)
  }

  function Abs(x: real): real {
    if x < 0.0 then -x else x
  }

  // ----- approximation ---------------------------------------------------------------------------------

  /** 36 places are enough: an error at most doubles with every angle. */
  const UNIT := 1000000000000000000000000000000000000.0

  predicate Near(x: real, a: real, e: real) {
    a - e <= x * UNIT <= a + e
  }

  predicate At(s: real, c: real, n: nat, a: real, b: real, e: real) {
    Near(AngleOf(s, c, n).sin, a, e) && Near(AngleOf(s, c, n).cos, b, e)
  }

  lemma Bound(x: real, y: real, e: real, m: real)
    requires -e <= x <= e && -m <= y <= m
    ensures -(e * m) <= x * y <= e * m
  {
    assert (e - x) * (m + y) >= 0.0 && (e + x) * (m - y) >= 0.0;
    assert (e - x) * (m - y) >= 0.0 && (e + x) * (m + y) >= 0.0;
    assert (e - x) * (m + y) == e * m + e * y - x * m - x * y;
    assert (e + x) * (m - y) == e * m - e * y + x * m - x * y;
    assert (e - x) * (m - y) == e * m - e * y - x * m + x * y;
    assert (e + x) * (m + y) == e * m + e * y + x * m + x * y;
  }

  /** The error of a product, the second factor being a constant known to within one. */
  lemma ProductNear(x: real, y: real, a: real, p: real, e: real)
    requires a - e <= x <= a + e && p - 1.0 <= y <= p + 1.0 && -UNIT <= a <= UNIT && e >= 0.0
    requires 0.0 <= p
    ensures a * p - e * (p + 1.0) - UNIT <= x * y <= a * p + e * (p + 1.0) + UNIT
  {
    Bound(x - a, y, e, p + 1.0);
    Bound(a, y - p, UNIT, 1.0);
    assert x * y == (x - a) * y + a * (y - p) + a * p;
  }

  const SIN_1 := 841470984807896506652502321630299000.0
  const COS_1 := 540302305868139717400936607442976604.0

  function Cross(x: real, y: real, z: real, w: real): real {
    x * y + z * w
  }

  /** What the next angle is near to. */
  lemma Sum(x: real, y: real, z: real, w: real, a: real, b: real, e: real, r: real)
    requires Near(x, a, e) && Near(y, COS_1, 1.0) && Near(z, b, e) && Near(w, SIN_1, 1.0)
    requires -UNIT <= a <= UNIT && -UNIT <= b <= UNIT && e >= 0.0
    requires -UNIT <= a * COS_1 + b * SIN_1 - r * UNIT <= UNIT
    ensures Near(Cross(x, y, z, w), r, 2.0 * e + 3.0)
  {
    hide Near;
    NearIs(x, a, e);
    NearIs(y, COS_1, 1.0);
    NearIs(z, b, e);
    NearIs(w, SIN_1, 1.0);
    ProductNear(x * UNIT, y * UNIT, a, COS_1, e);
    ProductNear(z * UNIT, w * UNIT, b, SIN_1, e);
    Scaled(x, y);
    Scaled(z, w);
    SumNear(x * UNIT * (y * UNIT), z * UNIT * (w * UNIT), x * y + z * w, a, b, e, r);
  }

  lemma NearIs(x: real, a: real, e: real)
    requires Near(x, a, e)
    ensures a - e <= x * UNIT <= a + e
  {
  }

  lemma Scaled(x: real, y: real)
    ensures x * UNIT * (y * UNIT) == x * y * UNIT * UNIT
  {
  }

  lemma SumNear(m: real, n: real, v: real, a: real, b: real, e: real, r: real)
    requires a * COS_1 - e * (COS_1 + 1.0) - UNIT <= m <= a * COS_1 + e * (COS_1 + 1.0) + UNIT
    requires b * SIN_1 - e * (SIN_1 + 1.0) - UNIT <= n <= b * SIN_1 + e * (SIN_1 + 1.0) + UNIT
    requires m + n == v * UNIT * UNIT && e >= 0.0
    requires -UNIT <= a * COS_1 + b * SIN_1 - r * UNIT <= UNIT
    ensures Near(v, r, 2.0 * e + 3.0)
  {
  }

  // ----- the series ------------------------------------------------------------------------------------

  lemma Sums1()
    ensures Inverse(11) == 1.0 / 39916800.0
    ensures SineSum(6) == 33588829.0 / 39916800.0
    ensures CosineSum(6) == 1960649.0 / 3628800.0
  {
    assert Inverse(1) == 1.0;
    assert SineSum(1) == 1.0;
    assert CosineSum(1) == 1.0;
    assert Inverse(2) == 1.0 / 2.0;
    assert Inverse(3) == 1.0 / 6.0;
    assert SineSum(2) == 5.0 / 6.0;
    assert CosineSum(2) == 1.0 / 2.0;
    assert Inverse(4) == 1.0 / 24.0;
    assert Inverse(5) == 1.0 / 120.0;
    assert SineSum(3) == 101.0 / 120.0;
    assert CosineSum(3) == 13.0 / 24.0;
    assert Inverse(6) == 1.0 / 720.0;
    assert Inverse(7) == 1.0 / 5040.0;
    assert SineSum(4) == 4241.0 / 5040.0;
    assert CosineSum(4) == 389.0 / 720.0;
    assert Inverse(8) == 1.0 / 40320.0;
    assert Inverse(9) == 1.0 / 362880.0;
    assert SineSum(5) == 305353.0 / 362880.0;
    assert CosineSum(5) == 4357.0 / 8064.0;
    assert Inverse(10) == 1.0 / 3628800.0;
    assert Inverse(11) == 1.0 / 39916800.0;
    assert SineSum(6) == 33588829.0 / 39916800.0;
    assert CosineSum(6) == 1960649.0 / 3628800.0;
  }

  lemma Sums2()
    ensures Inverse(23) == 1.0 / 25852016738884976640000.0
    ensures SineSum(12) == 4350744396907953273869.0 / 5170403347776995328000.0
    ensures CosineSum(12) == 607300185015708631061.0 / 1124000727777607680000.0
  {
    Sums1();
    assert Inverse(12) == 1.0 / 479001600.0;
    assert Inverse(13) == 1.0 / 6227020800.0;
    assert SineSum(7) == 209594293.0 / 249080832.0;
    assert CosineSum(7) == 258805669.0 / 479001600.0;
    assert Inverse(14) == 1.0 / 87178291200.0;
    assert Inverse(15) == 1.0 / 1307674368000.0;
    assert SineSum(8) == 1100370038249.0 / 1307674368000.0;
    assert CosineSum(8) == 47102631757.0 / 87178291200.0;
    assert Inverse(16) == 1.0 / 20922789888000.0;
    assert Inverse(17) == 1.0 / 355687428096000.0;
    assert SineSum(9) == 23023126954133.0 / 27360571392000.0;
    assert CosineSum(9) == 11304631621681.0 / 20922789888000.0;
    assert Inverse(18) == 1.0 / 6402373705728000.0;
    assert Inverse(19) == 1.0 / 121645100408832000.0;
    assert SineSum(10) == 102360822438075317.0 / 121645100408832000.0;
    assert CosineSum(10) == 691843455246877.0 / 1280474741145600.0;
    assert Inverse(20) == 1.0 / 2432902008176640000.0;
    assert Inverse(21) == 1.0 / 51090942171709440000.0;
    assert SineSum(11) == 42991545423991633141.0 / 51090942171709440000.0;
    assert CosineSum(11) == 1314502564969066301.0 / 2432902008176640000.0;
    assert Inverse(22) == 1.0 / 1124000727777607680000.0;
    assert Inverse(23) == 1.0 / 25852016738884976640000.0;
    assert SineSum(12) == 4350744396907953273869.0 / 5170403347776995328000.0;
    assert CosineSum(12) == 607300185015708631061.0 / 1124000727777607680000.0;
  }

  lemma Sums3()
    ensures Inverse(35) == 1.0 / 10333147966386144929666651337523200000000.0
    ensures SineSum(18) == 8695044195440662442699982866274228962149.0 / 10333147966386144929666651337523200000000.0
    ensures CosineSum(18) == 159514962089003222313242436031601809697.0 / 295232799039604140847618609643520000000.0
    ensures SineSum(17) == 1461351965620279402134450901894828397.0 / 1736663523762377299103638880256000000.0
    ensures CosineSum(17) == 142170197940288076928023561525491809.0 / 263130836933693530167218012160000000.0
  {
    Sums2();
    assert Inverse(24) == 1.0 / 620448401733239439360000.0;
    assert Inverse(25) == 1.0 / 15511210043330985984000000.0;
    assert SineSum(13) == 13052233190723859821607001.0 / 15511210043330985984000000.0;
    assert CosineSum(13) == 335229702128671164345673.0 / 620448401733239439360000.0;
    assert Inverse(26) == 1.0 / 403291461126605635584000000.0;
    assert Inverse(27) == 1.0 / 10888869450418352160768000000.0;
    assert SineSum(14) == 9162667699888149594768114701.0 / 10888869450418352160768000000.0;
    assert CosineSum(14) == 217899306383636256824687449.0 / 403291461126605635584000000.0;
    assert Inverse(28) == 1.0 / 304888344611713860501504000000.0;
    assert Inverse(29) == 1.0 / 8841761993739701954543616000000.0;
    assert SineSum(15) == 7440086172309177470951709137213.0 / 8841761993739701954543616000000.0;
    assert CosineSum(15) == 32946375125205802031892742289.0 / 60977668922342772100300800000.0;
    assert Inverse(30) == 1.0 / 265252859812191058636308480000000.0;
    assert Inverse(31) == 1.0 / 8222838654177922817725562880000000.0;
    assert SineSum(16) == 364172638960396581472899447242531.0 / 432780981798838043038187520000000.0;
    assert CosineSum(16) == 848027998784883070051677094421.0 / 1569543549184562477137920000000.0;
    assert Inverse(32) == 1.0 / 263130836933693530167218012160000000.0;
    assert Inverse(33) == 1.0 / 8683317618811886495518194401280000000.0;
    assert SineSum(17) == 1461351965620279402134450901894828397.0 / 1736663523762377299103638880256000000.0;
    assert CosineSum(17) == 142170197940288076928023561525491809.0 / 263130836933693530167218012160000000.0;
    assert Inverse(34) == 1.0 / 295232799039604140847618609643520000000.0;
    assert Inverse(35) == 1.0 / 10333147966386144929666651337523200000000.0;
    assert SineSum(18) == 8695044195440662442699982866274228962149.0 / 10333147966386144929666651337523200000000.0;
    assert CosineSum(18) == 159514962089003222313242436031601809697.0 / 295232799039604140847618609643520000000.0;
  }

  lemma SineNear(s: real)
    requires IsSineOfOne(s)
    ensures Near(s, SIN_1, 1.0)
  {
    hide SineSum, Inverse;
    Sums3();
    assert InSineSums(s, 17);
  }

  lemma CosineNear(c: real)
    requires IsCosineOfOne(c)
    ensures Near(c, COS_1, 1.0)
  {
    hide CosineSum, Inverse;
    Sums3();
    assert InCosineSums(c, 17);
  }

  // ----- angle by angle ----------------------------------------------------------------------------------

  predicate Ones(s: real, c: real) {
    Near(s, SIN_1, 1.0) && Near(c, COS_1, 1.0)
  }

  lemma Next(s: real, c: real, n: nat, a: real, b: real, e: real, x: real, y: real)
    requires Ones(s, c) && At(s, c, n, a, b, e) && -UNIT <= a <= UNIT && -UNIT <= b <= UNIT && e >= 0.0
    requires -UNIT <= a * COS_1 + b * SIN_1 - x * UNIT <= UNIT
    requires -UNIT <= b * COS_1 - a * SIN_1 - y * UNIT <= UNIT
    ensures At(s, c, n + 1, x, y, 2.0 * e + 3.0)
  {
    hide Near, AngleOf, Cross;
    var p := AngleOf(s, c, n);
    NextAngle(s, c, n);
    Opposite(p.sin, a, e);
    Sum(p.sin, c, p.cos, s, a, b, e, x);
    Sum(p.cos, c, -p.sin, s, b, -a, e, y);
  }

  lemma NextAngle(s: real, c: real, n: nat)
    ensures var p := AngleOf(s, c, n);
            AngleOf(s, c, n + 1) == Angle(Cross(p.sin, c, p.cos, s), Cross(p.cos, c, -p.sin, s))
  {
    hide Cross;
    var p := AngleOf(s, c, n);
    Crossed(p.sin, c, p.cos, s);
    Crossed(p.cos, c, p.sin, s);
  }

  lemma Crossed(x: real, y: real, z: real, w: real)
    ensures Cross(x, y, z, w) == x * y + z * w && Cross(x, y, -z, w) == x * y - z * w
  {
  }

  lemma Opposite(x: real, a: real, e: real)
    requires Near(x, a, e)
    ensures Near(-x, -a, e)
  {
  }

  /** The integer part, when the error does not reach the next integer. */
  lemma Value(s: real, c: real, n: nat, a: real, b: real, e: real, t: int)
    requires At(s, c, n, a, b, e) && 0.0 <= e < Abs(a)
    requires t as real * UNIT <= 4294967296.0 * (Abs(a) - e) && 4294967296.0 * (Abs(a) + e) < (t + 1) as real * UNIT
    ensures (4294967296.0 * Abs(AngleOf(s, c, n).sin)).Floor == t
  {
    hide AngleOf;
  }

  predicate IsSine(s: real, c: real, i: nat)
    requires i < 64
  {
    (4294967296.0 * Abs(AngleOf(s, c, i + 1).sin)).Floor == Sine(i)
  }

  lemma Start(s: real, c: real)
    ensures At(s, c, 0, 0.0, UNIT, 0.0)
  {
  }

  lemma Listed1()
    ensures Sine(0) == 0xd76aa478
    ensures Sine(1) == 0xe8c7b756
    ensures Sine(2) == 0x242070db
    ensures Sine(3) == 0xc1bdceee
    ensures Sine(4) == 0xf57c0faf
    ensures Sine(5) == 0x4787c62a
    ensures Sine(6) == 0xa8304613
    ensures Sine(7) == 0xfd469501
  {
  }

  lemma Turns1(s: real, c: real)
    requires Ones(s, c)
    requires At(s, c, 0, 0.0,
                1000000000000000000000000000000000000.0, 0.0)
    ensures At(s, c, 8, 989358246623381777808123598245288676.0,
               -145500033808613525868841381831194683.0, 765.0)
    ensures forall i :: 0 <= i < 8 ==> IsSine(s, c, i)
  {
    hide AngleOf, At, Sine, Near;
    Listed1();
    Next(s, c, 0, 0.0, 1000000000000000000000000000000000000.0,
         0.0, 841470984807896506652502321630299000.0, 540302305868139717400936607442976604.0);
    Value(s, c, 1, 841470984807896506652502321630299000.0, 540302305868139717400936607442976604.0,
          3.0, 0xd76aa478);
    Next(s, c, 1, 841470984807896506652502321630299000.0, 540302305868139717400936607442976604.0,
         3.0, 909297426825681695396019865911744844.0, -416146836547142386997568229500762190.0);
    Value(s, c, 2, 909297426825681695396019865911744844.0, -416146836547142386997568229500762190.0,
          9.0, 0xe8c7b756);
    Next(s, c, 2, 909297426825681695396019865911744844.0, -416146836547142386997568229500762190.0,
         9.0, 141120008059867222100744802808110280.0, -989992496600445457271572794731261304.0);
    Value(s, c, 3, 141120008059867222100744802808110280.0, -989992496600445457271572794731261304.0,
          21.0, 0x242070db);
    Next(s, c, 3, 141120008059867222100744802808110280.0, -989992496600445457271572794731261304.0,
         21.0, -756802495307928251372639094511829096.0, -653643620863611914639168183097750383.0);
    Value(s, c, 4, -756802495307928251372639094511829096.0, -653643620863611914639168183097750383.0,
          45.0, 0xc1bdceee);
    Next(s, c, 4, -756802495307928251372639094511829096.0, -653643620863611914639168183097750383.0,
         45.0, -958924274663138468893154406155993976.0, 283662185463226264466639171513557309.0);
    Value(s, c, 5, -958924274663138468893154406155993976.0, 283662185463226264466639171513557309.0,
          93.0, 0xf57c0faf);
    Next(s, c, 5, -958924274663138468893154406155993976.0, 283662185463226264466639171513557309.0,
         93.0, -279415498198925872811555446611894761.0, 960170286650366020545652297922924408.0);
    Value(s, c, 6, -279415498198925872811555446611894761.0, 960170286650366020545652297922924408.0,
          189.0, 0x4787c62a);
    Next(s, c, 6, -279415498198925872811555446611894761.0, 960170286650366020545652297922924408.0,
         189.0, 656986598718789090396999091593635180.0, 753902254343304638141197521719182015.0);
    Value(s, c, 7, 656986598718789090396999091593635180.0, 753902254343304638141197521719182015.0,
          381.0, 0xa8304613);
    Next(s, c, 7, 656986598718789090396999091593635180.0, 753902254343304638141197521719182015.0,
         381.0, 989358246623381777808123598245288676.0, -145500033808613525868841381831194683.0);
    Value(s, c, 8, 989358246623381777808123598245288676.0, -145500033808613525868841381831194683.0,
          765.0, 0xfd469501);
  }

  lemma Listed2()
    ensures Sine(8) == 0x698098d8
    ensures Sine(9) == 0x8b44f7af
    ensures Sine(10) == 0xffff5bb1
    ensures Sine(11) == 0x895cd7be
    ensures Sine(12) == 0x6b901122
    ensures Sine(13) == 0xfd987193
    ensures Sine(14) == 0xa679438e
    ensures Sine(15) == 0x49b40821
  {
  }

  lemma Turns2(s: real, c: real)
    requires Ones(s, c)
    requires At(s, c, 8, 989358246623381777808123598245288676.0,
                -145500033808613525868841381831194683.0, 765.0)
    ensures At(s, c, 16, -287903316665065294784456248218617530.0,
               -957659480323384641899637232651103478.0, 196605.0)
    ensures forall i :: 8 <= i < 16 ==> IsSine(s, c, i)
  {
    hide AngleOf, At, Sine, Near;
    Listed2();
    Next(s, c, 8, 989358246623381777808123598245288676.0, -145500033808613525868841381831194683.0,
         765.0, 412118485241756569756272566352435181.0, -911130261884676988368294711181165315.0);
    Value(s, c, 9, 412118485241756569756272566352435181.0, -911130261884676988368294711181165315.0,
          1533.0, 0x698098d8);
    Next(s, c, 9, 412118485241756569756272566352435181.0, -911130261884676988368294711181165315.0,
         1533.0, -544021110889369813404747661851377284.0, -839071529076452452258863947824064838.0);
    Value(s, c, 10, -544021110889369813404747661851377284.0, -839071529076452452258863947824064838.0,
          3069.0, 0x8b44f7af);
    Next(s, c, 10, -544021110889369813404747661851377284.0, -839071529076452452258863947824064838.0,
         3069.0, -999990206550703457051564899025522111.0, 4425697988050785748355024723941573.0);
    Value(s, c, 11, -999990206550703457051564899025522111.0, 4425697988050785748355024723941573.0,
          6141.0, 0xffff5bb1);
    Next(s, c, 11, -999990206550703457051564899025522111.0, 4425697988050785748355024723941573.0,
         6141.0, -536572918000434971665374228242401795.0, 843853958732492104653955293173621787.0);
    Value(s, c, 12, -536572918000434971665374228242401795.0, 843853958732492104653955293173621787.0,
          12285.0, 0x895cd7be);
    Next(s, c, 12, -536572918000434971665374228242401795.0, 843853958732492104653955293173621787.0,
         12285.0, 420167036826640921868955035476882790.0, 907446781450196213852686155474475855.0);
    Value(s, c, 13, 420167036826640921868955035476882790.0, 907446781450196213852686155474475855.0,
          24573.0, 0x6b901122);
    Next(s, c, 13, 420167036826640921868955035476882790.0, 907446781450196213852686155474475855.0,
         24573.0, 990607355694870307875354804014585609.0, 136737218207833594248928876671738242.0);
    Value(s, c, 14, 990607355694870307875354804014585609.0, 136737218207833594248928876671738242.0,
          49149.0, 0xfd987193);
    Next(s, c, 14, 990607355694870307875354804014585609.0, 136737218207833594248928876671738242.0,
         49149.0, 650287840157116865829740270988870330.0, -759687912858821273848146403633280548.0);
    Value(s, c, 15, 650287840157116865829740270988870330.0, -759687912858821273848146403633280548.0,
          98301.0, 0xa679438e);
    Next(s, c, 15, 650287840157116865829740270988870330.0, -759687912858821273848146403633280548.0,
         98301.0, -287903316665065294784456248218617530.0, -957659480323384641899637232651103478.0);
    Value(s, c, 16, -287903316665065294784456248218617530.0, -957659480323384641899637232651103478.0,
          196605.0, 0x49b40821);
  }

  lemma Listed3()
    ensures Sine(16) == 0xf61e2562
    ensures Sine(17) == 0xc040b340
    ensures Sine(18) == 0x265e5a51
    ensures Sine(19) == 0xe9b6c7aa
    ensures Sine(20) == 0xd62f105d
    ensures Sine(21) == 0x2441453
    ensures Sine(22) == 0xd8a1e681
    ensures Sine(23) == 0xe7d3fbc8
  {
  }

  lemma Turns3(s: real, c: real)
    requires Ones(s, c)
    requires At(s, c, 16, -287903316665065294784456248218617530.0,
                -957659480323384641899637232651103478.0, 196605.0)
    ensures At(s, c, 24, -905578362006623845135793358527793332.0,
               424179007336996975937050944759206482.0, 50331645.0)
    ensures forall i :: 16 <= i < 24 ==> IsSine(s, c, i)
  {
    hide AngleOf, At, Sine, Near;
    Listed3();
    Next(s, c, 16, -287903316665065294784456248218617530.0, -957659480323384641899637232651103478.0,
         196605.0, -961397491879556857261636944869156104.0, -275163338051596922220342656551862902.0);
    Value(s, c, 17, -961397491879556857261636944869156104.0, -275163338051596922220342656551862902.0,
          393213.0, 0xf61e2562);
    Next(s, c, 17, -961397491879556857261636944869156104.0, -275163338051596922220342656551862902.0,
         393213.0, -750987246771676103750156084447114538.0, 660316708244080144816100044790450788.0);
    Value(s, c, 18, -750987246771676103750156084447114538.0, 660316708244080144816100044790450788.0,
          786429.0, 0xc040b340);
    Next(s, c, 18, -750987246771676103750156084447114538.0, 660316708244080144816100044790450788.0,
         786429.0, 149877209662952329754239321238253949.0, 988704618186669252898352856548157276.0);
    Value(s, c, 19, 149877209662952329754239321238253949.0, 988704618186669252898352856548157276.0,
          1572861.0, 0x265e5a51);
    Next(s, c, 19, 149877209662952329754239321238253949.0, 988704618186669252898352856548157276.0,
         1572861.0, 912945250727627654376099983845682308.0, 408082061813391986062267860927644962.0);
    Value(s, c, 20, 912945250727627654376099983845682308.0, 408082061813391986062267860927644962.0,
          3145725.0, 0xe9b6c7aa);
    Next(s, c, 20, 912945250727627654376099983845682308.0, 408082061813391986062267860927644962.0,
         3145725.0, 836655638536056031866480770245023784.0, -547729260224268421384271132950982012.0);
    Value(s, c, 21, 836655638536056031866480770245023784.0, -547729260224268421384271132950982012.0,
          6291453.0, 0xd62f105d);
    Next(s, c, 21, 836655638536056031866480770245023784.0, -547729260224268421384271132950982012.0,
         6291453.0, -8851309290403875921690256815772331.0, -999960826394637126454174739212693783.0);
    Value(s, c, 22, -8851309290403875921690256815772331.0, -999960826394637126454174739212693783.0,
          12582909.0, 0x2441453);
    Next(s, c, 22, -8851309290403875921690256815772331.0, -999960826394637126454174739212693783.0,
         12582909.0, -846220404175170635241326271905595935.0, -532833020333397555215757657164125810.0);
    Value(s, c, 23, -846220404175170635241326271905595935.0, -532833020333397555215757657164125810.0,
          25165821.0, 0xd8a1e681);
    Next(s, c, 23, -846220404175170635241326271905595935.0, -532833020333397555215757657164125810.0,
         25165821.0, -905578362006623845135793358527793332.0, 424179007336996975937050944759206482.0);
    Value(s, c, 24, -905578362006623845135793358527793332.0, 424179007336996975937050944759206482.0,
          50331645.0, 0xe7d3fbc8);
  }

  lemma Listed4()
    ensures Sine(24) == 0x21e1cde6
    ensures Sine(25) == 0xc33707d6
    ensures Sine(26) == 0xf4d50d87
    ensures Sine(27) == 0x455a14ed
    ensures Sine(28) == 0xa9e3e905
    ensures Sine(29) == 0xfcefa3f8
    ensures Sine(30) == 0x676f02d9
    ensures Sine(31) == 0x8d2a4c8a
  {
  }

  lemma Turns4(s: real, c: real)
    requires Ones(s, c)
    requires At(s, c, 24, -905578362006623845135793358527793332.0,
                424179007336996975937050944759206482.0, 50331645.0)
    ensures At(s, c, 32, 551426681241690550661558166845712823.0,
               834223360506510272215526470870292318.0, 12884901885.0)
    ensures forall i :: 24 <= i < 32 ==> IsSine(s, c, i)
  {
    hide AngleOf, At, Sine, Near;
    Listed4();
    Next(s, c, 24, -905578362006623845135793358527793332.0, 424179007336996975937050944759206482.0,
         50331645.0, -132351750097773028902005093883606304.0, 991202811863473598083294718815924207.0);
    Value(s, c, 25, -132351750097773028902005093883606304.0, 991202811863473598083294718815924207.0,
          100663293.0, 0x21e1cde6);
    Next(s, c, 25, -132351750097773028902005093883606304.0, 991202811863473598083294718815924207.0,
         100663293.0, 762558450479602737515823293204562981.0, 646919322328640342721383901888901610.0);
    Value(s, c, 26, 762558450479602737515823293204562981.0, 646919322328640342721383901888901610.0,
          201326589.0, 0xc33707d6);
    Next(s, c, 26, 762558450479602737515823293204562981.0, 646919322328640342721383901888901610.0,
         201326589.0, 956375928404503013432340558329192962.0, -292138808733836193371404835837629915.0);
    Value(s, c, 27, 956375928404503013432340558329192962.0, -292138808733836193371404835837629915.0,
          402653181.0, 0xf4d50d87);
    Next(s, c, 27, 956375928404503013432340558329192962.0, -292138808733836193371404835837629915.0,
         402653181.0, 270905788307869019986343092778792537.0, -962605866313566601975453057899308862.0);
    Value(s, c, 28, 270905788307869019986343092778792537.0, -962605866313566601975453057899308862.0,
          805306365.0, 0x455a14ed);
    Next(s, c, 28, 270905788307869019986343092778792537.0, -962605866313566601975453057899308862.0,
         805306365.0, -663633884212967502151173340061105159.0, -748057529689000351765191792255140812.0);
    Value(s, c, 29, -663633884212967502151173340061105159.0, -748057529689000351765191792255140812.0,
          1610612733.0, 0xa9e3e905);
    Next(s, c, 29, -663633884212967502151173340061105159.0, -748057529689000351765191792255140812.0,
         1610612733.0, -988031624092861789987748907294458163.0, 154251449887584050718662146614210198.0);
    Value(s, c, 30, -988031624092861789987748907294458163.0, 154251449887584050718662146614210198.0,
          3221225469.0, 0xfcefa3f8);
    Next(s, c, 30, -988031624092861789987748907294458163.0, 154251449887584050718662146614210198.0,
         3221225469.0, -404037645323065006048770899664237204.0, 914742357804531278962435826150354778.0);
    Value(s, c, 31, -404037645323065006048770899664237204.0, 914742357804531278962435826150354778.0,
          6442450941.0, 0x676f02d9);
    Next(s, c, 31, -404037645323065006048770899664237204.0, 914742357804531278962435826150354778.0,
         6442450941.0, 551426681241690550661558166845712823.0, 834223360506510272215526470870292318.0);
    Value(s, c, 32, 551426681241690550661558166845712823.0, 834223360506510272215526470870292318.0,
          12884901885.0, 0x8d2a4c8a);
  }

  lemma Listed5()
    ensures Sine(32) == 0xfffa3942
    ensures Sine(33) == 0x8771f681
    ensures Sine(34) == 0x6d9d6122
    ensures Sine(35) == 0xfde5380c
    ensures Sine(36) == 0xa4beea44
    ensures Sine(37) == 0x4bdecfa9
    ensures Sine(38) == 0xf6bb4b60
    ensures Sine(39) == 0xbebfbc70
  {
  }

  lemma Turns5(s: real, c: real)
    requires Ones(s, c)
    requires At(s, c, 32, 551426681241690550661558166845712823.0,
                834223360506510272215526470870292318.0, 12884901885.0)
    ensures At(s, c, 40, 745113160479348786987709402636344354.0,
               -666938061652261844384092781933699999.0, 3298534883325.0)
    ensures forall i :: 32 <= i < 40 ==> IsSine(s, c, i)
  {
    hide AngleOf, At, Sine, Near;
    Listed5();
    Next(s, c, 32, 551426681241690550661558166845712823.0, 834223360506510272215526470870292318.0,
         12884901885.0, 999911860107267145728084376707828328.0, -13276747223059478915220031371007039.0);
    Value(s, c, 33, 999911860107267145728084376707828328.0, -13276747223059478915220031371007039.0,
          25769803773.0, 0xfffa3942);
    Next(s, c, 33, 999911860107267145728084376707828328.0, -13276747223059478915220031371007039.0,
         25769803773.0, 529082686120023820832487134032104761.0, -848570274784605186599972087712383171.0);
    Value(s, c, 34, 529082686120023820832487134032104761.0, -848570274784605186599972087712383171.0,
          51539607549.0, 0x8771f681);
    Next(s, c, 34, 529082686120023820832487134032104761.0, -848570274784605186599972087712383171.0,
         51539607549.0, -428182669496151004406752891745940672.0, -903692205091506759847304572083770566.0);
    Value(s, c, 35, -428182669496151004406752891745940672.0, -903692205091506759847304572083770566.0,
          103079215101.0, 0x6d9d6122);
    Next(s, c, 35, -428182669496151004406752891745940672.0, -903692205091506759847304572083770566.0,
         103079215101.0, -991778853443115736835288968840815793.0, -127963689627404681028327977914371215.0);
    Value(s, c, 36, -991778853443115736835288968840815793.0, -127963689627404681028327977914371215.0,
          206158430205.0, 0xfde5380c);
    Next(s, c, 36, -991778853443115736835288968840815793.0, -127963689627404681028327977914371215.0,
         206158430205.0, -643538133356999460685670019080795551.0, 765414051945343356491081292902511712.0);
    Value(s, c, 37, -643538133356999460685670019080795551.0, 765414051945343356491081292902511712.0,
          412316860413.0, 0xa4beea44);
    Next(s, c, 37, -643538133356999460685670019080795551.0, 765414051945343356491081292902511712.0,
         412316860413.0, 296368578709385317392296649849017326.0, 955073644047294857586536235405876969.0);
    Value(s, c, 38, 296368578709385317392296649849017326.0, 955073644047294857586536235405876969.0,
          824633720829.0, 0x4bdecfa9);
    Next(s, c, 38, 296368578709385317392296649849017326.0, 955073644047294857586536235405876969.0,
         824633720829.0, 963795386284087753260664971765882130.0, 266642932359937251526825794975632756.0);
    Value(s, c, 39, 963795386284087753260664971765882130.0, 266642932359937251526825794975632756.0,
          1649267441661.0, 0xf6bb4b60);
    Next(s, c, 39, 963795386284087753260664971765882130.0, 266642932359937251526825794975632756.0,
         1649267441661.0, 745113160479348786987709402636344354.0, -666938061652261844384092781933699999.0);
    Value(s, c, 40, 745113160479348786987709402636344354.0, -666938061652261844384092781933699999.0,
          3298534883325.0, 0xbebfbc70);
  }

  lemma Listed6()
    ensures Sine(40) == 0x289b7ec6
    ensures Sine(41) == 0xeaa127fa
    ensures Sine(42) == 0xd4ef3085
    ensures Sine(43) == 0x4881d05
    ensures Sine(44) == 0xd9d4d039
    ensures Sine(45) == 0xe6db99e5
    ensures Sine(46) == 0x1fa27cf8
    ensures Sine(47) == 0xc4ac5665
  {
  }

  lemma Turns6(s: real, c: real)
    requires Ones(s, c)
    requires At(s, c, 40, 745113160479348786987709402636344354.0,
                -666938061652261844384092781933699999.0, 3298534883325.0)
    ensures At(s, c, 48, -768254661323666799044965664845893510.0,
               -640144339469199731312941419393077191.0, 844424930131965.0)
    ensures forall i :: 40 <= i < 48 ==> IsSine(s, c, i)
  {
    hide AngleOf, At, Sine, Near;
    Listed6();
    Next(s, c, 40, 745113160479348786987709402636344354.0, -666938061652261844384092781933699999.0,
         3298534883325.0, -158622668804708987103317011929687035.0, -987339277523826458228825133414827654.0);
    Value(s, c, 41, -158622668804708987103317011929687035.0, -987339277523826458228825133414827654.0,
          6597069766653.0, 0x289b7ec6);
    Next(s, c, 41, -158622668804708987103317011929687035.0, -987339277523826458228825133414827654.0,
         6597069766653.0, -916521547915633785898989158069671518.0, -399985314988351293954707337177202035.0);
    Value(s, c, 42, -916521547915633785898989158069671518.0, -399985314988351293954707337177202035.0,
          13194139533309.0, 0xeaa127fa);
    Next(s, c, 42, -916521547915633785898989158069671518.0, -399985314988351293954707337177202035.0,
         13194139533309.0, -831774742628598288209578256291752255.0, 555113301520625677044879441962591975.0);
    Value(s, c, 43, -831774742628598288209578256291752255.0, 555113301520625677044879441962591975.0,
          26388279066621.0, 0xd4ef3085);
    Next(s, c, 43, -831774742628598288209578256291752255.0, 555113301520625677044879441962591975.0,
         26388279066621.0, 17701925105413577807954053166616700.0, 999843308647691220069009016637856050.0);
    Value(s, c, 44, 17701925105413577807954053166616700.0, 999843308647691220069009016637856050.0,
          52776558133245.0, 0x4881d05);
    Next(s, c, 44, 17701925105413577807954053166616700.0, 999843308647691220069009016637856050.0,
         52776558133245.0, 850903524534118424862379677618041135.0, 525321988817729696047464404823562928.0);
    Value(s, c, 45, 850903524534118424862379677618041135.0, 525321988817729696047464404823562928.0,
          105553116266493.0, 0xd9d4d039);
    Next(s, c, 45, 850903524534118424862379677618041135.0, 525321988817729696047464404823562928.0,
         105553116266493.0, 901788347648809185033293039222738586.0, -432177944884778294952776524132768507.0);
    Value(s, c, 46, 901788347648809185033293039222738586.0, -432177944884778294952776524132768507.0,
          211106232532989.0, 0xe6db99e5);
    Next(s, c, 46, 901788347648809185033293039222738586.0, -432177944884778294952776524132768507.0,
         211106232532989.0, 123573122745224004061529348086410550.0, -992335469150928718279752420344862177.0);
    Value(s, c, 47, 123573122745224004061529348086410550.0, -992335469150928718279752420344862177.0,
          422212465065981.0, 0x1fa27cf8);
    Next(s, c, 47, 123573122745224004061529348086410550.0, -992335469150928718279752420344862177.0,
         422212465065981.0, -768254661323666799044965664845893510.0, -640144339469199731312941419393077191.0);
    Value(s, c, 48, -768254661323666799044965664845893510.0, -640144339469199731312941419393077191.0,
          844424930131965.0, 0xc4ac5665);
  }

  lemma Listed7()
    ensures Sine(48) == 0xf4292244
    ensures Sine(49) == 0x432aff97
    ensures Sine(50) == 0xab9423a7
    ensures Sine(51) == 0xfc93a039
    ensures Sine(52) == 0x655b59c3
    ensures Sine(53) == 0x8f0ccc92
    ensures Sine(54) == 0xffeff47d
    ensures Sine(55) == 0x85845dd1
  {
  }

  lemma Turns7(s: real, c: real)
    requires Ones(s, c)
    requires At(s, c, 48, -768254661323666799044965664845893510.0,
                -640144339469199731312941419393077191.0, 844424930131965.0)
    ensures At(s, c, 56, -521551002086911880187410021510600548.0,
               853220107722584113969681233914913771.0, 216172782113783805.0)
    ensures forall i :: 48 <= i < 56 ==> IsSine(s, c, i)
  {
    hide AngleOf, At, Sine, Near;
    Listed7();
    Next(s, c, 48, -768254661323666799044965664845893510.0, -640144339469199731312941419393077191.0,
         844424930131965.0, -953752652759471818360423558587710614.0, 300592543743637083687026000490561385.0);
    Value(s, c, 49, -953752652759471818360423558587710614.0, 300592543743637083687026000490561385.0,
          1688849860263933.0, 0xf4292244);
    Next(s, c, 49, -953752652759471818360423558587710614.0, 300592543743637083687026000490561385.0,
         1688849860263933.0, -262374853703928785914393646912622550.0, 964966028492113274068957058901017012.0);
    Value(s, c, 50, -262374853703928785914393646912622550.0, 964966028492113274068957058901017012.0,
          3377699720527869.0, 0x432aff97);
    Next(s, c, 50, -262374853703928785914393646912622550.0, 964966028492113274068957058901017012.0,
         3377699720527869.0, 670229175843374734494345074950666823.0, 742154196813782539467377175736955964.0);
    Value(s, c, 51, 670229175843374734494345074950666823.0, 742154196813782539467377175736955964.0,
          6755399441055741.0, 0xab9423a7);
    Next(s, c, 51, 670229175843374734494345074950666823.0, 742154196813782539467377175736955964.0,
         6755399441055741.0, 986627592040485296587568934436740132.0, -162990780795705481003329815425211691.0);
    Value(s, c, 52, 986627592040485296587568934436740132.0, -162990780795705481003329815425211691.0,
          13510798882111485.0, 0xfc93a039);
    Next(s, c, 52, 986627592040485296587568934436740132.0, -162990780795705481003329815425211691.0,
         13510798882111485.0, 395925150181834181503386139263539280.0, -918282786212118891199726323216472108.0);
    Value(s, c, 53, 395925150181834181503386139263539280.0, -918282786212118891199726323216472108.0,
          27021597764222973.0, 0x655b59c3);
    Next(s, c, 53, 395925150181834181503386139263539280.0, -918282786212118891199726323216472108.0,
         27021597764222973.0, -558789048851616245817871318965393810.0, -829309832863150147727850042488168739.0);
    Value(s, c, 54, -558789048851616245817871318965393810.0, -829309832863150147727850042488168739.0,
          54043195528445949.0, 0x8f0ccc92);
    Next(s, c, 54, -558789048851616245817871318965393810.0, -829309832863150147727850042488168739.0,
         54043195528445949.0, -999755173358619836598631683243892221.0, 22126756261955734563564262146626503.0);
    Value(s, c, 55, -999755173358619836598631683243892221.0, 22126756261955734563564262146626503.0,
          108086391056891901.0, 0xffeff47d);
    Next(s, c, 55, -999755173358619836598631683243892221.0, 22126756261955734563564262146626503.0,
         108086391056891901.0, -521551002086911880187410021510600548.0, 853220107722584113969681233914913771.0);
    Value(s, c, 56, -521551002086911880187410021510600548.0, 853220107722584113969681233914913771.0,
          216172782113783805.0, 0x85845dd1);
  }

  lemma Listed8()
    ensures Sine(56) == 0x6fa87e4f
    ensures Sine(57) == 0xfe2ce6e0
    ensures Sine(58) == 0xa3014314
    ensures Sine(59) == 0x4e0811a1
    ensures Sine(60) == 0xf7537e82
    ensures Sine(61) == 0xbd3af235
    ensures Sine(62) == 0x2ad7d2bb
    ensures Sine(63) == 0xeb86d391
  {
  }

  lemma Turns8(s: real, c: real)
    requires Ones(s, c)
    requires At(s, c, 56, -521551002086911880187410021510600548.0,
                853220107722584113969681233914913771.0, 216172782113783805.0)
    ensures At(s, c, 64, 920026038196790683351536603777251892.0,
               391857230429550005161709858513122951.0, 55340232221128654845.0)
    ensures forall i :: 56 <= i < 64 ==> IsSine(s, c, i)
  {
    hide AngleOf, At, Sine, Near;
    Listed8();
    Next(s, c, 56, -521551002086911880187410021510600548.0, 853220107722584113969681233914913771.0,
         216172782113783805.0, 436164755247824959080534793129243500.0, 899866826969193786503000404657835127.0);
    Value(s, c, 57, 436164755247824959080534793129243500.0, 899866826969193786503000404657835127.0,
          432345564227567613.0, 0x6fa87e4f);
    Next(s, c, 57, 436164755247824959080534793129243500.0, 899866826969193786503000404657835127.0,
         432345564227567613.0, 992872648084537118165088164425399842.0, 119180135448819285435843610766963924.0);
    Value(s, c, 58, 992872648084537118165088164425399842.0, 119180135448819285435843610766963924.0,
          864691128455135229.0, 0xfe2ce6e0);
    Next(s, c, 58, 992872648084537118165088164425399842.0, 119180135448819285435843610766963924.0,
         864691128455135229.0, 636738007139137880771233492376829397.0, -771080222975845229387435296376289212.0);
    Value(s, c, 59, 636738007139137880771233492376829397.0, -771080222975845229387435296376289212.0,
          1729382256910270461.0, 0xa3014314);
    Next(s, c, 59, 636738007139137880771233492376829397.0, -771080222975845229387435296376289212.0,
         1729382256910270461.0, -304810621102216705625649465478425850.0, -952412980415156292693816595992933320.0);
    Value(s, c, 60, -304810621102216705625649465478425850.0, -952412980415156292693816595992933320.0,
          3458764513820540925.0, 0x4e0811a1);
    Next(s, c, 60, -304810621102216705625649465478425850.0, -952412980415156292693816595992933320.0,
         3458764513820540925.0, -966117770008392947018287989480518177.0, -258101635938267445701207347152754041.0);
    Value(s, c, 61, -966117770008392947018287989480518177.0, -258101635938267445701207347152754041.0,
          6917529027641081853.0, 0xf7537e82);
    Next(s, c, 61, -966117770008392947018287989480518177.0, -258101635938267445701207347152754041.0,
         6917529027641081853.0, -739180696649222867276016933755436652.0, 673507162323586252887833405953936510.0);
    Value(s, c, 62, -739180696649222867276016933755436652.0, 673507162323586252887833405953936510.0,
          13835058055282163709.0, 0xbd3af235);
    Next(s, c, 62, -739180696649222867276016933755436652.0, 673507162323586252887833405953936510.0,
         13835058055282163709.0, 167355700302806921527838370288718035.0, 985896581582549697438635756053977181.0);
    Value(s, c, 63, 167355700302806921527838370288718035.0, 985896581582549697438635756053977181.0,
          27670116110564327421.0, 0x2ad7d2bb);
    Next(s, c, 63, 167355700302806921527838370288718035.0, 985896581582549697438635756053977181.0,
         27670116110564327421.0, 920026038196790683351536603777251892.0, 391857230429550005161709858513122951.0);
    Value(s, c, 64, 920026038196790683351536603777251892.0, 391857230429550005161709858513122951.0,
          55340232221128654845.0, 0xeb86d391);
  }

  /** T[i + 1] is the integer part of 4294967296 times the sine of i + 1 without its sign, for all 64 of them. */
  lemma SineIs(s: real, c: real, i: nat)
    requires IsSineOfOne(s) && IsCosineOfOne(c) && i < 64
    ensures Sine(i) == (4294967296.0 * Abs(AngleOf(s, c, i + 1).sin)).Floor
  {
    hide AngleOf, Sine, At, Near;
    SineNear(s);
    CosineNear(c);
    Start(s, c);
    Turns1(s, c);
    Turns2(s, c);
    Turns3(s, c);
    Turns4(s, c);
    Turns5(s, c);
    Turns6(s, c);
    Turns7(s, c);
    Turns8(s, c);
    assert IsSine(s, c, i);
  }
}
