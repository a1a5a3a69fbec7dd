/** The frame size to encode at.  The scale is a binary64 quotient and each edge a
    binary64 product cut down to a whole even number, so both roundings are written out. */
module EncodeSize {

  datatype Size = Size(width: nat, height: nat)

  predicate Valid(size: Size) {
    size.width != 0 && size.height != 0
  }

  function Longest(size: Size): nat {
    if size.width > size.height then size.width else size.height
  }

  // Binary64: 53 significant bits, rounding to nearest, ties to even.

  const TOP: nat := 0x10_0000_0000_0000

  /** p / q as the nearest whole number. */
  function Nearest(p: nat, q: nat): nat
    requires q > 0
  {
    var low, twice := p / q, 2 * (p % q);
    if twice < q || (twice == q && low % 2 == 0) then low else low + 1
  }

  function Power(k: nat): (power: nat)
    ensures power > 0
  {
    if k == 0 then 1 else 2 * Power(k - 1)
  }

  /** How often p must be doubled for p / q to have 53 bits before the point. */
  function Doublings(p: nat, q: nat): nat
    requires p > 0
    decreases TOP * q - p
  {
    if p >= TOP * q then 0 else 1 + Doublings(2 * p, q)
  }

  /** How often v must be halved to have at most 53 bits before the point. */
  function Halvings(v: nat): nat {
    if v < 2 * TOP then 0 else 1 + Halvings(v / 2)
  }

  /** The scale rung / longest is Mantissa * 2 ^ -Doublings. */
  function Mantissa(rung: nat, longest: nat): nat
    requires 0 < rung && 0 < longest
  {
    Nearest(rung * Power(Doublings(rung, longest)), longest)
  }

  function Rounded(v: nat): nat {
    Nearest(v, Power(Halvings(v))) * Power(Halvings(v))
  }

  /** The product of an edge and the scale, cut down to a whole number. */
  function ScaledEdge(edge: nat, rung: nat, longest: nat): nat
    requires 0 < rung && 0 < longest
  {
    Rounded(edge * Mantissa(rung, longest)) / Power(Doublings(rung, longest))
  }

  function EvenEdge(edge: int): (even: nat)
    ensures even % 2 == 0 && 2 <= even
    ensures if edge < 2 then even == 2 else edge - 1 <= even <= edge
  {
    if edge < 2 then 2 else edge - edge % 2
  }

  function ScaleToLongestEdge(input: Size, rung: nat): Size
    requires 0 < rung
  {
    if !Valid(input) then Size(0, 0)
    else if Longest(input) <= rung then Size(EvenEdge(input.width), EvenEdge(input.height))
    else
      Size(EvenEdge(ScaledEdge(input.width, rung, Longest(input))),
           EvenEdge(ScaledEdge(input.height, rung, Longest(input))))
  }

  function SelectEncodeResolution(native: Size, maximum: nat): Size {
    if !Valid(native) || maximum < 2 then Size(0, 0)
    else if Longest(native) <= maximum then ScaleToLongestEdge(native, maximum)
    else if 3200 <= maximum then ScaleToLongestEdge(native, 3200)
    else if 2560 <= maximum then ScaleToLongestEdge(native, 2560)
    else if 1920 <= maximum then ScaleToLongestEdge(native, 1920)
    else Size(0, 0)
  }

  /** Whether the rounded product is not below the exact edge: the product with the
      rounded scale falls short of it by at most half a unit in its last place. */
  predicate ReachesWhole(edge: nat, rung: nat, longest: nat)
    requires 0 < rung && 0 < longest
  {
    var product := edge * Mantissa(rung, longest);
    var exact := edge * rung / longest * Power(Doublings(rung, longest));
    2 * (exact - product) <= Power(Halvings(product))
  }

  // What the roundings come to.

  lemma {:induction false} Doubled(p: nat, q: nat)
    requires 0 < p < TOP * q
    ensures TOP * q <= p * Power(Doublings(p, q)) < 2 * (TOP * q)
    decreases TOP * q - p
  {
    var power := Power(Doublings(2 * p, q));
    assert p * Power(Doublings(p, q)) == p * (2 * power) == (2 * p) * power;
    if 2 * p < TOP * q {
      Doubled(2 * p, q);
    }
  }

  lemma {:induction false} Halved(v: nat)
    ensures v < 2 * TOP * Power(Halvings(v))
    ensures Halvings(v) > 0 ==> TOP * Power(Halvings(v)) <= v
  {
    if v >= 2 * TOP {
      Halved(v / 2);
    }
  }

  lemma {:induction false} PowersMultiply(j: nat, k: nat)
    ensures Power(j + k) == Power(j) * Power(k)
  {
    if j > 0 {
      PowersMultiply(j - 1, k);
      assert Power(j + k) == 2 * Power(j - 1 + k) && Power(j) == 2 * Power(j - 1);
      hide Power;
      Assoc(2, Power(j - 1), Power(k));
    }
  }

  lemma PowersGrow(j: nat, k: nat)
    requires j <= k
    ensures Power(j) <= Power(k)
  {
    PowersMultiply(k - j, j);
    ProductOrder(Power(j), 1, Power(k - j));
  }

  predicate Within(x: int, bound: int) {
    -bound <= x <= bound
  }

  lemma NearestIsClose(p: nat, q: nat)
    requires q > 0
    ensures Within(2 * (Nearest(p, q) * q - p), q)
  {
    var low := p / q;
    assert p == low * q + p % q;
    assert (low + 1) * q == low * q + q;
  }

  lemma NearestAtLeast(p: nat, q: nat, whole: nat)
    requires q > 0
    requires whole % 2 == 0 || q == 1
    ensures Nearest(p, q) >= whole <==> 2 * (whole * q - p) <= q
  {
    var low := p / q;
    assert p == q * low + p % q;
    if low >= whole {
      ProductOrder(q, whole, low);
    } else if low == whole - 1 {
      Distribute(q, low, 1);
    } else {
      Distribute(q, low, 2);
      ProductOrder(q, low + 2, whole);
    }
    assert q * whole == whole * q;
  }

  lemma ErrorsAdd(edge: nat, longest: nat, off: int, shift: int, unit: nat)
    requires Within(2 * off, longest) && Within(2 * shift, unit) && unit <= 2 * edge
    ensures Within(2 * (edge * off + shift * longest), 3 * (edge * longest))
  {
    Between(edge, 2 * off, longest);
    Between(longest, 2 * shift, 2 * edge);
    assert 2 * (edge * off) == edge * (2 * off) && 2 * (shift * longest) == longest * (2 * shift);
    assert longest * (2 * edge) == 2 * (edge * longest);
  }

  lemma ErrorIs(edge: nat, longest: nat, m: nat, whole: nat, product: nat)
    ensures product * longest - edge * whole == edge * (m * longest - whole) + (product - edge * m) * longest
  {
    assert (edge * m) * longest == edge * (m * longest);
    assert edge * (m * longest - whole) == edge * (m * longest) - edge * whole;
    assert (product - edge * m) * longest == product * longest - (edge * m) * longest;
  }

  /** The rounded product, times the longest edge, is this close to the exact one. */
  lemma ProductIsClose(edge: nat, rung: nat, longest: nat)
    requires 0 < edge <= longest && 0 < rung < longest
    ensures var whole := rung * Power(Doublings(rung, longest));
            var v := edge * Mantissa(rung, longest);
            && Within(2 * (Rounded(v) * longest - edge * whole), 3 * (edge * longest))
            && Power(Halvings(v)) <= 2 * edge
  {
    hide Power, Doublings, Halvings, Nearest;
    var whole, m := rung * Power(Doublings(rung, longest)), Mantissa(rung, longest);
    var v := edge * m;
    Doubled(rung, longest);
    MantissaFits(whole, longest);
    ProductOrder(edge, m, 2 * TOP);
    UnitFits(v, edge);
    NearestIsClose(whole, longest);
    NearestIsClose(v, Power(Halvings(v)));
    ErrorsAdd(edge, longest, m * longest - whole, Rounded(v) - v, Power(Halvings(v)));
    ErrorIs(edge, longest, m, whole, Rounded(v));
  }

  lemma UnitFits(v: nat, edge: nat)
    requires v <= edge * (2 * TOP) && 0 < edge
    ensures Power(Halvings(v)) <= 2 * edge
  {
    Halved(v);
    assert Halvings(v) == 0 ==> Power(Halvings(v)) == 1;
  }

  lemma MantissaFits(p: nat, q: nat)
    requires q > 0 && p < 2 * (TOP * q)
    ensures Nearest(p, q) <= 2 * TOP
  {
    assert p / q < 2 * TOP;
  }

  lemma ProductOrder(k: nat, a: nat, b: nat)
    requires a <= b
    ensures k * a <= k * b
  {
  }

  lemma Between(k: nat, x: int, bound: int)
    requires Within(x, bound)
    ensures Within(k * x, k * bound)
  {
  }

  lemma PowerIsLarge(edge: nat, rung: nat, longest: nat)
    requires 0 < edge <= longest < 0x1_0000_0000 && 0 < rung <= 3200 && rung < longest
    ensures var power := Power(Doublings(rung, longest));
            var halvings := Halvings(edge * Mantissa(rung, longest));
            && 3 * (edge * longest) < power && halvings < Doublings(rung, longest)
  {
    var power, halvings := Power(Doublings(rung, longest)), Halvings(edge * Mantissa(rung, longest));
    hide Power, Doublings, Halvings, Mantissa;
    Doubled(rung, longest);
    ProductOrder(power, rung, 3200);
    assert TOP * longest <= 3200 * power;
    ProductOrder(longest, edge, 0xFFFF_FFFF);
    ProductIsClose(edge, rung, longest);
    if Doublings(rung, longest) <= halvings {
      PowersGrow(Doublings(rung, longest), halvings);
      assert false;
    }
  }

  lemma Cancel(k: nat, a: int, b: int)
    requires k * a < k * b
    ensures a < b
  {
  }

  lemma Distribute(k: int, a: int, b: int)
    ensures k * (a + b) == k * a + k * b
    ensures k * (a - b) == k * a - k * b
  {
  }

  lemma Assoc(a: int, b: int, c: int)
    ensures a * b * c == a * (b * c) == b * (a * c)
  {
  }

  lemma Truncated(product: nat, power: nat, longest: nat, whole: nat, extra: nat, close: nat)
    requires 0 < longest && close < power && extra + power <= longest * power && (extra == 0 || power <= extra)
    requires Within(2 * (longest * product - (longest * whole + extra)), close)
    ensures whole - power <= product < whole + power
    ensures extra > 0 ==> whole <= product
  {
    Distribute(longest, whole, power);
    Cancel(longest, product, whole + power);
    if extra > 0 {
      Cancel(longest, whole - 1, product) by {
        Distribute(longest, whole, 1);
      }
    } else {
      ProductOrder(power, 1, longest);
      Cancel(longest, whole - power - 1, product) by {
        Distribute(longest, whole - power, 1);
      }
    }
  }

  lemma WholePart(product: nat, power: nat, exact: nat)
    requires power > 0 && exact * power - power <= product < exact * power + power
    ensures product / power == if exact * power <= product then exact else exact - 1
  {
    var whole := product / power;
    assert product == whole * power + product % power;
    if whole >= exact + 1 {
      ProductOrder(power, exact + 1, whole);
      assert false;
    }
    if whole < exact {
      ProductOrder(power, whole + 1, exact);
      if whole < exact - 1 {
        ProductOrder(power, whole + 1, exact - 1);
        assert false;
      }
    } else {
      ProductOrder(power, exact, whole);
    }
  }

  lemma MultiplesOrder(unit: nat, j: nat, k: nat)
    requires unit > 0
    ensures j * unit >= k * unit <==> j >= k
  {
    if j >= k {
      ProductOrder(unit, k, j);
    } else {
      ProductOrder(unit, j + 1, k);
      Distribute(unit, j, 1);
    }
  }

  lemma RoundedAtLeast(v: nat, exact: nat, doublings: nat)
    requires Halvings(v) < doublings
    ensures var target := exact * Power(doublings);
            Rounded(v) >= target <==> 2 * (target - v) <= Power(Halvings(v))
  {
    hide Nearest, Halvings, Power;
    var unit, rest := Power(Halvings(v)), doublings - Halvings(v);
    var whole := exact * Power(rest);
    PowersMultiply(rest, Halvings(v));
    Assoc(exact, Power(rest), unit);
    assert whole % 2 == 0 by {
      PowerIsEven(rest);
      Assoc(exact, 2, Power(rest - 1));
    }
    NearestAtLeast(v, unit, whole);
    MultiplesOrder(unit, Nearest(v, unit), whole);
  }

  lemma PowerIsEven(k: nat)
    requires k > 0
    ensures Power(k) == 2 * Power(k - 1)
  {
  }

  lemma CutDown(edge: nat, rung: nat, longest: nat, power: nat, product: nat, close: nat)
    requires 0 < longest && close < power
    requires Within(2 * (product * longest - edge * (rung * power)), close)
    ensures var exact := edge * rung / longest;
            && product / power == (if exact * power <= product then exact else exact - 1)
            && (edge * rung % longest > 0 ==> exact * power <= product)
  {
    var exact, left := edge * rung / longest, edge * rung % longest;
    assert edge * rung == longest * exact + left;
    ExactParts(edge, rung, longest, exact, left, power);
    assert longest * product == product * longest;
    Truncated(product, power, longest, exact * power, left * power, close);
    WholePart(product, power, exact);
  }

  /** A scaled edge is the exact one cut down, unless the exact one is whole: then it may
      be one less, and it is so exactly when the product falls short of it by more than
      half a unit in its last place. */
  lemma ScaledEdgeIs(edge: nat, rung: nat, longest: nat)
    requires 0 < edge <= longest < 0x1_0000_0000 && 0 < rung <= 3200 && rung < longest
    ensures var exact, scaled := edge * rung / longest, ScaledEdge(edge, rung, longest);
            && scaled == (if ReachesWhole(edge, rung, longest) then exact else exact - 1)
            && (scaled != exact ==> edge * rung % longest == 0)
  {
    var power, v := Power(Doublings(rung, longest)), edge * Mantissa(rung, longest);
    ProductIsClose(edge, rung, longest);
    PowerIsLarge(edge, rung, longest);
    ReachesIs(edge, rung, longest);
    hide Rounded, Mantissa, Doublings, Halvings, Power, ReachesWhole;
    CutDown(edge, rung, longest, power, Rounded(v), 3 * (edge * longest));
  }

  lemma ReachesIs(edge: nat, rung: nat, longest: nat)
    requires 0 < edge <= longest < 0x1_0000_0000 && 0 < rung <= 3200 && rung < longest
    ensures ReachesWhole(edge, rung, longest)
       <==> edge * rung / longest * Power(Doublings(rung, longest)) <= Rounded(edge * Mantissa(rung, longest))
  {
    PowerIsLarge(edge, rung, longest);
    hide Rounded, Mantissa, Doublings, Halvings, Power;
    RoundedAtLeast(edge * Mantissa(rung, longest), edge * rung / longest, Doublings(rung, longest));
  }

  lemma ExactParts(edge: nat, rung: nat, longest: nat, exact: nat, left: nat, power: nat)
    requires edge * rung == longest * exact + left && left < longest
    ensures edge * (rung * power) == longest * (exact * power) + left * power
    ensures left * power + power <= longest * power && (left * power == 0 || power <= left * power)
  {
    Assoc(edge, rung, power);
    Assoc(longest, exact, power);
    Distribute(power, longest * exact, left);
    Distribute(power, left, 1);
    ProductOrder(power, left + 1, longest);
    if left > 0 {
      ProductOrder(power, 1, left);
    }
  }

  predicate FitsU32(size: Size) {
    size.width < 0x1_0000_0000 && size.height < 0x1_0000_0000
  }

  lemma ExactFits(edge: nat, rung: nat, longest: nat)
    requires 0 < edge <= longest && 0 < rung
    ensures if edge == longest then edge * rung / longest == rung else edge * rung / longest < rung
  {
    var exact := edge * rung / longest;
    assert edge * rung == longest * exact + edge * rung % longest;
    if edge == longest {
      Distribute(longest, rung, exact);
      Between(longest, 1, 1);
      if exact < rung {
        ProductOrder(longest, exact + 1, rung);
        Distribute(longest, exact, 1);
        assert false;
      }
      if exact > rung {
        ProductOrder(longest, rung + 1, exact);
        Distribute(longest, rung, 1);
        assert false;
      }
    } else if exact >= rung {
      ProductOrder(longest, rung, exact);
      ProductOrder(rung, edge + 1, longest);
      Distribute(rung, edge, 1);
      assert false;
    }
  }

  predicate IsRung(rung: nat) {
    rung == 3200 || rung == 2560 || rung == 1920
  }

  /** The exact edge rounded down to even, or two less where the product falls short of
      a whole even edge. */
  lemma EvenEdgeIs(edge: nat, rung: nat, longest: nat)
    requires 0 < edge <= longest < 0x1_0000_0000 && IsRung(rung) && rung < longest
    ensures var exact, even := edge * rung / longest, EvenEdge(ScaledEdge(edge, rung, longest));
            && even == EvenEdge(if ReachesWhole(edge, rung, longest) then exact else exact - 1)
            && even <= rung && (edge < longest ==> even <= rung - 2)
  {
    hide ScaledEdge, ReachesWhole;
    ScaledEdgeIs(edge, rung, longest);
    ExactFits(edge, rung, longest);
  }

  /** A native size of which something is encoded. */
  predicate Encodable(native: Size, maximum: nat) {
    Valid(native) && 2 <= maximum && (Longest(native) <= maximum || 1920 <= maximum)
  }

  /** What is encoded has even edges, at least 2 and at most the maximum. */
  lemma SizeFitsEncoder(native: Size, maximum: nat)
    requires FitsU32(native)
    ensures var size := SelectEncodeResolution(native, maximum);
            if Encodable(native, maximum) then
              && size.width % 2 == 0 && 2 <= size.width <= maximum
              && size.height % 2 == 0 && 2 <= size.height <= maximum
            else size == Size(0, 0)
  {
    hide EvenEdge, ScaledEdge, ScaleToLongestEdge;
    if Encodable(native, maximum) {
      var rung := if Longest(native) <= maximum then maximum
                  else if 3200 <= maximum then 3200 else if 2560 <= maximum then 2560 else 1920;
      ScaledFits(native, rung);
    }
  }

  lemma ScaledFits(native: Size, rung: nat)
    requires FitsU32(native) && Valid(native) && 2 <= rung && (rung < Longest(native) ==> IsRung(rung))
    ensures var size := ScaleToLongestEdge(native, rung);
            && size.width % 2 == 0 && 2 <= size.width <= rung
            && size.height % 2 == 0 && 2 <= size.height <= rung
  {
    hide EvenEdge, ScaledEdge;
    if rung < Longest(native) {
      EvenEdgeIs(native.width, rung, Longest(native));
      EvenEdgeIs(native.height, rung, Longest(native));
    }
  }

  /** A larger native size is scaled to the largest rung within the maximum. */
  lemma RungIsTheLargest(native: Size, maximum: nat, rung: nat)
    requires Valid(native) && maximum < Longest(native) && IsRung(rung) && rung <= maximum
    requires forall r: nat | IsRung(r) && r <= maximum :: r <= rung
    ensures SelectEncodeResolution(native, maximum) == SelectEncodeResolution(native, rung)
  {
    hide ScaledEdge, EvenEdge;
    assert IsRung(3200) && IsRung(2560) && IsRung(1920);
  }

  /** A larger native size comes down to the rung, or to two pixels less: exactly where the
      product of the longest edge falls short of it by more than half a unit in its last place. */
  lemma LongestEdgeIsTheRung(native: Size, rung: nat)
    requires FitsU32(native) && Valid(native) && IsRung(rung) && rung < Longest(native)
    ensures var longest := Longest(native);
            Longest(SelectEncodeResolution(native, rung))
            == if ReachesWhole(longest, rung, longest) then rung else rung - 2
  {
    hide ScaledEdge, ReachesWhole;
    ExactFits(Longest(native), rung, Longest(native));
    EvenEdgeIs(native.width, rung, Longest(native));
    EvenEdgeIs(native.height, rung, Longest(native));
  }

  lemma {:induction false} DoublingsAre(p: nat, q: nat, k: nat)
    requires TOP * q <= p * Power(k) < 2 * (TOP * q)
    ensures p > 0 && Doublings(p, q) == k
    decreases k
  {
    if k > 0 {
      Assoc(p, 2, Power(k - 1));
      DoublingsAre(2 * p, q, k - 1);
    }
  }

  lemma {:induction false} HalvingsAre(v: nat, k: nat)
    requires TOP * Power(k) <= v < 2 * TOP * Power(k)
    ensures Halvings(v) == k
  {
    if k > 0 {
      HalvingsAre(v / 2, k - 1);
    }
  }

  lemma PowersAre()
    ensures Power(11) == 0x800 && Power(53) == 0x20_0000_0000_0000
  {
    assert Power(11) == 0x800 && Power(10) == 0x400;
    PowersMultiply(11, 10);
    PowersMultiply(21, 21);
    PowersMultiply(42, 11);
  }

  /** A native edge of 2162 pixels is encoded as 1918 on the lowest rung. */
  lemma RungMissed(height: nat)
    requires 0 < height < 2162
    ensures SelectEncodeResolution(Size(2162, height), 1920).width == 1918
  {
    hide Power, Doublings, Halvings, ScaledEdge;
    PowersAre();
    DoublingsAre(1920, 2162, 53);
    HalvingsAre(2162 * Mantissa(1920, 2162), 11);
    EvenEdgeIs(2162, 1920, 2162);
  }
}
