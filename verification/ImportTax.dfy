/**
 * Import tax in whole cents. Amounts before rounding and all rates are exact reals; `Money` is the
 * half-up rounding the code applies to every component.
 */
module ImportTax {
  import opened Common

  /** Rounds a number of cents half away from zero (decimal ROUND_HALF_UP). */
  function Money(x: real): int {
    if x >= 0.0 then (x + 0.5).Floor else -((0.5 - x).Floor)
  }

  /** A product, named so that proofs can treat it as one amount. */
  function Times(x: real, y: real): real {
    x * y
  }

  /** Tax on a whole number of cents at a rate. */
  function Rounded(m: int, rate: real): int {
    Money(Times(m as real, rate))
  }

  datatype Regime = GeneralTrade | CrossBorderEcommerce | PersonalPostal | SellerCollected

  /** Amounts in cents; an absent rate or amount counts as zero, as `or 0` does. */
  datatype Evidence = Evidence(
    regime: Regime,
    valuation: Option<real>, insurance: real,
    tariffRate: Option<real>, vatRate: Option<real>, consumptionRate: real,
    postalValue: Option<real>, postalRate: Option<real>, postalThreshold: Option<real>,
    sellerCollected: Option<real>)
  {
    /** What the evidence schema accepts. */
    ghost predicate Valid() {
      && (valuation.Some? ==> valuation.value >= 0.0) && insurance >= 0.0
      && (tariffRate.Some? ==> 0.0 <= tariffRate.value <= 5.0)
      && (vatRate.Some? ==> 0.0 <= vatRate.value <= 1.0)
      && 0.0 <= consumptionRate < 1.0
      && (postalValue.Some? ==> postalValue.value >= 0.0)
      && (postalRate.Some? ==> 0.0 <= postalRate.value <= 5.0)
      && (postalThreshold.Some? ==> postalThreshold.value >= 0.0)
      && (sellerCollected.Some? ==> sellerCollected.value >= 0.0)
    }
  }

  function OrZero(x: Option<real>): (r: real)
    ensures x == Some(r) || (x == None && r == 0.0)
  {
    if x.Some? then x.value else 0.0
  }

  datatype Breakdown = Breakdown(
    customsValue: int, tariff: Option<int>, consumptionTax: Option<int>, importVat: Option<int>,
    beforeExemption: Option<int>, exemption: int, total: int)

  /** Component taxes on a customs value of `c` cents. */
  datatype Components = Components(tariff: int, consumptionTax: int, importVat: int) {
    function Total(): int {
      tariff + consumptionTax + importVat
    }
  }

  function General(c: int, t: real, v: real, k: real): Components
    requires k < 1.0
  {
    var tariff := Rounded(c, t);
    var consumption := Money((c + tariff) as real / (1.0 - k) * k);
    var vat := Rounded(c + tariff + consumption, v);
    Components(tariff, consumption, vat)
  }

  /** The value with the consumption tax included. */
  function TaxBase(c: int, k: real): real
    requires k < 1.0
  {
    c as real / (1.0 - k)
  }

  /** The policy levies 70% of the statutory VAT and consumption tax, and no tariff. */
  function CrossBorder(c: int, v: real, k: real): Components
    requires k < 1.0
  {
    var taxBase := TaxBase(c, k);
    Components(0, Money(taxBase * k * 0.7), Money(taxBase * v * 0.7))
  }

  /** Tax before exemption, exempted part, payable part. */
  function Postal(value: int, rate: real, threshold: int): (int, int, int) {
    var before := Rounded(value, rate);
    if before <= threshold then (before, before, 0) else (before, 0, before)
  }

  function CalculateImportTax(e: Evidence, price: real, shipping: real): Breakdown
    requires e.consumptionRate < 1.0
  {
    var customsValue := Money(if e.valuation.Some? then e.valuation.value else price + shipping + e.insurance);
    match e.regime
    case GeneralTrade =>
      var c := General(customsValue, OrZero(e.tariffRate), OrZero(e.vatRate), e.consumptionRate);
      Breakdown(customsValue, Some(c.tariff), Some(c.consumptionTax), Some(c.importVat), None, 0, Money(c.Total() as real))
    case CrossBorderEcommerce =>
      var c := CrossBorder(customsValue, OrZero(e.vatRate), e.consumptionRate);
      Breakdown(customsValue, Some(c.tariff), Some(c.consumptionTax), Some(c.importVat), None, 0, Money(c.Total() as real))
    case PersonalPostal =>
      var value := Money(OrZero(e.postalValue));
      var (before, exemption, total) := Postal(value, OrZero(e.postalRate), Money(OrZero(e.postalThreshold)));
      Breakdown(value, None, None, None, Some(before), exemption, Money(total as real))
    case SellerCollected =>
      Breakdown(customsValue, None, None, None, None, 0, Money(Money(OrZero(e.sellerCollected)) as real))
  }

  // ----- rounding -----------------------------------------------------------------------------------

  lemma MoneyError(x: real)
    ensures -0.5 <= Money(x) as real - x <= 0.5
    ensures x >= 0.0 ==> Money(x) as real > x - 0.5 - 0.0000001 && Money(x) >= 0
  {
  }

  lemma MoneyOfInt(n: int)
    ensures Money(n as real) == n
  {
    assert (n as real + 0.5).Floor == n && (0.5 - n as real).Floor == -n;
  }

  lemma MoneyMono(x: real, y: real)
    requires x <= y
    ensures Money(x) <= Money(y)
  {
  }

  lemma MulMono(x: real, y: real, z: real)
    requires x <= y && z >= 0.0
    ensures x * z <= y * z
  {
  }

  lemma TimesMono(x: real, y: real, z: real)
    requires x <= y && z >= 0.0
    ensures Times(x, z) <= Times(y, z)
    ensures x >= 0.0 ==> Times(x, z) >= 0.0
  {
    MulMono(x, y, z);
    if x >= 0.0 {
      MulMono(0.0, x, z);
    }
  }

  lemma MulBound(x: real, bound: real, z: real)
    requires -bound <= x <= bound && z >= 0.0
    ensures -(bound * z) <= x * z <= bound * z
  {
    MulMono(x, bound, z);
    MulMono(-bound, x, z);
  }

  /** `k / (1 - k)`, the consumption tax per unit of value. */
  function Gross(k: real): real
    requires k < 1.0
  {
    k / (1.0 - k)
  }

  lemma GrossFacts(k: real, x: real)
    requires 0.0 <= k < 1.0
    ensures x / (1.0 - k) * k == x * Gross(k)
    ensures x / (1.0 - k) == x + x * Gross(k)
    ensures Gross(k) >= 0.0
  {
    var d := 1.0 - k;
    var y, g := x / d, k / d;
    assert y * d == x && g * d == k;
    assert x * g == y * d * g == y * (d * g) == y * k;
    assert y == y * d + y * k;
  }

  // ----- the general-trade total -------------------------------------------------------------------

  /** The statutory total without any rounding. */
  function ExactGeneral(c: int, t: real, v: real, k: real): real
    requires k < 1.0
  {
    var tariff := c as real * t;
    var consumption := (c as real + tariff) / (1.0 - k) * k;
    tariff + consumption + (c as real + tariff + consumption) * v
  }

  /** 1/2 + (1 + v)(1 + g/2) cents. */
  function RoundingLimit(v: real, g: real): real {
    0.5 + (1.0 + v) * (1.0 + g / 2.0)
  }

  /** The exact total with `g = k / (1 - k)`. */
  function ExactWithGross(x: real, t: real, v: real, g: real): real {
    var exactT := x * t;
    var exactC := (x + exactT) * g;
    exactT + exactC + (x + exactT + exactC) * v
  }

  /** What the errors of the three steps add up to once the later steps have carried them. */
  function ErrorTotal(e1: real, r2: real, r3: real, g: real, v: real): real {
    e1 + (r2 + e1 * g) + r3 + (e1 + (r2 + e1 * g)) * v
  }

  /** The three rounding errors, carried through the later steps, as one polynomial. */
  lemma ErrorIdentity(x: real, t: real, v: real, g: real, tr: real, cr: real, vr: real)
    ensures tr + cr + vr - ExactWithGross(x, t, v, g)
            == ErrorTotal(tr - Times(x, t), cr - Times(x + tr, g), vr - Times(x + tr + cr, v), g, v)
  {
    var e1, r2 := tr - x * t, cr - (x + tr) * g;
    var exactT := x * t;
    var exactC := (x + exactT) * g;
    var e2 := r2 + e1 * g;
    assert (x + tr) * g == (x + exactT) * g + e1 * g by { Distribute(x + exactT, e1, g); }
    assert cr == exactC + e2;
    assert (x + tr + cr) * v == (x + exactT + exactC) * v + (e1 + e2) * v by { Distribute(x + exactT + exactC, e1 + e2, v); }
  }

  lemma Distribute(a: real, b: real, c: real)
    ensures (a + b) * c == a * c + b * c
  {
  }

  /** Linear part: `p` and `q` stand for the two products of errors and rates. */
  lemma ErrorSum(e1: real, r2: real, r3: real, g: real, v: real, p: real, q: real, hv: real)
    requires -0.5 <= e1 <= 0.5 && -0.5 <= r2 <= 0.5 && -0.5 <= r3 <= 0.5
    requires -(0.5 * g) <= p <= 0.5 * g && -hv <= q <= hv
    ensures -(0.5 + (1.0 + g / 2.0) + hv) <= e1 + (r2 + p) + r3 + q <= 0.5 + (1.0 + g / 2.0) + hv
    ensures -(1.0 + g / 2.0) <= e1 + (r2 + p) <= 1.0 + g / 2.0
  {
  }

  lemma ErrorBound(e1: real, r2: real, r3: real, g: real, v: real)
    requires -0.5 <= e1 <= 0.5 && -0.5 <= r2 <= 0.5 && -0.5 <= r3 <= 0.5 && g >= 0.0 && v >= 0.0
    ensures -RoundingLimit(v, g) <= ErrorTotal(e1, r2, r3, g, v) <= RoundingLimit(v, g)
  {
    var p, h := e1 * g, 1.0 + g / 2.0;
    MulBound(e1, 0.5, g);
    ErrorSum(e1, r2, r3, g, v, p, 0.0, 0.0);
    var e := e1 + (r2 + p);
    MulBound(e, h, v);
    ErrorSum(e1, r2, r3, g, v, p, e * v, h * v);
    Distribute(1.0, v, h);
  }

  lemma RoundingChain(x: real, t: real, v: real, g: real, tr: real, cr: real, vr: real)
    requires g >= 0.0 && v >= 0.0
    requires -0.5 <= tr - Times(x, t) <= 0.5
    requires -0.5 <= cr - Times(x + tr, g) <= 0.5
    requires -0.5 <= vr - Times(x + tr + cr, v) <= 0.5
    ensures -RoundingLimit(v, g) <= tr + cr + vr - ExactWithGross(x, t, v, g) <= RoundingLimit(v, g)
  {
    hide *;
    ErrorIdentity(x, t, v, g, tr, cr, vr);
    ErrorBound(tr - Times(x, t), cr - Times(x + tr, g), vr - Times(x + tr + cr, v), g, v);
  }

  lemma SameMoney(x: real, y: real)
    requires x == y
    ensures Money(x) == Money(y)
  {
  }

  lemma ConsumptionShape(m: int, k: real)
    requires 0.0 <= k < 1.0
    ensures Money(m as real / (1.0 - k) * k) == Rounded(m, Gross(k)) && Gross(k) >= 0.0
  {
    GrossFacts(k, m as real);
    SameMoney(m as real / (1.0 - k) * k, m as real * Gross(k));
  }

  /** The components with the consumption rate in its `k / (1 - k)` form. */
  lemma GeneralShape(c: int, t: real, v: real, k: real)
    requires 0.0 <= k < 1.0
    ensures Gross(k) >= 0.0
    ensures var r := General(c, t, v, k);
      && r.tariff == Rounded(c, t)
      && r.consumptionTax == Rounded(c + r.tariff, Gross(k))
      && r.importVat == Rounded(c + r.tariff + r.consumptionTax, v)
  {
    hide Rounded, Money, Gross;
    ConsumptionShape(c + Rounded(c, t), k);
  }

  lemma RoundedError(m: int, x: real, rate: real)
    requires x == m as real
    ensures -0.5 <= Rounded(m, rate) as real - Times(x, rate) <= 0.5
  {
    hide Times, Money;
    MoneyError(Times(m as real, rate));
  }

  lemma ExactShape(c: int, t: real, v: real, k: real)
    requires 0.0 <= k < 1.0
    ensures ExactGeneral(c, t, v, k) == ExactWithGross(c as real, t, v, Gross(k))
  {
    GrossFacts(k, c as real + c as real * t);
  }

  /** Three successive roundings stay within 1/2 + (1+v)(1 + k / (2(1-k))) cents of the exact formula. */
  lemma GeneralRoundingBound(c: int, t: real, v: real, k: real)
    requires v >= 0.0 && 0.0 <= k < 1.0
    ensures var limit := RoundingLimit(v, Gross(k));
      -limit <= General(c, t, v, k).Total() as real - ExactGeneral(c, t, v, k) <= limit
  {
    hide General, Rounded, Gross, ExactGeneral, ExactWithGross, RoundingLimit, Times;
    var r := General(c, t, v, k);
    GeneralShape(c, t, v, k);
    var x, tr, cr := c as real, r.tariff as real, r.consumptionTax as real;
    RoundedError(c, x, t);
    RoundedError(c + r.tariff, x + tr, Gross(k));
    RoundedError(c + r.tariff + r.consumptionTax, x + tr + cr, v);
    ExactShape(c, t, v, k);
    RoundingChain(x, t, v, Gross(k), tr, cr, r.importVat as real);
  }

  lemma RoundedMono(m: int, n: int, rate: real)
    requires m <= n && rate >= 0.0
    ensures Rounded(m, rate) <= Rounded(n, rate)
  {
    hide Times, Money;
    TimesMono(m as real, n as real, rate);
    MoneyMono(Times(m as real, rate), Times(n as real, rate));
  }

  lemma GeneralMonotone(c: int, d: int, t: real, v: real, k: real)
    requires c <= d && t >= 0.0 && v >= 0.0 && 0.0 <= k < 1.0
    ensures var a, b := General(c, t, v, k), General(d, t, v, k);
      a.tariff <= b.tariff && a.consumptionTax <= b.consumptionTax && a.importVat <= b.importVat
  {
    hide General, Rounded, Gross;
    var a, b := General(c, t, v, k), General(d, t, v, k);
    GeneralShape(c, t, v, k);
    GeneralShape(d, t, v, k);
    RoundedMono(c, d, t);
    RoundedMono(c + a.tariff, d + b.tariff, Gross(k));
    RoundedMono(c + a.tariff + a.consumptionTax, d + b.tariff + b.consumptionTax, v);
  }

  function Reduced(amount: real): int {
    Money(amount * 0.7)
  }

  /** The cross-border components with `g = k / (1 - k)`. */
  function ReducedConsumption(c: int, g: real): int {
    Reduced(Times(c as real, g))
  }

  function GrossedUp(c: int, g: real): real {
    c as real + c as real * g
  }

  function ReducedVat(c: int, g: real, v: real): int {
    Reduced(Times(GrossedUp(c, g), v))
  }

  lemma CrossBorderShape(c: int, v: real, k: real)
    requires 0.0 <= k < 1.0
    ensures Gross(k) >= 0.0
    ensures var r := CrossBorder(c, v, k);
      r.tariff == 0 && r.consumptionTax == ReducedConsumption(c, Gross(k)) && r.importVat == ReducedVat(c, Gross(k), v)
  {
    hide Money, Gross, ReducedConsumption, ReducedVat, TaxBase;
    ReducedFromBase(c, k, v);
  }

  lemma ReducedFromBase(c: int, k: real, v: real)
    requires 0.0 <= k < 1.0
    ensures Gross(k) >= 0.0
    ensures Money(TaxBase(c, k) * k * 0.7) == ReducedConsumption(c, Gross(k))
    ensures Money(TaxBase(c, k) * v * 0.7) == ReducedVat(c, Gross(k), v)
  {
    hide Money, Gross, TaxBase, GrossedUp;
    TaxBaseFacts(c, k);
    SameMoney(TaxBase(c, k) * k * 0.7, Times(c as real, Gross(k)) * 0.7);
    SameMoney(TaxBase(c, k) * v * 0.7, Times(GrossedUp(c, Gross(k)), v) * 0.7);
  }

  lemma TaxBaseFacts(c: int, k: real)
    requires 0.0 <= k < 1.0
    ensures Gross(k) >= 0.0
    ensures TaxBase(c, k) * k == c as real * Gross(k) && TaxBase(c, k) == GrossedUp(c, Gross(k))
  {
    GrossFacts(k, c as real);
  }

  lemma CrossBorderMonotone(c: int, d: int, v: real, k: real)
    requires c <= d && v >= 0.0 && 0.0 <= k < 1.0
    ensures var a, b := CrossBorder(c, v, k), CrossBorder(d, v, k);
      a.consumptionTax <= b.consumptionTax && a.importVat <= b.importVat && a.tariff == b.tariff == 0
  {
    hide CrossBorder, ReducedConsumption, ReducedVat, Gross;
    CrossBorderShape(c, v, k);
    CrossBorderShape(d, v, k);
    ReducedMono(c, d, Gross(k), v);
  }

  lemma ReducedMono(c: int, d: int, g: real, v: real)
    requires c <= d && g >= 0.0 && v >= 0.0
    ensures ReducedConsumption(c, g) <= ReducedConsumption(d, g)
    ensures ReducedVat(c, g, v) <= ReducedVat(d, g, v)
  {
    hide ReducedConsumption, ReducedVat, Money;
    ReducedConsumptionMono(c, d, g);
    MulMono(c as real, d as real, g);
    ReducedVatMono(c, d, g, v);
  }

  lemma ReducedConsumptionMono(c: int, d: int, g: real)
    requires c <= d && g >= 0.0
    ensures ReducedConsumption(c, g) <= ReducedConsumption(d, g)
  {
    hide Times, Reduced;
    TimesMono(c as real, d as real, g);
    ReducedMoneyMono(Times(c as real, g), Times(d as real, g));
  }

  lemma ReducedMoneyMono(x: real, y: real)
    requires x <= y
    ensures Reduced(x) <= Reduced(y)
  {
    MoneyMono(x * 0.7, y * 0.7);
  }

  lemma ReducedVatMono(c: int, d: int, g: real, v: real)
    requires GrossedUp(c, g) <= GrossedUp(d, g) && v >= 0.0
    ensures ReducedVat(c, g, v) <= ReducedVat(d, g, v)
  {
    hide GrossedUp, Times, Reduced;
    TimesMono(GrossedUp(c, g), GrossedUp(d, g), v);
    ReducedMoneyMono(Times(GrossedUp(c, g), v), Times(GrossedUp(d, g), v));
  }

  /** Across the exemption cliff: nothing is lost, nothing below the threshold is paid, and more value never costs less. */
  lemma PostalCliff(c: int, d: int, rate: real, threshold: int)
    requires c <= d && rate >= 0.0
    ensures var (before, exemption, total) := Postal(c, rate, threshold);
      exemption + total == before && (total != 0 ==> before > threshold) && (before > threshold ==> total == before)
    ensures threshold >= 0 ==> Postal(c, rate, threshold).2 <= Postal(d, rate, threshold).2
  {
    RoundedMono(c, d, rate);
  }

  /** The value before rounding that the two customs regimes start from. */
  function DeclaredValue(e: Evidence, price: real, shipping: real): real {
    if e.valuation.Some? then e.valuation.value else price + shipping + e.insurance
  }

  /** The value a regime taxes. */
  function TaxableValue(e: Evidence, price: real, shipping: real): real {
    match e.regime
    case PersonalPostal => OrZero(e.postalValue)
    case SellerCollected => OrZero(e.sellerCollected)
    case _ => DeclaredValue(e, price, shipping)
  }

  ghost predicate SameRates(e: Evidence, f: Evidence) {
    && e.regime == f.regime && e.tariffRate == f.tariffRate && e.vatRate == f.vatRate
    && e.consumptionRate == f.consumptionRate && e.postalRate == f.postalRate && e.postalThreshold == f.postalThreshold
  }

  /** In every regime the total is non-decreasing in the taxable value. */
  lemma TotalMonotone(e: Evidence, price: real, shipping: real, f: Evidence, price': real, shipping': real)
    requires e.Valid() && f.Valid() && SameRates(e, f)
    requires TaxableValue(e, price, shipping) <= TaxableValue(f, price', shipping')
    ensures CalculateImportTax(e, price, shipping).total <= CalculateImportTax(f, price', shipping').total
  {
    var c, d := Money(TaxableValue(e, price, shipping)), Money(TaxableValue(f, price', shipping'));
    MoneyMono(TaxableValue(e, price, shipping), TaxableValue(f, price', shipping'));
    var t, v, k := OrZero(e.tariffRate), OrZero(e.vatRate), e.consumptionRate;
    match e.regime
    case GeneralTrade =>
      GeneralMonotone(c, d, t, v, k);
      MoneyOfInt(General(c, t, v, k).Total());
      MoneyOfInt(General(d, t, v, k).Total());
    case CrossBorderEcommerce =>
      CrossBorderMonotone(c, d, v, k);
      MoneyOfInt(CrossBorder(c, v, k).Total());
      MoneyOfInt(CrossBorder(d, v, k).Total());
    case PersonalPostal =>
      var threshold := Money(OrZero(e.postalThreshold));
      MoneyError(OrZero(e.postalThreshold));
      PostalCliff(c, d, OrZero(e.postalRate), threshold);
      MoneyOfInt(Postal(c, OrZero(e.postalRate), threshold).2);
      MoneyOfInt(Postal(d, OrZero(e.postalRate), threshold).2);
    case SellerCollected =>
      MoneyOfInt(c);
      MoneyOfInt(d);
  }

  /** The reported total is exactly the sum of the reported components, or the unexempted postal tax. */
  lemma TotalIsSumOfComponents(e: Evidence, price: real, shipping: real)
    requires e.Valid()
    ensures var b := CalculateImportTax(e, price, shipping);
      && (b.tariff.Some? && b.consumptionTax.Some? && b.importVat.Some? ==>
            b.total == b.tariff.value + b.consumptionTax.value + b.importVat.value)
      && (b.beforeExemption.Some? ==> b.exemption + b.total == b.beforeExemption.value)
  {
    var c := Money(TaxableValue(e, price, shipping));
    var t, v, k := OrZero(e.tariffRate), OrZero(e.vatRate), e.consumptionRate;
    match e.regime
    case GeneralTrade => MoneyOfInt(General(c, t, v, k).Total());
    case CrossBorderEcommerce => MoneyOfInt(CrossBorder(c, v, k).Total());
    case PersonalPostal => MoneyOfInt(Postal(c, OrZero(e.postalRate), Money(OrZero(e.postalThreshold))).2);
    case SellerCollected =>
  }

  // ----- cross-border never exceeds general trade, but for one cent ---------------------------------

  /** The one family of inputs where rounding makes the preferential regime dearer. */
  predicate OneCentException(c: int, t: real, v: real, k: real) {
    c == 1 && 0.3 < k && 3.0 * k < 1.0 && t < 0.5 && v < 0.5 && 1.4 * v >= 1.0 - k
  }

  /** It suffices that the general VAT base reaches 70% of the grossed-up value. */
  lemma VatBaseSuffices(c: int, t: real, v: real, k: real)
    requires c >= 0 && t >= 0.0 && v >= 0.0 && 0.0 <= k < 1.0
    requires var r := General(c, t, v, k);
      (c + r.tariff + r.consumptionTax) as real >= 0.7 * (c as real + c as real * Gross(k))
    ensures CrossBorder(c, v, k).Total() <= General(c, t, v, k).Total()
  {
    hide General, CrossBorder, ReducedConsumption, ReducedVat, Rounded, Gross;
    var r := General(c, t, v, k);
    GeneralShape(c, t, v, k);
    CrossBorderShape(c, v, k);
    RoundedNonNegative(c, t);
    ReducedConsumptionBelow(c, c + r.tariff, Gross(k));
    ReducedVatBelow(c, Gross(k), v, c + r.tariff + r.consumptionTax);
  }

  lemma ReducedConsumptionBelow(c: int, m: int, g: real)
    requires 0 <= c <= m && g >= 0.0
    ensures ReducedConsumption(c, g) <= Rounded(m, g)
  {
    hide Times, Reduced, Money;
    TimesMono(c as real, m as real, g);
    ReducedBelow(Times(c as real, g), Times(m as real, g));
  }

  lemma ReducedBelow(x: real, y: real)
    requires x * 0.7 <= y
    ensures Reduced(x) <= Money(y)
  {
    MoneyMono(x * 0.7, y);
  }

  lemma ReducedVatBelow(c: int, g: real, v: real, m: int)
    requires v >= 0.0 && 0.7 * (c as real + c as real * g) <= m as real
    ensures ReducedVat(c, g, v) <= Rounded(m, v)
  {
    hide Times, Reduced, Money;
    var amount := GrossedUp(c, g);
    TimesMono(0.7 * amount, m as real, v);
    TimesScale(0.7, amount, v);
    ReducedBelow(Times(amount, v), Times(m as real, v));
  }

  lemma TimesScale(f: real, x: real, y: real)
    ensures Times(f * x, y) == Times(x, y) * f
  {
  }

  lemma RoundedNonNegative(m: int, rate: real)
    requires m >= 0 && rate >= 0.0
    ensures Rounded(m, rate) >= 0
  {
    hide Times, Money;
    TimesMono(m as real, m as real, rate);
    MoneyError(Times(m as real, rate));
  }

  /** The rounded consumption tax is at most half a cent short of `c * k/(1-k)`. */
  lemma ConsumptionAtLeast(c: int, t: real, v: real, k: real)
    requires c >= 0 && t >= 0.0 && 0.0 <= k < 1.0
    ensures var r := General(c, t, v, k);
      r.tariff == Rounded(c, t) >= 0 && r.consumptionTax >= Rounded(c, Gross(k)) >= 0
    ensures Rounded(c, Gross(k)) as real >= c as real * Gross(k) - 0.5
  {
    hide General, Rounded, Gross;
    GeneralShape(c, t, v, k);
    RoundedNonNegative(c, t);
    RoundedNonNegative(c, Gross(k));
    RoundedMono(c, c + General(c, t, v, k).tariff, Gross(k));
    RoundedError(c, c as real, Gross(k));
  }

  lemma LargeValue(c: int, t: real, v: real, k: real)
    requires t >= 0.0 && v >= 0.0 && 0.0 <= k < 1.0
    requires c >= 2 || c == 0 || (c == 1 && k >= 0.4)
    ensures CrossBorder(c, v, k).Total() <= General(c, t, v, k).Total()
  {
    hide General, CrossBorder, Rounded, Gross;
    var x, g := c as real, Gross(k);
    ConsumptionAtLeast(c, t, v, k);
    GrossIdentity(k);
    if c >= 2 {
      MulMono(2.0, x, g);
    } else if c == 1 {
      GrossAtThresholds();
      if k > 0.4 {
        GrossMono(0.4, k);
      }
    }
    VatBaseSuffices(c, t, v, k);
  }

  lemma GrossIdentity(k: real)
    requires 0.0 <= k < 1.0
    ensures (1.0 + Gross(k)) * (1.0 - k) == 1.0 && Gross(k) >= 0.0
  {
    GrossFacts(k, 1.0);
    assert Gross(k) * (1.0 - k) == k;
    Distribute(1.0, Gross(k), 1.0 - k);
  }

  lemma GrossMono(k: real, l: real)
    requires 0.0 <= k < l < 1.0
    ensures Gross(k) < Gross(l)
  {
    var g, h := Gross(k), Gross(l);
    GrossIdentity(k);
    GrossIdentity(l);
    PositiveProduct(l - k, 1.0 + g);
    assert (1.0 + g) * (1.0 - l) < 1.0 by {
      assert (1.0 - l) + (l - k) == 1.0 - k;
      Distribute(1.0 - l, l - k, 1.0 + g);
    }
    if h <= g {
      MulMono(1.0 + h, 1.0 + g, 1.0 - l);
    }
  }

  lemma PositiveProduct(x: real, y: real)
    requires x > 0.0 && y > 0.0
    ensures x * y > 0.0
  {
  }

  /** The values of k/(1-k) at the rates where the cases change. */
  lemma GrossAtThresholds()
    ensures Gross(0.3) == 3.0 / 7.0 && Gross(1.0 / 3.0) == 0.5 && Gross(0.4) == 2.0 / 3.0
  {
  }

  lemma RoundedCent(rate: real)
    ensures Rounded(1, rate) == Money(rate)
    ensures rate >= 0.5 ==> Rounded(1, rate) >= 1
    ensures 0.0 <= rate < 0.5 ==> Rounded(1, rate) == 0
  {
    assert 1 as real * rate == rate;
    SameMoney(1 as real * rate, rate);
  }

  /** A one-cent value below the critical consumption rates. */
  lemma OneCentSmallRate(t: real, v: real, k: real)
    requires t >= 0.0 && v >= 0.0 && 0.0 <= k <= 0.3
    ensures CrossBorder(1, v, k).Total() <= General(1, t, v, k).Total()
  {
    hide General, CrossBorder, Rounded, Gross;
    ConsumptionAtLeast(1, t, v, k);
    GrossAtThresholds();
    if k < 0.3 {
      GrossMono(k, 0.3);
    }
    VatBaseSuffices(1, t, v, k);
  }

  lemma OneCentThird(t: real, v: real, k: real)
    requires t >= 0.0 && v >= 0.0 && 1.0 <= 3.0 * k && k < 0.4
    ensures CrossBorder(1, v, k).Total() <= General(1, t, v, k).Total()
  {
    hide General, CrossBorder, Rounded, Gross;
    ConsumptionAtLeast(1, t, v, k);
    GrossAtThresholds();
    GrossMono(k, 0.4);
    if k > 1.0 / 3.0 {
      GrossMono(1.0 / 3.0, k);
    }
    RoundedCent(Gross(k));
    VatBaseSuffices(1, t, v, k);
  }

  lemma OneCentWithTariff(t: real, v: real, k: real)
    requires t >= 0.5 && v >= 0.0 && 0.3 < k && 3.0 * k < 1.0
    ensures CrossBorder(1, v, k).Total() <= General(1, t, v, k).Total()
  {
    hide General, CrossBorder, Rounded, Gross;
    ConsumptionAtLeast(1, t, v, k);
    RoundedCent(t);
    GrossAtThresholds();
    GrossMono(k, 0.4);
    VatBaseSuffices(1, t, v, k);
  }

  lemma GrossRange(k: real)
    requires 0.3 < k && 3.0 * k < 1.0
    ensures 10.0 / 7.0 < 1.0 + Gross(k) < 1.5
  {
    hide Gross;
    GrossAtThresholds();
    GrossMono(0.3, k);
    GrossMono(k, 1.0 / 3.0);
  }

  /** With neither tariff nor consumption tax, both totals are the VAT alone. */
  lemma OneCentCritical(t: real, v: real, k: real)
    requires 0.0 <= t < 0.5 && 0.3 < k && 3.0 * k < 1.0
    ensures General(1, t, v, k).Total() == Money(v)
    ensures CrossBorder(1, v, k).Total() == ReducedVat(1, Gross(k), v)
  {
    hide General, CrossBorder, Rounded, Gross, ReducedConsumption, ReducedVat, Money;
    GrossRange(k);
    GeneralShape(1, t, v, k);
    CrossBorderShape(1, v, k);
    RoundedCent(t);
    RoundedCent(Gross(k));
    RoundedCent(v);
    ReducedToNothing(Gross(k));
  }

  lemma ReducedToNothing(g: real)
    requires 0.0 <= g < 0.5
    ensures ReducedConsumption(1, g) == 0
  {
    assert 1 as real * g * 0.7 == 0.7 * g;
  }

  /** With `n * d == 1`, comparing `n * w` with 1 is comparing `w` with `d`. */
  lemma CompareWithInverse(n: real, d: real, w: real)
    requires n > 0.0 && n * d == 1.0
    ensures n * w >= 1.0 <==> w >= d
  {
    if w >= d {
      MulMono(d, w, n);
    } else {
      PositiveProduct(d - w, n);
      assert (d - w) * n == n * d - n * w;
    }
  }

  lemma Regroup(n: real, v: real)
    ensures n * (1.4 * v) == n * v * 0.7 * 2.0
  {
  }

  /** Where the cross-border VAT on one cent rounds up to a cent. */
  lemma CriticalVat(v: real, k: real)
    requires 0.0 <= v <= 1.0 && 0.0 <= k < 1.0
    ensures (1.0 + Gross(k)) * v * 0.7 >= 0.5 <==> 1.4 * v >= 1.0 - k
  {
    hide Gross;
    var n := 1.0 + Gross(k);
    GrossIdentity(k);
    CompareWithInverse(n, 1.0 - k, 1.4 * v);
    Regroup(n, v);
  }

  lemma CriticalCompare(v: real, k: real)
    requires 0.0 <= v <= 1.0 && 0.0 <= k < 1.0 && 10.0 / 7.0 < 1.0 + Gross(k) < 1.5
    ensures ReducedVat(1, Gross(k), v) <= Money(v) <==> !(v < 0.5 && 1.4 * v >= 1.0 - k)
  {
    hide Gross;
    var n := 1.0 + Gross(k);
    CriticalVat(v, k);
    MulMono(n, 1.5, v);
    MulMono(10.0 / 7.0, n, v);
    HalfCent(v, n * v * 0.7);
    assert 1 as real + 1 as real * Gross(k) == n;
    SameMoney(GrossedUp(1, Gross(k)) * v * 0.7, n * v * 0.7);
  }

  lemma HalfCent(v: real, w: real)
    requires 0.0 <= v <= w <= 1.05 * v && v <= 1.0
    ensures Money(w) <= Money(v) <==> !(v < 0.5 && w >= 0.5)
  {
  }

  /**
   * For the same customs value, rates and any tariff, the cross-border total exceeds the general-trade total
   * in exactly one family of inputs: a value of one cent with a consumption rate between 30% and one third.
   */
  lemma CrossBorderNeverDearerIff(c: int, t: real, v: real, k: real)
    requires c >= 0 && 0.0 <= t <= 5.0 && 0.0 <= v <= 1.0 && 0.0 <= k < 1.0
    ensures CrossBorder(c, v, k).Total() <= General(c, t, v, k).Total() <==> !OneCentException(c, t, v, k)
  {
    hide General, CrossBorder, Gross, ReducedVat, Money;
    if c != 1 || k >= 0.4 {
      LargeValue(c, t, v, k);
    } else if k <= 0.3 {
      OneCentSmallRate(t, v, k);
    } else if 1.0 <= 3.0 * k {
      OneCentThird(t, v, k);
    } else if t >= 0.5 {
      OneCentWithTariff(t, v, k);
    } else {
      GrossRange(k);
      OneCentCritical(t, v, k);
      CriticalCompare(v, k);
    }
  }

  /** One cent with a consumption rate of 32% and VAT of 49%: one cent of tax against none. */
  lemma OneCentDearer()
    ensures OneCentException(1, 0.0, 0.49, 0.32)
    ensures CrossBorder(1, 0.49, 0.32).Total() > General(1, 0.0, 0.49, 0.32).Total()
  {
    hide General, CrossBorder;
    CrossBorderNeverDearerIff(1, 0.0, 0.49, 0.32);
  }

  // ----- what each regime reports ------------------------------------------------------------------

  /** `n` cents is `x` rounded half up. */
  ghost predicate HalfUp(n: int, x: real) {
    n as real - 0.5 <= x < n as real + 0.5
  }

  lemma MoneyIsHalfUp(x: real)
    requires x >= 0.0
    ensures HalfUp(Money(x), x) && forall n: int :: HalfUp(n, x) ==> n == Money(x)
  {
  }

  /**
   * General trade: each reported tax is its rate on the taxes before it, rounded half up; the consumption tax
   * is levied on a value that includes it.
   */
  lemma GeneralReports(e: Evidence, price: real, shipping: real)
    requires e.Valid() && e.regime.GeneralTrade? && price >= 0.0 && shipping >= 0.0
    ensures var b := CalculateImportTax(e, price, shipping);
      && HalfUp(b.customsValue, DeclaredValue(e, price, shipping))
      && b.tariff.Some? && b.consumptionTax.Some? && b.importVat.Some? && b.beforeExemption == None && b.exemption == 0
      && var c, t, k := b.customsValue, b.tariff.value, b.consumptionTax.value;
         && HalfUp(t, Times(c as real, OrZero(e.tariffRate)))
         && HalfUp(k, Times((c + t) as real, Gross(e.consumptionRate)))
         && HalfUp(b.importVat.value, Times((c + t + k) as real, OrZero(e.vatRate)))
  {
    var b := CalculateImportTax(e, price, shipping);
    var t, v, k := OrZero(e.tariffRate), OrZero(e.vatRate), e.consumptionRate;
    MoneyIsHalfUp(DeclaredValue(e, price, shipping));
    MoneyError(DeclaredValue(e, price, shipping));
    hide General, Gross, Money, Times, HalfUp;
    GeneralIsHalfUp(b.customsValue, t, v, k);
  }

  lemma GeneralIsHalfUp(c: int, t: real, v: real, k: real)
    requires c >= 0 && t >= 0.0 && v >= 0.0 && 0.0 <= k < 1.0
    ensures var r := General(c, t, v, k);
      && HalfUp(r.tariff, Times(c as real, t))
      && HalfUp(r.consumptionTax, Times((c + r.tariff) as real, Gross(k)))
      && HalfUp(r.importVat, Times((c + r.tariff + r.consumptionTax) as real, v))
  {
    hide *;
    var r := General(c, t, v, k);
    GeneralShape(c, t, v, k);
    RoundedIsHalfUp(c, t);
    RoundedIsHalfUp(c + r.tariff, Gross(k));
    RoundedIsHalfUp(c + r.tariff + r.consumptionTax, v);
  }

  lemma RoundedIsHalfUp(m: int, rate: real)
    requires m >= 0 && rate >= 0.0
    ensures HalfUp(Rounded(m, rate), Times(m as real, rate)) && Rounded(m, rate) >= 0
  {
    TimesMono(m as real, m as real, rate);
    MoneyIsHalfUp(Times(m as real, rate));
    MoneyError(Times(m as real, rate));
    hide Times;
  }

  /** Cross-border trade: no tariff, and 70% of consumption tax and VAT on the value with consumption tax in it. */
  lemma CrossBorderReports(e: Evidence, price: real, shipping: real)
    requires e.Valid() && e.regime.CrossBorderEcommerce? && price >= 0.0 && shipping >= 0.0
    ensures var b := CalculateImportTax(e, price, shipping);
      && HalfUp(b.customsValue, DeclaredValue(e, price, shipping))
      && b.tariff == Some(0) && b.consumptionTax.Some? && b.importVat.Some? && b.beforeExemption == None && b.exemption == 0
      && HalfUp(b.consumptionTax.value, Times(b.customsValue as real, Gross(e.consumptionRate)) * 0.7)
      && HalfUp(b.importVat.value, Times(GrossedUp(b.customsValue, Gross(e.consumptionRate)), OrZero(e.vatRate)) * 0.7)
  {
    var b := CalculateImportTax(e, price, shipping);
    var c, v, k := b.customsValue, OrZero(e.vatRate), e.consumptionRate;
    MoneyIsHalfUp(DeclaredValue(e, price, shipping));
    MoneyError(DeclaredValue(e, price, shipping));
    CrossBorderShape(c, v, k);
    hide CrossBorder, Gross, Money, Times, HalfUp;
    TimesMono(c as real, c as real, Gross(k));
    GrossedUpIs(c, Gross(k));
    TimesMono(GrossedUp(c, Gross(k)), GrossedUp(c, Gross(k)), v);
    MoneyIsHalfUp(Times(c as real, Gross(k)) * 0.7);
    MoneyIsHalfUp(Times(GrossedUp(c, Gross(k)), v) * 0.7);
  }

  lemma GrossedUpIs(c: int, g: real)
    requires c >= 0 && g >= 0.0
    ensures GrossedUp(c, g) == c as real + Times(c as real, g) >= 0.0
  {
    MulMono(0.0, c as real, g);
  }

  /** Personal post: the tax is the rate on the assessed value; up to the threshold it is waived, above it is due in full. */
  lemma PostalReports(e: Evidence, price: real, shipping: real)
    requires e.Valid() && e.regime.PersonalPostal?
    ensures var b := CalculateImportTax(e, price, shipping);
      && HalfUp(b.customsValue, OrZero(e.postalValue))
      && b.tariff == None && b.consumptionTax == None && b.importVat == None && b.beforeExemption.Some?
      && HalfUp(b.beforeExemption.value, Times(b.customsValue as real, OrZero(e.postalRate)))
    ensures forall threshold: int :: HalfUp(threshold, OrZero(e.postalThreshold)) ==>
      var b := CalculateImportTax(e, price, shipping);
      if b.beforeExemption.value <= threshold then b.exemption == b.beforeExemption.value && b.total == 0
      else b.exemption == 0 && b.total == b.beforeExemption.value
  {
    var b := CalculateImportTax(e, price, shipping);
    MoneyIsHalfUp(OrZero(e.postalValue));
    MoneyError(OrZero(e.postalValue));
    MoneyIsHalfUp(OrZero(e.postalThreshold));
    RoundedIsHalfUp(b.customsValue, OrZero(e.postalRate));
    MoneyOfInt(0);
    MoneyOfInt(b.beforeExemption.value);
    hide Money, Times, HalfUp, Rounded;
  }

  /** A collected tax is passed on as quoted, in cents. */
  lemma SellerReports(e: Evidence, price: real, shipping: real)
    requires e.Valid() && e.regime.SellerCollected? && price >= 0.0 && shipping >= 0.0
    ensures var b := CalculateImportTax(e, price, shipping);
      && HalfUp(b.total, OrZero(e.sellerCollected)) && HalfUp(b.customsValue, DeclaredValue(e, price, shipping))
      && b.tariff == None && b.consumptionTax == None && b.importVat == None && b.beforeExemption == None && b.exemption == 0
  {
    MoneyIsHalfUp(OrZero(e.sellerCollected));
    MoneyIsHalfUp(DeclaredValue(e, price, shipping));
    MoneyOfInt(Money(OrZero(e.sellerCollected)));
  }
}
