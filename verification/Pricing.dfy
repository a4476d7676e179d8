/** The price of a document and of an order: src/suliko/domain/pricing.py. Amounts before
    rounding are reals, exactly; rounded amounts are whole tetri. */
module Pricing {
  import opened Options

  datatype CopyType = Plain | Original | NotaryOriginal | NotaryCopy | NotaryCertified

  datatype Service = Written | Oral

  datatype Config = Config(urgencyMultiplier: real, deliveryFee: real, translatorShare: real)

  datatype Document = Document(
    pages: int, ratePerPage: Option<real>, typeMultiplier: real, copy: CopyType, notarized: Option<bool>,
    service: Service, ratePerMinute: Option<real>, characters: Option<int>, charactersPerPage: int)

  datatype Breakdown = Breakdown(translation: int, notary: int, certification: int, price: int, translator: int)

  datatype Quote = Quote(documents: seq<Breakdown>, documentsTotal: int, delivery: int, total: int, translator: int, notary: int)

  // ---- Rounding ----

  /** Two places, a half away from zero; in tetri. */
  function Money(x: real): int {
    if x >= 0.0 then (x * 100.0 + 0.5).Floor else -((-x * 100.0 + 0.5).Floor)
  }

  function Lari(tetri: int): real {
    tetri as real / 100.0
  }

  /** Rounding is off by at most half a tetri, keeps order, and leaves whole tetri alone. */
  lemma RoundingIsClose(x: real)
    ensures -0.005 <= Lari(Money(x)) - x <= 0.005
  {
  }

  lemma RoundingKeepsOrder(x: real, y: real)
    requires x <= y
    ensures Money(x) <= Money(y)
  {
  }

  lemma RoundingAgain(tetri: int)
    ensures Money(Lari(tetri)) == tetri
  {
    if tetri >= 0 {
      assert (tetri as real + 0.5).Floor == tetri;
    } else {
      assert (-tetri as real + 0.5).Floor == -tetri;
    }
  }

  /** Whole tetri pass through rounding, unless a negative and a positive part meet. */
  lemma RoundingShifts(tetri: int, x: real)
    requires tetri >= 0 && x >= 0.0
    ensures Money(Lari(tetri) + x) == tetri + Money(x)
  {
    assert (Lari(tetri) + x) * 100.0 + 0.5 == tetri as real + (x * 100.0 + 0.5);
  }

  // ---- Notary tariffs ----

  /** The rate of the first tier that holds the pages; the last is open-ended. */
  function TierRate(pages: int, tiers: seq<(Option<int>, real)>): real
    requires tiers != [] && tiers[|tiers| - 1].0.None?
  {
    if tiers[0].0.None? || pages <= tiers[0].0.value then tiers[0].1 else TierRate(pages, tiers[1..])
  }

  const NOTARY_TIERS: seq<(Option<int>, real)> := [(Some(1), 6.0), (Some(10), 4.0), (Some(50), 3.0), (None, 2.0)]
  const CERTIFICATION_TIERS: seq<(Option<int>, real)> := [(Some(1), 4.0), (Some(10), 2.0), (Some(50), 1.0), (None, 0.5)]
  const VAT_RATE := 1.18
  const NOTARY_FLAT_FEE := 5.0

  function CertificationFee(pages: int, copy: CopyType): real {
    if copy.NotaryCertified? then TierRate(pages, CERTIFICATION_TIERS) * pages as real * VAT_RATE else 0.0
  }

  function NotaryFee(pages: int, copy: CopyType): real {
    TierRate(pages, NOTARY_TIERS) * pages as real * VAT_RATE + NOTARY_FLAT_FEE + CertificationFee(pages, copy)
  }

  /** The same in tetri, by the tiers. */
  function NotaryTetri(pages: int): int {
    if pages <= 1 then 708 * pages else if pages <= 10 then 472 * pages else if pages <= 50 then 354 * pages else 236 * pages
  }

  function CertificationTetri(pages: int): int {
    if pages <= 1 then 472 * pages else if pages <= 10 then 236 * pages else if pages <= 50 then 118 * pages else 59 * pages
  }

  lemma NotaryRate(pages: int)
    ensures TierRate(pages, NOTARY_TIERS)
            == if pages <= 1 then 6.0 else if pages <= 10 then 4.0 else if pages <= 50 then 3.0 else 2.0
  {
    var t := NOTARY_TIERS;
    assert t[1..] == [(Some(10), 4.0), (Some(50), 3.0), (None, 2.0)];
    assert t[1..][1..] == [(Some(50), 3.0), (None, 2.0)];
    assert t[1..][1..][1..] == [(None, 2.0)];
    assert TierRate(pages, t[1..][1..][1..]) == 2.0;
    assert TierRate(pages, t[1..][1..]) == if pages <= 50 then 3.0 else 2.0;
    assert TierRate(pages, t[1..]) == if pages <= 10 then 4.0 else if pages <= 50 then 3.0 else 2.0;
  }

  lemma CertificationRate(pages: int)
    ensures TierRate(pages, CERTIFICATION_TIERS)
            == if pages <= 1 then 4.0 else if pages <= 10 then 2.0 else if pages <= 50 then 1.0 else 0.5
  {
    var t := CERTIFICATION_TIERS;
    assert t[1..] == [(Some(10), 2.0), (Some(50), 1.0), (None, 0.5)];
    assert t[1..][1..] == [(Some(50), 1.0), (None, 0.5)];
    assert t[1..][1..][1..] == [(None, 0.5)];
    assert TierRate(pages, t[1..][1..][1..]) == 0.5;
    assert TierRate(pages, t[1..][1..]) == if pages <= 50 then 1.0 else 0.5;
    assert TierRate(pages, t[1..]) == if pages <= 10 then 2.0 else if pages <= 50 then 1.0 else 0.5;
  }

  /** Notary fees are whole tetri for every number of pages: rounding them changes nothing. */
  lemma NotaryFeesAreWhole(pages: int, copy: CopyType)
    ensures CertificationFee(pages, copy) == Lari(if copy.NotaryCertified? then CertificationTetri(pages) else 0)
    ensures NotaryFee(pages, copy) == Lari(NotaryTetri(pages) + 500 + if copy.NotaryCertified? then CertificationTetri(pages) else 0)
    ensures Lari(Money(NotaryFee(pages, copy))) == NotaryFee(pages, copy)
  {
    NotaryRate(pages);
    CertificationRate(pages);
    RoundingAgain(NotaryTetri(pages) + 500 + if copy.NotaryCertified? then CertificationTetri(pages) else 0);
  }

  // ---- A document ----

  const FALLBACK_RATE_PER_PAGE := 15.0
  const FALLBACK_RATE_PER_MINUTE := 2.0

  function AtLeastOne(n: int): int { if n < 1 then 1 else n }

  function RateOf(rate: Option<real>, fallback: real): real {
    if rate.Some? then rate.value else fallback
  }

  function MaxReal(a: real, b: real): real { if a < b then b else a }

  /** Physical pages, or the standard pages the characters make. */
  function BilledPages(d: Document): real {
    if d.characters.Some? && d.characters.value != 0 then
      MaxReal(1.0, d.characters.value as real / AtLeastOne(d.charactersPerPage) as real)
    else AtLeastOne(d.pages) as real
  }

  function TranslationCost(d: Document, c: Config): real {
    match d.service
    case Oral => RateOf(d.ratePerMinute, FALLBACK_RATE_PER_MINUTE) * AtLeastOne(d.pages) as real * c.urgencyMultiplier
    case Written => RateOf(d.ratePerPage, FALLBACK_RATE_PER_PAGE) * BilledPages(d) * d.typeMultiplier * c.urgencyMultiplier
  }

  predicate IsNotarized(d: Document) {
    d.service.Written? && if d.notarized.Some? then d.notarized.value else d.copy.NotaryOriginal? || d.copy.NotaryCopy? || d.copy.NotaryCertified?
  }

  /** What a document costs before any rounding. */
  function UnroundedPrice(d: Document, c: Config): real {
    TranslationCost(d, c) + if IsNotarized(d) then NotaryFee(AtLeastOne(d.pages), d.copy) else 0.0
  }

  /** The translator's part of an amount. */
  function Share(x: real, share: real): real { x * share }

  /** `price_document` */
  function PriceDocument(d: Document, c: Config): Breakdown {
    var cost, pages := TranslationCost(d, c), AtLeastOne(d.pages);
    if d.service.Oral? then
      Breakdown(Money(cost), 0, 0, Money(cost), Money(Share(Lari(Money(cost)), c.translatorShare)))
    else
      var notary := if IsNotarized(d) then NotaryFee(pages, d.copy) else 0.0;
      var certification := if IsNotarized(d) then CertificationFee(pages, d.copy) else 0.0;
      Breakdown(Money(cost), Money(notary), Money(certification), Money(cost) + Money(notary), Money(Share(cost, c.translatorShare)))
  }

  function Profit(b: Breakdown): int {
    Money(Lari(b.price) - Lari(b.translator) - Lari(b.notary))
  }

  predicate NotNegative(d: Document, c: Config) {
    && c.urgencyMultiplier >= 0.0 && c.deliveryFee >= 0.0 && d.typeMultiplier >= 0.0
    && (d.ratePerPage.Some? ==> d.ratePerPage.value >= 0.0) && (d.ratePerMinute.Some? ==> d.ratePerMinute.value >= 0.0)
  }

  lemma ProductNotNegative(a: real, b: real)
    requires a >= 0.0 && b >= 0.0
    ensures a * b >= 0.0
  {
  }

  lemma CostNotNegative(d: Document, c: Config)
    requires NotNegative(d, c)
    ensures TranslationCost(d, c) >= 0.0
  {
    if d.service.Oral? {
      var rate := RateOf(d.ratePerMinute, FALLBACK_RATE_PER_MINUTE);
      ProductNotNegative(rate, AtLeastOne(d.pages) as real);
      ProductNotNegative(rate * AtLeastOne(d.pages) as real, c.urgencyMultiplier);
    } else {
      var rate := RateOf(d.ratePerPage, FALLBACK_RATE_PER_PAGE);
      ProductNotNegative(rate, BilledPages(d));
      ProductNotNegative(rate * BilledPages(d), d.typeMultiplier);
      ProductNotNegative(rate * BilledPages(d) * d.typeMultiplier, c.urgencyMultiplier);
    }
  }

  /** The price is the sum of the parts shown, and within half a tetri of the exact price. */
  lemma PriceIsClose(d: Document, c: Config)
    requires NotNegative(d, c)
    ensures var b := PriceDocument(d, c);
            && b.price == b.translation + b.notary && b.price >= 0
            && -0.005 <= Lari(b.price) - UnroundedPrice(d, c) <= 0.005
  {
    CostNotNegative(d, c);
    RoundingIsClose(TranslationCost(d, c));
    RoundingKeepsOrder(0.0, TranslationCost(d, c));
    RoundingAgain(0);
    NotaryFeesAreWhole(AtLeastOne(d.pages), d.copy);
    if IsNotarized(d) { assert NotaryTetri(AtLeastOne(d.pages)) >= 0; }
    assert Money(0.0) == 0;
    hide NotaryFee, CertificationFee, TranslationCost, Money;
    WholePrice(d, c);
  }

  lemma WholePrice(d: Document, c: Config)
    ensures Lari(PriceDocument(d, c).notary) == if IsNotarized(d) then NotaryFee(AtLeastOne(d.pages), d.copy) else 0.0
    ensures PriceDocument(d, c).notary >= 0
    ensures PriceDocument(d, c).translation == Money(TranslationCost(d, c))
  {
    NotaryFeesAreWhole(AtLeastOne(d.pages), d.copy);
    RoundingAgain(NotaryTetri(AtLeastOne(d.pages)) + 500 + if d.copy.NotaryCertified? then CertificationTetri(AtLeastOne(d.pages)) else 0);
    RoundingAgain(0);
  }

  lemma ShareIsLess(x: real, share: real)
    requires x >= 0.0 && 0.0 <= share <= 1.0
    ensures 0.0 <= Share(x, share) <= x
  {
  }

  /** A share of an amount, rounded, is no more than the amount, rounded. */
  lemma ShareRounds(x: real, share: real)
    requires x >= 0.0 && 0.0 <= share <= 1.0
    ensures 0 <= Money(Share(x, share)) <= Money(x)
  {
    ShareIsLess(x, share);
    var part := Share(x, share);
    RoundingKeepsOrder(part, x);
    RoundingKeepsOrder(0.0, part);
  }

  lemma PartsOf(d: Document, c: Config)
    ensures var b, cost := PriceDocument(d, c), TranslationCost(d, c);
            && b.translation == Money(cost) && b.price == b.translation + b.notary
            && b.translator == Money(Share(if d.service.Oral? then Lari(Money(cost)) else cost, c.translatorShare))
  {
    hide TranslationCost, Money, Lari, NotaryFee, CertificationFee, Share;
  }

  lemma ProfitOf(b: Breakdown)
    requires b.price == b.translation + b.notary
    ensures Profit(b) == b.translation - b.translator
  {
    RoundingAgain(b.translation - b.translator);
  }

  /** A line earns what the client pays for the translation less the translator's part: never a
      loss, as long as the share is no more than the whole. */
  lemma LineProfit(d: Document, c: Config)
    requires NotNegative(d, c)
    ensures var b := PriceDocument(d, c);
            && Profit(b) == b.translation - b.translator
            && (0.0 <= c.translatorShare <= 1.0 ==> 0 <= b.translator <= b.translation)
  {
    hide *;
    var cost := TranslationCost(d, c);
    PartsOf(d, c);
    ProfitOf(PriceDocument(d, c));
    CostNotNegative(d, c);
    RoundedNotNegative(cost);
    if 0.0 <= c.translatorShare <= 1.0 {
      ShareRounds(if d.service.Oral? then Lari(Money(cost)) else cost, c.translatorShare);
    }
  }

  lemma RoundedNotNegative(x: real)
    requires x >= 0.0
    ensures Lari(Money(x)) >= 0.0 && Money(Lari(Money(x))) == Money(x)
  {
    RoundingAgain(Money(x));
  }

  // ---- An order ----

  function Breakdowns(docs: seq<Document>, c: Config): seq<Breakdown> {
    seq(|docs|, i requires 0 <= i < |docs| => PriceDocument(docs[i], c))
  }

  function SumOf(bs: seq<Breakdown>, part: Breakdown -> int): int {
    if bs == [] then 0 else SumOf(bs[..|bs| - 1], part) + part(bs[|bs| - 1])
  }

  function PricePart(b: Breakdown): int { b.price }

  function TranslatorPart(b: Breakdown): int { b.translator }

  function NotaryPart(b: Breakdown): int { b.notary }

  /** `quote_order` */
  function QuoteOrder(docs: seq<Document>, delivered: bool, c: Config): Quote {
    var bs := Breakdowns(docs, c);
    var documents, fee := SumOf(bs, PricePart), if delivered then c.deliveryFee else 0.0;
    Quote(bs, Money(Lari(documents)), Money(fee), Money(Lari(documents) + fee),
          Money(Lari(SumOf(bs, TranslatorPart))), Money(Lari(SumOf(bs, NotaryPart))))
  }

  function GrossProfit(q: Quote): int {
    Money(Lari(q.total) - Lari(q.translator) - Lari(q.notary))
  }

  predicate AllNotNegative(docs: seq<Document>, c: Config) {
    c.deliveryFee >= 0.0 && forall i | 0 <= i < |docs| :: NotNegative(docs[i], c)
  }

  function UnroundedSum(docs: seq<Document>, c: Config): real {
    if docs == [] then 0.0 else UnroundedSum(docs[..|docs| - 1], c) + UnroundedPrice(docs[|docs| - 1], c)
  }

  lemma ProfitIs(b: Breakdown)
    ensures Profit(b) == b.price - b.translator - b.notary
  {
    RoundingAgain(b.price - b.translator - b.notary);
  }

  lemma {:induction false} SumsAreClose(docs: seq<Document>, c: Config)
    requires AllNotNegative(docs, c)
    ensures var sum := SumOf(Breakdowns(docs, c), PricePart);
            && sum >= 0
            && -0.005 * |docs| as real <= Lari(sum) - UnroundedSum(docs, c) <= 0.005 * |docs| as real
    ensures SumOf(Breakdowns(docs, c), Profit)
            == SumOf(Breakdowns(docs, c), PricePart) - SumOf(Breakdowns(docs, c), TranslatorPart) - SumOf(Breakdowns(docs, c), NotaryPart)
  {
    hide PriceDocument, UnroundedPrice, NotNegative, Profit;
    if docs != [] {
      var rest, last := docs[..|docs| - 1], docs[|docs| - 1];
      SumsAreClose(rest, c);
      assert Breakdowns(docs, c)[..|docs| - 1] == Breakdowns(rest, c);
      assert NotNegative(last, c);
      PriceIsClose(last, c);
      ProfitIs(PriceDocument(last, c));
    }
  }

  /** The order's total is the lines and the delivery as shown; the gross profit is the lines'
      profits and the delivery; and the total is within half a tetri a line, and half for the
      delivery, of the exact total. */
  lemma {:induction false} QuoteAddsUp(docs: seq<Document>, delivered: bool, c: Config)
    requires AllNotNegative(docs, c)
    ensures var q := QuoteOrder(docs, delivered, c);
            && q.documentsTotal == SumOf(q.documents, PricePart)
            && q.total == q.documentsTotal + q.delivery
            && GrossProfit(q) == SumOf(q.documents, Profit) + q.delivery
            && var exact := UnroundedSum(docs, c) + if delivered then c.deliveryFee else 0.0;
               -0.005 * (|docs| + 1) as real <= Lari(q.total) - exact <= 0.005 * (|docs| + 1) as real
  {
    var bs, fee := Breakdowns(docs, c), if delivered then c.deliveryFee else 0.0;
    var q := QuoteOrder(docs, delivered, c);
    SumsAreClose(docs, c);
    RoundingAgain(SumOf(bs, PricePart));
    RoundingAgain(SumOf(bs, TranslatorPart));
    RoundingAgain(SumOf(bs, NotaryPart));
    RoundingShifts(SumOf(bs, PricePart), fee);
    RoundingIsClose(fee);
    RoundingAgain(q.total - q.translator - q.notary);
    hide Money, SumOf, UnroundedSum;
  }
}
