/**
 * The records the adapter reads from the helper contract and the records of
 * the prediction-market SDK it produces, and the conversion
 * `convertToPredictionMarketEvent` between them.
 */
module Market {
  import opened Text

  /**
   * One market as the helper contract reports it (`TrueMarketDetail`).
   * Addresses are strings; `bigint` fields are unbounded integers.
   */
  datatype MarketDetail = MarketDetail(
    id: string,
    question: string,
    source: string,
    additionalInfo: string,
    status: int,
    createdAt: int,
    endOfTrading: int,
    winningPosition: int,
    yesToken: string,
    noToken: string,
    bondSettled: bool,
    yesPool: string,
    noPool: string,
    yesPrice: int,
    noPrice: int)

  /** One outcome token of a market, as the SDK lists it. */
  datatype PositionToken = PositionToken(tokenId: string, name: string, price: string)

  /** The fields of the SDK's `PredictionMarket` that the conversion sets. */
  datatype PredictionMarket = PredictionMarket(
    id: Numeric,
    question: string,
    image: string,
    icon: string,
    slug: string,
    name: string,
    description: string,
    end: string,
    spread: int,
    funded: bool,
    active: bool,
    positionTokens: seq<PositionToken>)

  /** The fields of the SDK's `PredictionMarketEvent` that the conversion sets. */
  datatype PredictionMarketEvent = PredictionMarketEvent(
    id: string,
    protocol: string,
    region: string,
    slug: string,
    title: string,
    description: string,
    creationDate: string,
    endDate: string,
    active: bool,
    image: string,
    icon: string,
    markets: seq<PredictionMarket>)

  const ZeroAddress: string := "0x0000000000000000000000000000000000000000"
  const ImagePrefix: string := "https://res.truemarkets.org/image/market/"
  const ImageSuffix: string := ".png"

  /** `0x` followed by exactly 40 hex digits (of either case). */
  predicate WellFormedAddress(a: string) {
    |a| == 42 && a[0] == '0' && a[1] == 'x' && AllHex(a[2..])
  }

  /** `Number(status) === 1`: the market is live exactly when its status code is 1. */
  predicate IsActive(status: int): (b: bool)
    ensures b <==> status == 1
  {
    status == 1
  }

  /** A market is funded when neither pool is the zero address (compared as written). */
  predicate IsFunded(yesPool: string, noPool: string): (b: bool)
    ensures yesPool == ZeroAddress || noPool == ZeroAddress ==> !b
    ensures b <==> yesPool != ZeroAddress && noPool != ZeroAddress
  {
    yesPool != ZeroAddress && noPool != ZeroAddress
  }

  /** `getImgLink`: the image URL of a market address. */
  function ImageLink(addr: string): (url: string)
    ensures |url| == |ImagePrefix| + |addr| + |ImageSuffix|
    ensures url[..|ImagePrefix|] == ImagePrefix
    ensures url[|ImagePrefix|..|ImagePrefix| + |addr|] == ToLower(addr)
    ensures url[|ImagePrefix| + |addr|..] == ImageSuffix
  {
    ImagePrefix + ToLower(addr) + ImageSuffix
  }

  /** `price ? price.toString() : '0'`: a zero price is written as "0". */
  function PriceString(price: int): (s: string)
    ensures ParseInt(s) == Some(price)
  {
    IntRoundTrip(price);
    if price != 0 then IntToString(price) else "0"
  }

  /** `parseInt(addr.slice(2, 10), 16)`: the numeric market id. */
  function MarketNumber(addr: string): (n: Numeric)
    ensures WellFormedAddress(addr) ==> n == Num(HexValue(addr[2..10]))
    ensures WellFormedAddress(addr) ==> n.value < 0x1_0000_0000
  {
    if WellFormedAddress(addr) then
      assert AllHex(addr[2..10]) by { assert addr[2..10] == addr[2..][..8]; }
      ParseHexAllDigits(addr[2..10]);
      HexValueBound(addr[2..10]);
      assert Pow16(8) == 0x1_0000_0000;
      ParseHex(Slice(addr, 2, 10))
    else
      ParseHex(Slice(addr, 2, 10))
  }

  /** The Yes token then the No token, each priced in decimal. */
  function PositionTokens(d: MarketDetail): (ts: seq<PositionToken>)
    ensures |ts| == 2
    ensures ts[0].tokenId == d.yesToken && ts[0].name == "Yes" && ts[0].price == IntToString(d.yesPrice)
    ensures ts[1].tokenId == d.noToken && ts[1].name == "No" && ts[1].price == IntToString(d.noPrice)
  {
    PriceStringIsDecimal(d.yesPrice);
    PriceStringIsDecimal(d.noPrice);
    [PositionToken(d.yesToken, "Yes", PriceString(d.yesPrice)),
     PositionToken(d.noToken, "No", PriceString(d.noPrice))]
  }

  /** `convertToPredictionMarketEvent`: one detail record becomes one event holding one market. */
  function Convert(d: MarketDetail): (e: PredictionMarketEvent)
    ensures |e.markets| == 1
    ensures e.id == d.id
  {
    var addr := d.id;
    var active := IsActive(d.status);
    var market := PredictionMarket(
      id := MarketNumber(addr),
      question := d.question,
      image := ImageLink(addr),
      icon := ImageLink(addr),
      slug := ToLower(addr),
      name := d.question,
      description := d.additionalInfo,
      end := IntToString(d.endOfTrading),
      spread := 0,
      funded := IsFunded(d.yesPool, d.noPool),
      active := active,
      positionTokens := PositionTokens(d));
    PredictionMarketEvent(
      id := addr,
      protocol := "truemarket",
      region := "global",
      slug := ToLower(addr),
      title := d.question,
      description := d.additionalInfo,
      creationDate := IntToString(d.createdAt),
      endDate := IntToString(d.endOfTrading),
      active := active,
      image := ImageLink(addr),
      icon := ImageLink(addr),
      markets := [market])
  }

  // ---------------------------------------------------------------------------
  // Properties of the conversion
  // ---------------------------------------------------------------------------

  /** The event and its market are active exactly when the status code is 1. */
  lemma ConvertActive(d: MarketDetail)
    ensures Convert(d).active <==> d.status == 1
    ensures Convert(d).markets[0].active == Convert(d).active
  {
  }

  /** Funded exactly when both pools differ from the zero address; a zero pool on either side means unfunded. */
  lemma ConvertFunded(d: MarketDetail)
    ensures Convert(d).markets[0].funded <==> (d.yesPool != ZeroAddress && d.noPool != ZeroAddress)
    ensures d.yesPool == ZeroAddress || d.noPool == ZeroAddress ==> !Convert(d).markets[0].funded
  {
  }

  /** Slug, image and icon of both records are all built from the lower-cased address. */
  lemma ConvertLinks(d: MarketDetail)
    ensures var e := Convert(d); var m := e.markets[0];
      && e.slug == m.slug == ToLower(d.id)
      && IsLowerCase(e.slug)
      && e.image == e.icon == m.image == m.icon == ImagePrefix + e.slug + ImageSuffix
  {
    ToLowerIdempotent(d.id);
  }

  /** The market id of a well-formed address is the value of its first eight hex digits, below 2^32, whatever their case. */
  lemma ConvertMarketId(d: MarketDetail)
    requires WellFormedAddress(d.id)
    ensures var m := Convert(d).markets[0];
      && m.id == Num(HexValue(d.id[2..10]))
      && m.id.value < 0x1_0000_0000
      && m.id == Num(HexValue(Convert(d).slug[2..10]))
  {
    var a := d.id;
    assert AllHex(a[2..10]) by { assert a[2..10] == a[2..][..8]; }
    HexValueIgnoresCase(a[2..10]);
    ToLowerSlice(a, 2, 10);
  }

  /** Exactly two position tokens, Yes then No, whose prices read back as the detail's prices. */
  lemma ConvertPositionTokens(d: MarketDetail)
    ensures var ts := Convert(d).markets[0].positionTokens;
      && |ts| == 2
      && ts[0].tokenId == d.yesToken && ts[0].name == "Yes"
      && ts[0].price == IntToString(d.yesPrice) && ParseInt(ts[0].price) == Some(d.yesPrice)
      && ts[1].tokenId == d.noToken && ts[1].name == "No"
      && ts[1].price == IntToString(d.noPrice) && ParseInt(ts[1].price) == Some(d.noPrice)
      && (d.yesPrice == 0 ==> ts[0].price == "0")
      && (d.noPrice == 0 ==> ts[1].price == "0")
  {
    IntRoundTrip(d.yesPrice);
    IntRoundTrip(d.noPrice);
  }

  /** The price guard changes nothing: every price is written as its plain decimal form. */
  lemma PriceStringIsDecimal(price: int)
    ensures PriceString(price) == IntToString(price)
  {
    assert NatToString(0) == "0";
  }

  /** The texts and dates carried over from the detail record. */
  lemma ConvertTexts(d: MarketDetail)
    ensures var e := Convert(d); var m := e.markets[0];
      && e.id == d.id
      && e.title == m.question == m.name == d.question
      && e.description == m.description == d.additionalInfo
      && e.endDate == m.end == IntToString(d.endOfTrading) && ParseInt(e.endDate) == Some(d.endOfTrading)
      && e.creationDate == IntToString(d.createdAt) && ParseInt(e.creationDate) == Some(d.createdAt)
      && e.protocol == "truemarket" && e.region == "global" && m.spread == 0
  {
    IntRoundTrip(d.endOfTrading);
    IntRoundTrip(d.createdAt);
  }

  /**
   * The numeric id is not unique: it reads only the first eight hex digits,
   * so any two well-formed addresses that share them and differ later get the same id.
   */
  lemma MarketNumberCollision(head: string, tail1: string, tail2: string)
    requires |head| == 8 && AllHex(head)
    requires |tail1| == 32 && AllHex(tail1) && |tail2| == 32 && AllHex(tail2)
    requires tail1 != tail2
    ensures var a1 := "0x" + head + tail1; var a2 := "0x" + head + tail2;
      && WellFormedAddress(a1) && WellFormedAddress(a2)
      && a1 != a2
      && MarketNumber(a1) == MarketNumber(a2)
  {
    var a1 := "0x" + head + tail1;
    var a2 := "0x" + head + tail2;
    assert a1[2..] == head + tail1 && a2[2..] == head + tail2;
    assert a1[2..10] == head == a2[2..10];
    assert a1[10..] == tail1 && a2[10..] == tail2;
  }

  /** `getAllActiveMarketDetails`: every detail of a page is converted, in order. */
  function ConvertAll(ds: seq<MarketDetail>): (es: seq<PredictionMarketEvent>)
    ensures |es| == |ds|
    ensures forall i :: 0 <= i < |ds| ==> es[i] == Convert(ds[i])
  {
    if ds == [] then [] else [Convert(ds[0])] + ConvertAll(ds[1..])
  }
}
