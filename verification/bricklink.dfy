/** `scrape_bricklink_item`: choose the catalog locator from the URL's query, build the
    price-guide URL, and read the four price boxes of the price-guide page. The HTML parser
    and the HTTP client are not modelled: a fetched page is represented by what the
    selectors return (`Page`), and fetching is the parameter `fetch`. */
module Bricklink {
  import opened Wrappers
  import opened Text
  import opened Regex

  datatype Error =
    | LocatorNotFound(url: string)    // the ValueError raised when no catalog key is usable
    | FetchFailed(url: string)        // raise_for_status() or a transport error
    | AmountNotFloat(amount: string)  // the ValueError raised by float() on a price amount

  // ---------------------------------------------------------------------------
  // Locator

  /** The query as `urllib.parse.parse_qs` returns it: every key maps to its values. */
  type Query = map<string, seq<string>>

  /** `parse_qs` never produces a key without a value. */
  predicate WellFormedQuery(q: Query) {
    forall key :: key in q ==> |q[key]| > 0
  }

  /** Part, set, minifig, gear, catalog, instructions, original box, book. */
  const KindPriority: seq<string> := ["P", "S", "M", "G", "C", "I", "O", "B"]

  datatype Locator = Locator(kind: string, id: string)

  /** `KindPriority[j]` is the first kind, in priority order, that is a key of `q`. */
  predicate IsFirstKind(q: Query, j: nat) {
    j < |KindPriority| && KindPriority[j] in q &&
    forall j' :: 0 <= j' < j ==> KindPriority[j'] !in q
  }

  /** Lines 42-49: the first key of the priority list present in the query gives the kind,
      its first value the id; no such key, or an empty id, is an error. */
  method SelectLocator(url: string, q: Query) returns (r: Result<Locator, Error>)
    requires WellFormedQuery(q)
    ensures (forall j :: 0 <= j < |KindPriority| ==> KindPriority[j] !in q) ==>
      r == Failure(LocatorNotFound(url))
    ensures forall j: nat :: IsFirstKind(q, j) ==>
      r == (if q[KindPriority[j]][0] == "" then Failure(LocatorNotFound(url))
            else Success(Locator(KindPriority[j], q[KindPriority[j]][0])))
  {
    var kind: Option<string> := None;
    var id: Option<string> := None;
    var idx := 0;
    while idx < |KindPriority|
      invariant idx <= |KindPriority|
      invariant forall j :: 0 <= j < idx ==> KindPriority[j] !in q
      invariant kind == None && id == None
    {
      var key := KindPriority[idx];
      if key in q {
        kind := Some(key);
        id := Some(q[key][0]);
        break;
      }
      idx := idx + 1;
    }
    if kind.Some? {
      assert IsFirstKind(q, idx);
      assert forall j: nat :: IsFirstKind(q, j) ==> j == idx;
    }
    if !Truthy(kind) || !Truthy(id) {
      return Failure(LocatorNotFound(url));
    }
    return Success(Locator(kind.value, id.value));
  }

  // ---------------------------------------------------------------------------
  // Price-guide URL

  const PriceGuideBase := "https://www.bricklink.com/catalogPG.asp?"

  /** Line 71. */
  function PriceGuideUrl(loc: Locator): (u: string)
    ensures |u| > |PriceGuideBase| && u[..|PriceGuideBase|] == PriceGuideBase
  {
    PriceGuideBase + loc.kind + "=" + loc.id
  }

  /** Splits a `key=value` query at its first `=`, the way a reader of the price-guide URL
      recovers the locator. */
  function SplitAtEquals(s: string): (r: (string, string))
    ensures '=' !in r.0
    ensures '=' in s ==> s == r.0 + "=" + r.1
    ensures '=' !in s ==> r == (s, "")
    decreases |s|
  {
    if |s| == 0 then ("", "")
    else if s[0] == '=' then ("", s[1..])
    else
      var rest := SplitAtEquals(s[1..]);
      assert s == [s[0]] + s[1..];
      ([s[0]] + rest.0, rest.1)
  }

  // ---------------------------------------------------------------------------
  // One price box

  const TimesSoldLabel := "Times Sold:"
  const TotalLotsLabel := "Total Lots:"
  const TotalQtyLabel := "Total Qty:"
  const MinPriceLabel := "Min Price:"
  const AvgPriceLabel := "Avg Price:"
  const QtyAvgPriceLabel := "Qty Avg Price:"
  const MaxPriceLabel := "Max Price:"

  /** The price labels in the order the source reads them. */
  const PriceLabels: seq<string> := [MinPriceLabel, AvgPriceLabel, QtyAvgPriceLabel, MaxPriceLabel]

  const UnavailableMarker := "(unavailable)"

  /** `Label:\s*(\d+)` under re.IGNORECASE; group 1 is atom 2. */
  function CountPattern(heading: string): Pattern {
    [Lit(heading, true), Star(Space), Plus(Digit)]
  }

  /** `Label:\s*([A-Z]+)\s+([\d,\.]+)` under re.IGNORECASE; groups 1 and 2 are atoms 2 and 4. */
  function PricePattern(heading: string): Pattern {
    [Lit(heading, true), Star(Space), Plus(Letter), Plus(Space), Plus(AmountChar)]
  }

  lemma CountPatternDet(heading: string)
    ensures Det(CountPattern(heading))
  {
    var p := CountPattern(heading);
    assert Excl(p[2..], Space);
    assert Det(p[2..]) && Det(p[1..]);
  }

  lemma PricePatternDet(heading: string)
    ensures Det(PricePattern(heading))
  {
    var p := PricePattern(heading);
    assert Excl(p[4..], Space);
    assert Excl(p[3..], Letter);
    assert Excl(p[2..], Space);
    assert Det(p[4..]) && Det(p[3..]) && Det(p[2..]) && Det(p[1..]);
  }

  /** `int(m.group(1))` for a match of the count pattern. */
  function CountValue(heading: string, t: string, m: Match): nat
    requires Conforms(CountPattern(heading), t, m.start, m.ends)
  {
    GroupInClass(CountPattern(heading), t, m.start, m.ends, 2);
    DecimalValue(Group(t, m.start, m.ends, 2))
  }

  /** Lines 101-111: the count a `Label:\s*(\d+)` search finds, computed by the scanner. */
  function CountIn(text: string, heading: string): Option<nat> {
    match Scan(CountPattern(heading), text, 0)
    case Some(m) => ScanSound(CountPattern(heading), text, 0); Some(CountValue(heading, text, m))
    case None => None
  }

  /** The scanner finds the match `re.search` finds for the count pattern. */
  lemma CountInIsSearch(text: string, heading: string)
    ensures Scan(CountPattern(heading), text, 0) == Search(CountPattern(heading), text, 0)
    ensures CountIn(text, heading).Some? <==> Search(CountPattern(heading), text, 0).Some?
  {
    CountPatternDet(heading);
    ScanIsSearch(CountPattern(heading), text, 0);
  }

  datatype Money = Money(currency: string, amount: string)

  function CountChar(s: string, c: char): nat
    decreases |s|
  {
    if |s| == 0 then 0 else (if s[0] == c then 1 else 0) + CountChar(s[1..], c)
  }

  /** Whether `float(s)` succeeds, for the strings a comma-stripped amount group can be
      (digits and dots): it needs a digit and at most one dot. */
  predicate IsFloatLiteral(s: string) {
    && (forall k :: 0 <= k < |s| ==> IsDigit(s[k]) || s[k] == '.')
    && CountChar(s, '.') <= 1
    && exists k :: 0 <= k < |s| && IsDigit(s[k])
  }

  /** The price dictionary built from the currency letters and the amount run, or the
      error float() raises on the amount once its commas are removed. */
  function MoneyFrom(letters: string, run: string): Result<Money, Error> {
    var amount := RemoveCommas(run);
    if IsFloatLiteral(amount) then Success(Money(UpperString(letters), amount))
    else Failure(AmountNotFloat(amount))
  }

  /** The price dictionary built from a match of the price pattern: groups 1 and 2. */
  function MoneyOf(heading: string, t: string, m: Match): Result<Money, Error>
    requires Conforms(PricePattern(heading), t, m.start, m.ends)
  {
    MoneyFrom(Group(t, m.start, m.ends, 2), Group(t, m.start, m.ends, 4))
  }

  /** Lines 114-140 for one label: the price a `Label:\s*([A-Z]+)\s+([\d,\.]+)` search
      finds (absent when there is no match), or the error float() raises on its amount. */
  function PriceField(text: string, heading: string): Result<Option<Money>, Error> {
    match Scan(PricePattern(heading), text, 0)
    case None => Success(None)
    case Some(m) =>
      ScanSound(PricePattern(heading), text, 0);
      match MoneyOf(heading, text, m)
      case Success(money) => Success(Some(money))
      case Failure(e) => Failure(e)
  }

  /** The scanner finds the match `re.search` finds for the price pattern. */
  lemma PriceFieldIsSearch(text: string, heading: string)
    ensures Scan(PricePattern(heading), text, 0) == Search(PricePattern(heading), text, 0)
    ensures PriceField(text, heading) == Success(None) <==> Search(PricePattern(heading), text, 0).None?
  {
    PricePatternDet(heading);
    ScanIsSearch(PricePattern(heading), text, 0);
  }

  /** A price that is read has an upper-case currency code and an amount without commas
      that float() accepts. */
  lemma PriceFieldShape(text: string, heading: string)
    requires PriceField(text, heading).Success? && PriceField(text, heading).value.Some?
    ensures var money := PriceField(text, heading).value.value;
      && ',' !in money.amount && IsFloatLiteral(money.amount)
      && |money.currency| > 0
      && forall k :: 0 <= k < |money.currency| ==> 'A' <= money.currency[k] <= 'Z'
  {
    var m := Scan(PricePattern(heading), text, 0).value;
    ScanSound(PricePattern(heading), text, 0);
    GroupInClass(PricePattern(heading), text, m.start, m.ends, 2);
  }

  /** Line 95: `"(unavailable)" in text.lower()`. */
  predicate Unavailable(text: string) {
    Scan([Lit(UnavailableMarker, false)], LowerString(text), 0).Some?
  }

  datatype Bucket = Bucket(
    timesSold: Option<nat>,
    totalLots: Option<nat>,
    totalQty: Option<nat>,
    minPrice: Option<Money>,
    avgPrice: Option<Money>,
    qtyAvgPrice: Option<Money>,
    maxPrice: Option<Money>)

  predicate IsEmpty(b: Bucket) {
    && b.timesSold.None? && b.totalLots.None? && b.totalQty.None?
    && b.minPrice.None? && b.avgPrice.None? && b.qtyAvgPrice.None? && b.maxPrice.None?
  }

  /** The four price fields in the order the source reads them. */
  function PriceResults(text: string): seq<Result<Option<Money>, Error>> {
    [PriceField(text, MinPriceLabel), PriceField(text, AvgPriceLabel),
     PriceField(text, QtyAvgPriceLabel), PriceField(text, MaxPriceLabel)]
  }

  /** The seven fields of a box, given its four prices. */
  function Fields(text: string, prices: seq<Option<Money>>): Bucket
    requires |prices| == 4
  {
    Bucket(CountIn(text, TimesSoldLabel), CountIn(text, TotalLotsLabel), CountIn(text, TotalQtyLabel),
      prices[0], prices[1], prices[2], prices[3])
  }

  /** `extract_price_box` (lines 90-142) on the box's text. */
  function ExtractBox(text: string): (r: Result<Option<Bucket>, Error>)
    ensures Unavailable(text) ==> r == Success(None)
    ensures r.Success? && r.value.Some? ==> !Unavailable(text) && !IsEmpty(r.value.value)
  {
    if Unavailable(text) then Success(None)
    else
      var prices :- Collect(PriceResults(text));
      var b := Fields(text, prices);
      Success(if IsEmpty(b) then None else Some(b))
  }

  // ---------------------------------------------------------------------------
  // The four boxes and the whole item

  datatype Buckets = Buckets(
    sixMonthNew: Option<Bucket>,
    sixMonthUsed: Option<Bucket>,
    currentNew: Option<Bucket>,
    currentUsed: Option<Bucket>)

  /** The bucket in position `j` of the page's box order. */
  function Slot(bs: Buckets, j: nat): Option<Bucket>
    requires j < 4
  {
    if j == 0 then bs.sixMonthNew
    else if j == 1 then bs.sixMonthUsed
    else if j == 2 then bs.currentNew
    else bs.currentUsed
  }

  /** Lines 145-156, for any way `read` of reading one box: all four buckets stay empty
      unless at least four boxes were found; boxes 0..3 fill the buckets in order, further
      boxes are ignored, and the first box that cannot be read ends the assignment. */
  function AssignBuckets(boxes: seq<string>, read: string -> Result<Option<Bucket>, Error>): (r: Result<Buckets, Error>)
    ensures |boxes| < 4 ==> r == Success(Buckets(None, None, None, None))
    ensures |boxes| >= 4 ==> (r.Success? <==> forall j :: 0 <= j < 4 ==> read(boxes[j]).Success?)
    ensures |boxes| >= 4 && r.Success? ==> forall j :: 0 <= j < 4 ==> Slot(r.value, j) == read(boxes[j]).value
    ensures forall j ::
              (0 <= j < 4 <= |boxes| && read(boxes[j]).Failure? &&
               forall i :: 0 <= i < j ==> read(boxes[i]).Success?)
              ==> r == Failure(read(boxes[j]).error)
  {
    if |boxes| < 4 then Success(Buckets(None, None, None, None))
    else
      var rs := [read(boxes[0]), read(boxes[1]), read(boxes[2]), read(boxes[3])];
      assert forall j :: 0 <= j < 4 ==> rs[j] == read(boxes[j]);
      var bs :- Collect(rs);
      Success(Buckets(bs[0], bs[1], bs[2], bs[3]))
  }

  /** What the selectors of lines 64, 67 and 79 return on a fetched page: the raw texts of
      the title and weight elements, and the text of each price box. */
  datatype Page = Page(title: Option<string>, weight: Option<string>, priceBoxes: seq<string>)

  datatype ItemSummary = ItemSummary(locator: Locator, title: Option<string>, weight: Option<string>, buckets: Buckets)

  /** `elem.text.strip() if elem else None` */
  function StripOpt(o: Option<string>): Option<string> {
    match o
    case Some(s) => Some(Strip(s))
    case None => None
  }

  /** `scrape_bricklink_item`: locator, item page, price-guide page, buckets, in that order;
      the first failure ends the scrape, and when nothing fails the summary holds the
      locator, the item page's stripped title and weight, and the assigned buckets. */
  method ScrapeItem(url: string, q: Query, fetch: string -> Option<Page>) returns (r: Result<ItemSummary, Error>)
    requires WellFormedQuery(q)
    ensures (forall j :: 0 <= j < |KindPriority| ==> KindPriority[j] !in q) ==>
      r == Failure(LocatorNotFound(url))
    ensures forall j: nat :: IsFirstKind(q, j) && q[KindPriority[j]][0] == "" ==>
      r == Failure(LocatorNotFound(url))
    ensures forall j: nat :: IsFirstKind(q, j) && q[KindPriority[j]][0] != "" && fetch(url).None? ==>
      r == Failure(FetchFailed(url))
    ensures forall j: nat :: IsFirstKind(q, j) && q[KindPriority[j]][0] != "" && fetch(url).Some? ==>
      var guideUrl := PriceGuideUrl(Locator(KindPriority[j], q[KindPriority[j]][0]));
      fetch(guideUrl).None? ==> r == Failure(FetchFailed(guideUrl))
    ensures forall j: nat :: IsFirstKind(q, j) && q[KindPriority[j]][0] != "" && fetch(url).Some? ==>
      var loc := Locator(KindPriority[j], q[KindPriority[j]][0]);
      var guide := fetch(PriceGuideUrl(loc));
      guide.Some? && AssignBuckets(guide.value.priceBoxes, ExtractBox).Failure? ==>
        r == Failure(AssignBuckets(guide.value.priceBoxes, ExtractBox).error)
    ensures forall j: nat :: IsFirstKind(q, j) && q[KindPriority[j]][0] != "" && fetch(url).Some? ==>
      var loc := Locator(KindPriority[j], q[KindPriority[j]][0]);
      var guide := fetch(PriceGuideUrl(loc));
      guide.Some? && AssignBuckets(guide.value.priceBoxes, ExtractBox).Success? ==>
        r == Success(ItemSummary(loc, StripOpt(fetch(url).value.title), StripOpt(fetch(url).value.weight),
                                 AssignBuckets(guide.value.priceBoxes, ExtractBox).value))
    ensures r.Success? ==>
      exists j: nat :: IsFirstKind(q, j) && r.value.locator == Locator(KindPriority[j], q[KindPriority[j]][0])
    ensures r.Success? ==>
      && fetch(url).Some?
      && r.value.title == StripOpt(fetch(url).value.title)
      && r.value.weight == StripOpt(fetch(url).value.weight)
    ensures r.Success? ==>
      var guide := fetch(PriceGuideUrl(r.value.locator));
      guide.Some? && AssignBuckets(guide.value.priceBoxes, ExtractBox) == Success(r.value.buckets)
  {
    var loc :- SelectLocator(url, q);
    ghost var j: nat :| IsFirstKind(q, j) && loc == Locator(KindPriority[j], q[KindPriority[j]][0]);
    var page := fetch(url);
    if page.None? {
      return Failure(FetchFailed(url));
    }
    var title := StripOpt(page.value.title);
    var weight := StripOpt(page.value.weight);
    var guideUrl := PriceGuideUrl(loc);
    var guide := fetch(guideUrl);
    if guide.None? {
      return Failure(FetchFailed(guideUrl));
    }
    var buckets :- AssignBuckets(guide.value.priceBoxes, ExtractBox);
    return Success(ItemSummary(loc, title, weight, buckets));
  }
}
