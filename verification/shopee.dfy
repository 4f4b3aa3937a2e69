/** The Shopee listing parser: what one product card of a saved shop-listing page turns
    into (name, price, units sold, each with its fallbacks), and the records of a whole
    page. The HTML parser's output for a card is given as an `ItemView`. */
module Shopee {
  import opened Wrappers
  import opened Text
  import opened Regex

  /** What the HTML parser yields for one `shop-search-result-view__item` card. */
  datatype ItemView = ItemView(
    textNodes: seq<string>,     // the card's text nodes, in document order
    clampText: Option<string>,  // stripped text of the first `line-clamp-2` div, if any
    priceText: Option<string>,  // stripped text of the first price span, if any
    soldText: Option<string>,   // text of the first sold-count div, if any
    fullText: string)           // the text of the whole card

  datatype Record = Record(name: string, price: string, unitsSold: string)

  /** Written in place of a price or a sold count that could not be found. */
  const NotAvailable := "N/A"

  /** `LEGO.*\d{5}` under `re.IGNORECASE`. The `.*` can swallow digits, so this pattern
      is matched with the backtracking reference `Search`. */
  const NamePattern: Pattern :=
    [Lit("LEGO", true), Star(NotNewline), One(Digit), One(Digit), One(Digit), One(Digit), One(Digit)]

  /** `RM\s*([0-9,.]+)`, case-sensitive; the group is atom 2. */
  const RmPattern: Pattern := [Lit("RM", false), Star(Space), Plus(AmountChar)]

  /** `([0-9kK.+,]+)\s*sold`; the group is atom 0. */
  const SoldPattern: Pattern := [Plus(SoldChar), Star(Space), Lit("sold", false)]

  // ---------------------------------------------------------------------------
  // Product name

  predicate NamesProduct(s: string) {
    Search(NamePattern, s, 0).Some?
  }

  /** "LEGO" in any case at `i`, then characters other than a line feed up to `j`, then
      five digits. */
  predicate NameAt(s: string, i: nat, j: nat) {
    && i + 4 <= j && j + 5 <= |s|
    && LitAt(s, i, "LEGO", true)
    && (forall x :: i + 4 <= x < j ==> s[x] != '\n')
    && (forall x :: j <= x < j + 5 ==> IsDigit(s[x]))
  }

  /** The index of the first text node the name pattern finds something in. */
  function FirstNamed(nodes: seq<string>, from: nat): (r: Option<nat>)
    requires from <= |nodes|
    ensures r.Some? ==> from <= r.value < |nodes| && NamesProduct(nodes[r.value])
    ensures r.Some? ==> forall j :: from <= j < r.value ==> !NamesProduct(nodes[j])
    ensures r.None? ==> forall j :: from <= j < |nodes| ==> !NamesProduct(nodes[j])
    decreases |nodes| - from
  {
    if from == |nodes| then None
    else if NamesProduct(nodes[from]) then Some(from)
    else FirstNamed(nodes, from + 1)
  }

  /** The name: the first matching text node, stripped; failing that, the clamp div's
      text. A matching node never strips to nothing, so the fallback is taken exactly when
      no node matches. */
  function ResolveName(v: ItemView): (r: Option<string>)
    ensures FirstNamed(v.textNodes, 0).Some? ==>
      r == Some(Strip(v.textNodes[FirstNamed(v.textNodes, 0).value])) && r.value != ""
    ensures FirstNamed(v.textNodes, 0).None? ==> r == v.clampText
  {
    var first := FirstNamed(v.textNodes, 0);
    var primary := if first.Some? then Some(Strip(v.textNodes[first.value])) else None;
    assert first.Some? ==> Truthy(primary) by {
      if first.Some? { NamedNodeNotBlank(v.textNodes[first.value]); }
    }
    if Truthy(primary) then primary
    else if v.clampText.Some? then v.clampText
    else primary
  }

  // ---------------------------------------------------------------------------
  // Price

  /** The amount after the first "RM" in the text, commas removed. */
  function RmAmount(text: string): Option<string> {
    match Scan(RmPattern, text, 0)
    case Some(m) => Some(RemoveCommas(Group(text, m.start, m.ends, 2)))
    case None => None
  }

  /** The price: the price span's text without commas; if that is missing or empty, the
      amount after "RM" anywhere in the card. */
  function ResolvePrice(v: ItemView): (r: Option<string>)
    ensures r.Some? ==> ',' !in r.value
  {
    var fromSpan :=
      match v.priceText
      case Some(s) => Some(RemoveCommas(s))
      case None => None;
    if Truthy(fromSpan) then fromSpan
    else match RmAmount(v.fullText)
      case Some(a) => Some(a)
      case None => fromSpan
  }

  // ---------------------------------------------------------------------------
  // Units sold

  /** The token before "sold" in the text, as the leftmost match's group 1, stripped. */
  function SoldToken(text: string): Option<string> {
    match Scan(SoldPattern, text, 0)
    case Some(m) => Some(Strip(Group(text, m.start, m.ends, 0)))
    case None => None
  }

  /** Units sold: from the sold-count div if it has a match, else from the whole card. */
  function ResolveSold(v: ItemView): Option<string> {
    var fromDiv :=
      match v.soldText
      case Some(s) => SoldToken(s)
      case None => None;
    if Truthy(fromDiv) then fromDiv
    else match SoldToken(v.fullText)
      case Some(u) => Some(u)
      case None => fromDiv
  }

  // ---------------------------------------------------------------------------
  // Records

  /** The record of one card: there is one exactly when a non-empty name was found; a
      missing price or sold count becomes "N/A" and never drops the card. */
  function ItemRecord(v: ItemView): (r: Option<Record>)
    ensures r.Some? <==> Truthy(ResolveName(v))
    ensures r.Some? ==> r.value.name != "" && Some(r.value.name) == ResolveName(v)
    ensures r.Some? ==> ',' !in r.value.price
    ensures r.Some? && !Truthy(ResolvePrice(v)) ==> r.value.price == NotAvailable
    ensures r.Some? && Truthy(ResolvePrice(v)) ==> r.value.price == ResolvePrice(v).value
    ensures r.Some? && Truthy(ResolveSold(v)) ==> r.value.unitsSold == ResolveSold(v).value
    ensures r.Some? && !Truthy(ResolveSold(v)) ==> r.value.unitsSold == NotAvailable
  {
    var name := ResolveName(v);
    var price := ResolvePrice(v);
    var sold := ResolveSold(v);
    if Truthy(name) then
      Some(Record(name.value,
                  if Truthy(price) then price.value else NotAvailable,
                  if Truthy(sold) then sold.value else NotAvailable))
    else None
  }

  /** `parse_shopee_html`: the records of the cards, in page order. */
  function ParseListing(items: seq<ItemView>): seq<Record> {
    FilterMap(ItemRecord, items)
  }

  // ---------------------------------------------------------------------------
  // Lemmas

  /** A text node the name pattern finds something in does not strip to nothing. */
  lemma NamedNodeNotBlank(s: string)
    requires NamesProduct(s)
    ensures Strip(s) != ""
  {
    var m := Search(NamePattern, s, 0).value;
    StripSpec(s);
    SearchSound(NamePattern, s, 0);
    assert LitAt(s, m.start, "LEGO", true);
    assert Lower(s[m.start]) == 'l';
    assert !IsSpace(s[m.start]);
  }

  /** The name pattern finds something exactly when some "LEGO" (in any case) is followed
      on the same line by five digits. */
  lemma NamesProductIff(s: string)
    ensures NamesProduct(s) <==> exists i: nat, j: nat :: NameAt(s, i, j)
  {
    if NamesProduct(s) {
      var m := Search(NamePattern, s, 0).value;
      SearchSound(NamePattern, s, 0);
      NameMatchShape(s, m.start, m.ends);
    }
    if exists i: nat, j: nat :: NameAt(s, i, j) {
      var i: nat, j: nat :| NameAt(s, i, j);
      var e: seq<nat> := [i + 4, j, j + 1, j + 2, j + 3, j + 4, j + 5];
      NameAtConforms(s, i, j, e);
      SearchReaches(NamePattern, s, i, e);
    }
  }

  lemma NameMatchShape(s: string, i: nat, ends: seq<nat>)
    requires Conforms(NamePattern, s, i, ends)
    ensures NameAt(s, i, ends[1])
  {
    var p := NamePattern;
    ConformsIsChain(p, s, i, ends);
    assert AtomSpan(p[0], s, i, ends[0]);
    assert AtomSpan(p[1], s, ends[0], ends[1]);
    assert AtomSpan(p[2], s, ends[1], ends[2]);
    assert AtomSpan(p[3], s, ends[2], ends[3]);
    assert AtomSpan(p[4], s, ends[3], ends[4]);
    assert AtomSpan(p[5], s, ends[4], ends[5]);
    assert AtomSpan(p[6], s, ends[5], ends[6]);
  }

  lemma NameAtConforms(s: string, i: nat, j: nat, e: seq<nat>)
    requires NameAt(s, i, j) && e == [i + 4, j, j + 1, j + 2, j + 3, j + 4, j + 5]
    ensures Conforms(NamePattern, s, i, e)
  {
    var p := NamePattern;
    assert AtomSpan(p[0], s, i, e[0]);
    assert AtomSpan(p[1], s, e[0], e[1]);
    assert AtomSpan(p[2], s, e[1], e[2]);
    assert AtomSpan(p[3], s, e[2], e[3]);
    assert AtomSpan(p[4], s, e[3], e[4]);
    assert AtomSpan(p[5], s, e[4], e[5]);
    assert AtomSpan(p[6], s, e[5], e[6]);
    assert Chain(p, s, i, e) by {
      forall k | 0 <= k < |p|
        ensures Begin(i, e, k) <= e[k] <= |s| && AtomSpan(p[k], s, Begin(i, e, k), e[k])
      {
        assert k == 0 || k == 1 || k == 2 || k == 3 || k == 4 || k == 5 || k == 6;
      }
    }
    ConformsIsChain(p, s, i, e);
  }

  lemma RmPatternDet()
    ensures Det(RmPattern)
  {
    var p := RmPattern;
    assert Excl(p[2..], Space);
    assert Det(p[2..]) && Det(p[1..]);
  }

  lemma SoldPatternDet()
    ensures Det(SoldPattern)
  {
    var p := SoldPattern;
    assert Excl(p[2..], Space);
    assert Excl(p[1..], SoldChar);
    assert Det(p[2..]) && Det(p[1..]);
  }

  /** The scanner finds the amount `re.search(r'RM\s*([0-9,.]+)', ...)` finds. */
  lemma RmAmountIsSearch(text: string)
    ensures RmAmount(text) ==
      match Search(RmPattern, text, 0)
      case Some(m) => Some(RemoveCommas(Group(text, m.start, m.ends, 2)))
      case None => None
  {
    RmPatternDet();
    ScanIsSearch(RmPattern, text, 0);
  }

  /** The scanner finds the token `re.search(r'([0-9kK.+,]+)\s*sold', ...)` finds. */
  lemma SoldTokenIsSearch(text: string)
    ensures SoldToken(text) ==
      match Search(SoldPattern, text, 0)
      case Some(m) => Some(Strip(Group(text, m.start, m.ends, 0)))
      case None => None
  {
    SoldPatternDet();
    ScanIsSearch(SoldPattern, text, 0);
  }
}
