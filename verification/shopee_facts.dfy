/** What the Shopee card fields hold, stated without the pattern machinery: where the
    "RM" amount and the sold token come from, the order of the fallbacks, and how the
    records of a page relate to its cards. */
module ShopeeFacts {
  import opened Wrappers
  import opened Text
  import opened Regex
  import opened Shopee

  // ---------------------------------------------------------------------------
  // The amount after "RM"

  /** "RM" at `i`, whitespace up to `b`, then digits, commas and dots filling `b..e` and
      not going on after it. */
  predicate RmRun(t: string, i: nat, b: nat, e: nat) {
    && i + 2 <= b < e <= |t|
    && t[i..i + 2] == "RM" && AllSpace(t[i + 2..b])
    && (forall x :: b <= x < e ==> InClass(t[x], AmountChar))
    && (e == |t| || !InClass(t[e], AmountChar))
  }

  /** The fallback price is read from the leftmost place where "RM" (in capitals, so
      "rm" and "Rm" do not count), optional whitespace and a run of digits, commas and
      dots follow each other; it is that whole run with its commas removed. There is no
      fallback price when no such place exists. */
  lemma RmAmountSpec(t: string)
    ensures RmAmount(t).None? ==> forall i, ends :: 0 <= i <= |t| ==> !Conforms(RmPattern, t, i, ends)
    ensures RmAmount(t).Some? ==>
      exists i: nat, b: nat, e: nat :: RmRun(t, i, b, e) &&
        RmAmount(t).value == RemoveCommas(t[b..e]) &&
        forall j, ends :: 0 <= j < i ==> !Conforms(RmPattern, t, j, ends)
  {
    RmPatternDet();
    ScanIsSearch(RmPattern, t, 0);
    SearchLeftmost(RmPattern, t, 0);
    if Scan(RmPattern, t, 0).Some? {
      var m := Scan(RmPattern, t, 0).value;
      RmMatchShape(t, m.start, m.ends);
      ScanRunMaximal(RmPattern, t, 2);
      assert RmRun(t, m.start, m.ends[1], m.ends[2]);
    }
  }

  /** What a match of `RM\s*([0-9,.]+)` at `i` consists of. */
  lemma RmMatchShape(t: string, i: nat, ends: seq<nat>)
    requires Conforms(RmPattern, t, i, ends)
    ensures i + 2 <= ends[1] < ends[2] <= |t| && ends[0] == i + 2
    ensures t[i..i + 2] == "RM" && AllSpace(t[i + 2..ends[1]])
    ensures forall x :: ends[1] <= x < ends[2] ==> InClass(t[x], AmountChar)
    ensures Group(t, i, ends, 2) == t[ends[1]..ends[2]]
  {
    var p := RmPattern;
    ConformsIsChain(p, t, i, ends);
    assert AtomSpan(p[0], t, i, ends[0]);
    assert LitAt(t, i + 1, "RM"[1..], false);
    assert AtomSpan(p[1], t, ends[0], ends[1]);
    assert AtomSpan(p[2], t, ends[1], ends[2]);
    GroupIsSlice(t, i, ends, 2);
  }

  // ---------------------------------------------------------------------------
  // The token before "sold"

  /** A run of sold-count characters filling `i..e`, cut off on neither side, then
      whitespace up to `w` and "sold" in lower case. */
  predicate SoldRun(t: string, i: nat, e: nat, w: nat) {
    && i < e <= w && w + 4 <= |t|
    && (forall x :: i <= x < e ==> InClass(t[x], SoldChar))
    && (i == 0 || !InClass(t[i - 1], SoldChar))
    && (e == |t| || !InClass(t[e], SoldChar))
    && AllSpace(t[e..w]) && t[w..w + 4] == "sold"
  }

  /** The units sold read from a text come from the leftmost run of digits, `k`, `K`,
      `.`, `+` and `,` that is followed by optional whitespace and "sold" in lower case.
      The token is that whole run, character for character (commas kept). There is no
      token when no such run exists. */
  lemma SoldTokenSpec(t: string)
    ensures SoldToken(t).None? ==> forall i, ends :: 0 <= i <= |t| ==> !Conforms(SoldPattern, t, i, ends)
    ensures SoldToken(t).Some? ==>
      exists i: nat, e: nat, w: nat :: SoldRun(t, i, e, w) &&
        SoldToken(t).value == t[i..e] &&
        forall j, ends :: 0 <= j < i ==> !Conforms(SoldPattern, t, j, ends)
  {
    if Scan(SoldPattern, t, 0).Some? {
      var m := Scan(SoldPattern, t, 0).value;
      SoldScanRun(t);
      SoldScanLeftmost(t);
      SoldTokenValue(t);
      assert SoldRun(t, m.start, m.ends[0], m.ends[1]) && SoldToken(t).value == t[m.start..m.ends[0]];
    } else {
      SoldPatternDet();
      ScanIsSearch(SoldPattern, t, 0);
      SearchLeftmost(SoldPattern, t, 0);
    }
  }

  lemma SoldScanRun(t: string)
    requires Scan(SoldPattern, t, 0).Some?
    ensures var m := Scan(SoldPattern, t, 0).value; SoldRun(t, m.start, m.ends[0], m.ends[1])
  {
    var m := Scan(SoldPattern, t, 0).value;
    ScanSound(SoldPattern, t, 0);
    SoldMatchShape(t, m.start, m.ends);
    ScanRunMaximal(SoldPattern, t, 0);
    ScanStartsRun(SoldPattern, t);
  }

  lemma SoldScanLeftmost(t: string)
    requires Scan(SoldPattern, t, 0).Some?
    ensures var m := Scan(SoldPattern, t, 0).value;
      forall j, ends :: 0 <= j < m.start ==> !Conforms(SoldPattern, t, j, ends)
  {
    SoldPatternDet();
    ScanIsSearch(SoldPattern, t, 0);
    SearchLeftmost(SoldPattern, t, 0);
  }

  /** The token is the matched run itself: stripping it removes nothing. */
  lemma SoldTokenValue(t: string)
    requires Scan(SoldPattern, t, 0).Some?
    ensures var m := Scan(SoldPattern, t, 0).value;
      m.start < m.ends[0] <= |t| && SoldToken(t) == Some(t[m.start..m.ends[0]])
  {
    var m := Scan(SoldPattern, t, 0).value;
    ScanSound(SoldPattern, t, 0);
    SoldMatchShape(t, m.start, m.ends);
    StripNoSpace(t[m.start..m.ends[0]]);
  }

  /** What a match of `([0-9kK.+,]+)\s*sold` at `i` consists of. */
  lemma SoldMatchShape(t: string, i: nat, ends: seq<nat>)
    requires Conforms(SoldPattern, t, i, ends)
    ensures i < ends[0] <= ends[1] && ends[1] + 4 <= |t|
    ensures forall x :: i <= x < ends[0] ==> InClass(t[x], SoldChar)
    ensures AllSpace(t[ends[0]..ends[1]]) && t[ends[1]..ends[1] + 4] == "sold"
    ensures Group(t, i, ends, 0) == t[i..ends[0]]
    ensures var g := t[i..ends[0]]; forall x :: 0 <= x < |g| ==> !IsSpace(g[x])
  {
    var p := SoldPattern;
    ConformsIsChain(p, t, i, ends);
    assert AtomSpan(p[0], t, i, ends[0]);
    assert AtomSpan(p[1], t, ends[0], ends[1]);
    assert AtomSpan(p[2], t, ends[1], ends[2]);
    SoldWordAt(t, ends[1]);
    GroupIsSlice(t, i, ends, 0);
  }

  lemma SoldWordAt(t: string, w: nat)
    requires w <= |t| && LitAt(t, w, "sold", false)
    ensures w + 4 <= |t| && t[w..w + 4] == "sold"
  {
    assert LitAt(t, w + 1, "sold"[1..], false);
    assert LitAt(t, w + 2, "sold"[2..], false);
    assert LitAt(t, w + 3, "sold"[3..], false);
  }

  // ---------------------------------------------------------------------------
  // Fallback order

  predicate OnlyCommas(s: string) {
    forall k :: 0 <= k < |s| ==> s[k] == ','
  }

  /** The price span wins unless it is missing or holds nothing but commas; then the
      first "RM" amount of the card is used; with neither, the price is unusable. */
  lemma PricePrecedence(v: ItemView)
    ensures v.priceText.Some? && !OnlyCommas(v.priceText.value) ==>
      ResolvePrice(v) == Some(RemoveCommas(v.priceText.value))
    ensures (v.priceText.None? || OnlyCommas(v.priceText.value)) && RmAmount(v.fullText).Some? ==>
      ResolvePrice(v) == RmAmount(v.fullText)
    ensures (v.priceText.None? || OnlyCommas(v.priceText.value)) && RmAmount(v.fullText).None? ==>
      !Truthy(ResolvePrice(v))
  {
    if v.priceText.Some? {
      RemoveCommasEmpty(v.priceText.value);
    }
  }

  /** The sold-count div wins when a count can be read from it; otherwise the count is
      read from the whole card. */
  lemma SoldPrecedence(v: ItemView)
    ensures v.soldText.Some? && SoldToken(v.soldText.value).Some? ==>
      ResolveSold(v) == SoldToken(v.soldText.value)
    ensures (v.soldText.None? || SoldToken(v.soldText.value).None?) ==>
      ResolveSold(v) == SoldToken(v.fullText)
  {
    if v.soldText.Some? && SoldToken(v.soldText.value).Some? {
      SoldTokenNotEmpty(v.soldText.value);
    }
  }

  lemma SoldTokenNotEmpty(t: string)
    requires SoldToken(t).Some?
    ensures SoldToken(t).value != ""
  {
    SoldTokenSpec(t);
    var i: nat, e: nat, w: nat :| SoldRun(t, i, e, w) && SoldToken(t).value == t[i..e];
  }

  // ---------------------------------------------------------------------------
  // Records of a page

  /** The records of two runs of cards, one after the other, are the records of each run
      one after the other: the page order is kept. */
  lemma ParseListingAppend(a: seq<ItemView>, b: seq<ItemView>)
    ensures ParseListing(a + b) == ParseListing(a) + ParseListing(b)
  {
    FilterMapAppend(ItemRecord, a, b);
  }

  /** A record is on the list exactly when some card yields it. */
  lemma ParseListingMembers(items: seq<ItemView>, r: Record)
    ensures r in ParseListing(items) <==> exists i :: 0 <= i < |items| && ItemRecord(items[i]) == Some(r)
  {
    FilterMapMembers(ItemRecord, items, r);
  }

  /** A page yields no records exactly when no card has a usable name. */
  lemma ParseListingEmpty(items: seq<ItemView>)
    ensures ParseListing(items) == [] <==> forall i :: 0 <= i < |items| ==> !Truthy(ResolveName(items[i]))
  {
    FilterMapEmpty(ItemRecord, items);
  }
}
