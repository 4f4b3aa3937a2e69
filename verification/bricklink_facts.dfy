/** Properties of the Bricklink extraction that relate several calls or hold for all inputs. */
module BricklinkFacts {
  import opened Wrappers
  import opened Text
  import opened Regex
  import opened Bricklink

  /** The locator can be read back from the price-guide URL: the query after the fixed base
      splits at its first `=` into the kind and the id. */
  lemma PriceGuideUrlRoundTrip(loc: Locator)
    requires '=' !in loc.kind
    ensures SplitAtEquals(PriceGuideUrl(loc)[|PriceGuideBase|..]) == (loc.kind, loc.id)
  {
    var q := PriceGuideUrl(loc)[|PriceGuideBase|..];
    assert q == loc.kind + "=" + loc.id;
    SplitAtFirstEquals(loc.kind, loc.id);
  }

  lemma {:induction false} SplitAtFirstEquals(a: string, b: string)
    requires '=' !in a
    ensures SplitAtEquals(a + "=" + b) == (a, b)
    decreases |a|
  {
    if |a| == 0 {
      assert a + "=" + b == ['='] + b;
    } else {
      assert (a + "=" + b)[1..] == a[1..] + "=" + b;
      SplitAtFirstEquals(a[1..], b);
      assert [a[0]] + a[1..] == a;
    }
  }

  /** Every kind the locator can take is safe to put before the `=` of the query. */
  lemma KindsHaveNoEquals()
    ensures forall j :: 0 <= j < |KindPriority| ==> '=' !in KindPriority[j]
  {
  }

  // ---------------------------------------------------------------------------
  // "(unavailable)" in any letter case

  lemma {:induction false} LowerLitAt(t: string, i: nat, s: string)
    requires i <= |t|
    requires forall k :: 0 <= k < |s| ==> Lower(s[k]) == s[k]
    ensures LitAt(LowerString(t), i, s, false) <==> LitAt(t, i, s, true)
    decreases |s|
  {
    if |s| > 0 && i < |t| {
      LowerLitAt(t, i + 1, s[1..]);
    }
  }

  lemma SingleLiteral(t: string, i: nat, s: string, fold: bool)
    requires i <= |t|
    ensures Greedy([Lit(s, fold)], t, i).Some? <==> LitAt(t, i, s, fold)
  {
    var p := [Lit(s, fold)];
    assert p[1..] == [];
  }

  lemma MarkerIsLowerCase()
    ensures forall k :: 0 <= k < |UnavailableMarker| ==> Lower(UnavailableMarker[k]) == UnavailableMarker[k]
  {
  }

  /** Line 95: a box is unavailable exactly when "(unavailable)" occurs in its text with
      any mix of letter cases. */
  lemma UnavailableAnyCase(text: string)
    ensures Unavailable(text) <==> exists i :: 0 <= i <= |text| && LitAt(text, i, UnavailableMarker, true)
  {
    var lt := LowerString(text);
    var p := [Lit(UnavailableMarker, false)];
    MarkerIsLowerCase();
    if Unavailable(text) {
      var m := Scan(p, lt, 0).value;
      assert Greedy(p, lt, m.start).Some?;
      SingleLiteral(lt, m.start, UnavailableMarker, false);
      LowerLitAt(text, m.start, UnavailableMarker);
      assert LitAt(text, m.start, UnavailableMarker, true);
    }
    if i :| 0 <= i <= |text| && LitAt(text, i, UnavailableMarker, true) {
      LowerLitAt(text, i, UnavailableMarker);
      SingleLiteral(lt, i, UnavailableMarker, false);
      assert Greedy(p, lt, i).Some?;
    }
  }

  // ---------------------------------------------------------------------------
  // Counts and prices, without the pattern machinery

  /** No match of `p` in `t` starts before `i`. */
  ghost predicate NoMatchBefore(p: Pattern, t: string, i: nat) {
    forall j, ends :: 0 <= j < i ==> !Conforms(p, t, j, ends)
  }

  /** The label (in any letter case) at `i`, whitespace up to `b`, then digits filling
      `b..e` and not going on after it. */
  predicate CountRun(t: string, heading: string, i: nat, b: nat, e: nat) {
    && i + |heading| <= b < e <= |t|
    && LitAt(t, i, heading, true) && AllSpace(t[i + |heading|..b])
    && (forall x :: b <= x < e ==> IsDigit(t[x]))
    && (e == |t| || !IsDigit(t[e]))
  }

  /** Lines 101-111: a count is read from the leftmost place where the label, optional
      whitespace and digits follow each other; it is the decimal value of that whole digit
      run. No count is read when there is no such place. */
  lemma CountInSpec(t: string, heading: string)
    ensures CountIn(t, heading).None? ==>
      forall i, ends :: 0 <= i <= |t| ==> !Conforms(CountPattern(heading), t, i, ends)
    ensures CountIn(t, heading).Some? ==>
      exists i: nat, b: nat, e: nat :: CountRun(t, heading, i, b, e) &&
        CountIn(t, heading).value == DecimalValue(t[b..e]) &&
        NoMatchBefore(CountPattern(heading), t, i)
  {
    var p := CountPattern(heading);
    CountPatternDet(heading);
    ScanIsSearch(p, t, 0);
    SearchLeftmost(p, t, 0);
    if Scan(p, t, 0).Some? {
      var m := Scan(p, t, 0).value;
      CountMatchShape(t, heading, m.start, m.ends);
      ScanRunMaximal(p, t, 2);
      assert CountRun(t, heading, m.start, m.ends[1], m.ends[2]);
    }
  }

  /** What a match of `Label:\s*(\d+)` at `i` consists of. */
  lemma CountMatchShape(t: string, heading: string, i: nat, ends: seq<nat>)
    requires Conforms(CountPattern(heading), t, i, ends)
    ensures i + |heading| <= ends[1] < ends[2] <= |t| && ends[0] == i + |heading|
    ensures LitAt(t, i, heading, true) && AllSpace(t[i + |heading|..ends[1]])
    ensures forall x :: ends[1] <= x < ends[2] ==> IsDigit(t[x])
    ensures Group(t, i, ends, 2) == t[ends[1]..ends[2]]
  {
    var p := CountPattern(heading);
    ConformsIsChain(p, t, i, ends);
    assert AtomSpan(p[0], t, i, ends[0]);
    assert AtomSpan(p[1], t, ends[0], ends[1]);
    assert AtomSpan(p[2], t, ends[1], ends[2]);
    GroupIsSlice(t, i, ends, 2);
  }

  /** The label (in any letter case) at `i`, whitespace up to `a`, letters filling `a..b`,
      at least one whitespace character filling `b..c`, then digits, commas and dots
      filling `c..e` and not going on after it. */
  predicate PriceRun(t: string, heading: string, i: nat, a: nat, b: nat, c: nat, e: nat) {
    && i + |heading| <= a < b < c < e <= |t|
    && LitAt(t, i, heading, true) && AllSpace(t[i + |heading|..a])
    && (forall x :: a <= x < b ==> IsAsciiLetter(t[x]))
    && AllSpace(t[b..c])
    && (forall x :: c <= x < e ==> InClass(t[x], AmountChar))
    && (e == |t| || !InClass(t[e], AmountChar))
  }

  /** Lines 114-140: a price is read from the leftmost place where the label, optional
      whitespace, letters, whitespace and a run of digits, commas and dots follow each
      other. Its currency is the letters in upper case and its amount is the whole run
      with commas removed, unless float() rejects that amount, which aborts the box. No
      price is read when there is no such place. */
  lemma PriceFieldSpec(t: string, heading: string)
    ensures PriceField(t, heading) == Success(None) ==>
      forall i, ends :: 0 <= i <= |t| ==> !Conforms(PricePattern(heading), t, i, ends)
    ensures PriceField(t, heading) != Success(None) ==>
      exists i: nat, a: nat, b: nat, c: nat, e: nat :: PriceRun(t, heading, i, a, b, c, e) &&
        NoMatchBefore(PricePattern(heading), t, i) &&
        PriceField(t, heading) == PriceAt(t, a, b, c, e)
  {
    var p := PricePattern(heading);
    if Scan(p, t, 0).Some? {
      var m := Scan(p, t, 0).value;
      PriceScanRun(t, heading);
      PriceScanLeftmost(t, heading);
      assert PriceRun(t, heading, m.start, m.ends[1], m.ends[2], m.ends[3], m.ends[4]);
    } else {
      PricePatternDet(heading);
      ScanIsSearch(p, t, 0);
      SearchLeftmost(p, t, 0);
    }
  }

  /** The price read from letters at `a..b` and an amount run at `c..e`. */
  function PriceAt(t: string, a: nat, b: nat, c: nat, e: nat): Result<Option<Money>, Error>
    requires a <= b <= c <= e <= |t|
  {
    match MoneyFrom(t[a..b], t[c..e])
    case Success(money) => Success(Some(money))
    case Failure(err) => Failure(err)
  }

  lemma PriceScanRun(t: string, heading: string)
    requires Scan(PricePattern(heading), t, 0).Some?
    ensures var m := Scan(PricePattern(heading), t, 0).value;
      && PriceRun(t, heading, m.start, m.ends[1], m.ends[2], m.ends[3], m.ends[4])
      && PriceField(t, heading) == PriceAt(t, m.ends[1], m.ends[2], m.ends[3], m.ends[4])
  {
    var m := Scan(PricePattern(heading), t, 0).value;
    ScanSound(PricePattern(heading), t, 0);
    PriceMatchHead(t, heading, m.start, m.ends);
    PriceMatchTail(t, heading, m.start, m.ends);
    ScanRunMaximal(PricePattern(heading), t, 4);
  }

  lemma PriceScanLeftmost(t: string, heading: string)
    requires Scan(PricePattern(heading), t, 0).Some?
    ensures var m := Scan(PricePattern(heading), t, 0).value;
      NoMatchBefore(PricePattern(heading), t, m.start)
  {
    PricePatternDet(heading);
    ScanIsSearch(PricePattern(heading), t, 0);
    SearchLeftmost(PricePattern(heading), t, 0);
  }

  /** What a match of `Label:\s*([A-Z]+)` begins with. */
  lemma PriceMatchHead(t: string, heading: string, i: nat, ends: seq<nat>)
    requires Conforms(PricePattern(heading), t, i, ends)
    ensures i + |heading| <= ends[1] < ends[2] <= |t| && ends[0] == i + |heading|
    ensures LitAt(t, i, heading, true) && AllSpace(t[i + |heading|..ends[1]])
    ensures forall x :: ends[1] <= x < ends[2] ==> IsAsciiLetter(t[x])
    ensures Group(t, i, ends, 2) == t[ends[1]..ends[2]]
  {
    var p := PricePattern(heading);
    ConformsIsChain(p, t, i, ends);
    assert AtomSpan(p[0], t, i, ends[0]);
    assert AtomSpan(p[1], t, ends[0], ends[1]);
    assert AtomSpan(p[2], t, ends[1], ends[2]);
    GroupIsSlice(t, i, ends, 2);
  }

  /** What a match of `\s+([\d,\.]+)` ends with. */
  lemma PriceMatchTail(t: string, heading: string, i: nat, ends: seq<nat>)
    requires Conforms(PricePattern(heading), t, i, ends)
    ensures ends[2] < ends[3] < ends[4] <= |t|
    ensures AllSpace(t[ends[2]..ends[3]])
    ensures forall x :: ends[3] <= x < ends[4] ==> InClass(t[x], AmountChar)
    ensures Group(t, i, ends, 4) == t[ends[3]..ends[4]]
  {
    var p := PricePattern(heading);
    ConformsIsChain(p, t, i, ends);
    assert AtomSpan(p[3], t, ends[2], ends[3]);
    assert AtomSpan(p[4], t, ends[3], ends[4]);
    GroupIsSlice(t, i, ends, 4);
  }

  // ---------------------------------------------------------------------------
  // What one box yields

  /** A box that is not unavailable fails exactly when one of its four prices cannot be
      converted, and then with the error of the first such price in reading order. */
  lemma ExtractBoxFailure(text: string)
    ensures ExtractBox(text).Failure? <==>
      !Unavailable(text) && exists j :: 0 <= j < 4 && PriceResults(text)[j].Failure?
    ensures forall j ::
      (&& 0 <= j < 4 && !Unavailable(text) && PriceResults(text)[j].Failure?
       && forall i :: 0 <= i < j ==> PriceResults(text)[i].Success?)
      ==> ExtractBox(text) == Failure(PriceResults(text)[j].error)
  {
  }

  /** A box yields nothing exactly when it is unavailable or when none of the three counts
      and none of the four prices is found in it. */
  lemma ExtractBoxNone(text: string)
    ensures ExtractBox(text) == Success(None) <==>
      || Unavailable(text)
      || (&& CountIn(text, TimesSoldLabel).None? && CountIn(text, TotalLotsLabel).None?
          && CountIn(text, TotalQtyLabel).None?
          && forall j :: 0 <= j < 4 ==> PriceResults(text)[j] == Success(None))
  {
    if !Unavailable(text) {
      var rs := PriceResults(text);
      var c := Collect(rs);
      if c.Success? {
        var b := Fields(text, c.value);
        assert ExtractBox(text) == Success(if IsEmpty(b) then None else Some(b));
        assert forall j :: 0 <= j < 4 ==> rs[j] == Success(c.value[j]);
      } else {
        assert ExtractBox(text).Failure?;
        var j :| 0 <= j < 4 && rs[j].Failure?;
      }
    }
  }

  /** What a count field holds, stated without the scanner: absent exactly when the count
      pattern matches nowhere, otherwise the decimal value of the digit run at the leftmost
      place it matches. */
  ghost predicate CountReading(t: string, heading: string, v: Option<nat>) {
    && (v.None? ==> forall i, ends :: 0 <= i <= |t| ==> !Conforms(CountPattern(heading), t, i, ends))
    && (v.Some? ==>
          exists i: nat, b: nat, e: nat :: CountRun(t, heading, i, b, e) &&
            v.value == DecimalValue(t[b..e]) &&
            NoMatchBefore(CountPattern(heading), t, i))
  }

  /** What a price field holds, stated without the scanner: absent exactly when the price
      pattern matches nowhere, otherwise the currency and amount read from the leftmost
      place it matches. */
  ghost predicate PriceReading(t: string, heading: string, v: Option<Money>) {
    && (v.None? ==> forall i, ends :: 0 <= i <= |t| ==> !Conforms(PricePattern(heading), t, i, ends))
    && (v.Some? ==>
          exists i: nat, a: nat, b: nat, c: nat, e: nat :: PriceRun(t, heading, i, a, b, c, e) &&
            MoneyFrom(t[a..b], t[c..e]) == Success(v.value) &&
            NoMatchBefore(PricePattern(heading), t, i))
  }

  lemma CountReads(t: string, heading: string)
    ensures CountReading(t, heading, CountIn(t, heading))
  {
    CountInSpec(t, heading);
    if CountIn(t, heading).Some? {
      var i: nat, b: nat, e: nat :| CountRun(t, heading, i, b, e) &&
        CountIn(t, heading).value == DecimalValue(t[b..e]) &&
        NoMatchBefore(CountPattern(heading), t, i);
    }
  }

  lemma PriceReads(t: string, heading: string)
    requires PriceField(t, heading).Success?
    ensures PriceReading(t, heading, PriceField(t, heading).value)
  {
    PriceFieldSpec(t, heading);
    if PriceField(t, heading) != Success(None) {
      var i: nat, a: nat, b: nat, c: nat, e: nat :| PriceRun(t, heading, i, a, b, c, e) &&
        NoMatchBefore(PricePattern(heading), t, i) &&
        PriceField(t, heading) == PriceAt(t, a, b, c, e);
      assert MoneyFrom(t[a..b], t[c..e]) == Success(PriceField(t, heading).value.value);
    }
  }

  /** The fields of a box that is read are the searches for their own labels. */
  lemma BoxFieldsAreSearches(text: string, b: Bucket)
    requires ExtractBox(text) == Success(Some(b))
    ensures && b.timesSold == CountIn(text, TimesSoldLabel)
            && b.totalLots == CountIn(text, TotalLotsLabel)
            && b.totalQty == CountIn(text, TotalQtyLabel)
            && Success(b.minPrice) == PriceField(text, MinPriceLabel)
            && Success(b.avgPrice) == PriceField(text, AvgPriceLabel)
            && Success(b.qtyAvgPrice) == PriceField(text, QtyAvgPriceLabel)
            && Success(b.maxPrice) == PriceField(text, MaxPriceLabel)
  {
    var rs := PriceResults(text);
    var c := Collect(rs);
    assert !Unavailable(text) && c.Success?;
    assert b == Fields(text, c.value);
    assert forall j :: 0 <= j < 4 ==> rs[j] == Success(c.value[j]);
  }

  /** Lines 100-140: in a box that is read, each count is the decimal value of the digit
      run at the leftmost match of its label's pattern (absent when there is none), and
      each price is the upper-cased currency and comma-free amount at the leftmost match
      of its label's pattern (absent when there is none). */
  lemma ExtractBoxFields(text: string, b: Bucket)
    requires ExtractBox(text) == Success(Some(b))
    ensures CountReading(text, TimesSoldLabel, b.timesSold)
    ensures CountReading(text, TotalLotsLabel, b.totalLots)
    ensures CountReading(text, TotalQtyLabel, b.totalQty)
    ensures PriceReading(text, MinPriceLabel, b.minPrice)
    ensures PriceReading(text, AvgPriceLabel, b.avgPrice)
    ensures PriceReading(text, QtyAvgPriceLabel, b.qtyAvgPrice)
    ensures PriceReading(text, MaxPriceLabel, b.maxPrice)
  {
    BoxFieldsAreSearches(text, b);
    CountReads(text, TimesSoldLabel);
    CountReads(text, TotalLotsLabel);
    CountReads(text, TotalQtyLabel);
    PriceReads(text, MinPriceLabel);
    PriceReads(text, AvgPriceLabel);
    PriceReads(text, QtyAvgPriceLabel);
    PriceReads(text, MaxPriceLabel);
  }

  // ---------------------------------------------------------------------------
  // "Avg Price:" also matches inside "Qty Avg Price:"

  lemma AvgPatternIsQtyAvgSuffix()
    ensures var rest := PricePattern(AvgPriceLabel)[1..];
      && PricePattern(QtyAvgPriceLabel) == [Lit(QtyAvgPriceLabel, true)] + rest
      && PricePattern(AvgPriceLabel) == [Lit(QtyAvgPriceLabel[4..], true)] + rest
  {
    assert QtyAvgPriceLabel[4..] == AvgPriceLabel;
  }

  /** The average-price search is not anchored to the start of a line, so wherever the
      quantity-average price can be read, the average price can be read at that label's
      "Avg Price:" suffix or earlier. */
  lemma AvgPriceSeesQtyAvgPrice(text: string)
    requires Scan(PricePattern(QtyAvgPriceLabel), text, 0).Some?
    ensures Scan(PricePattern(AvgPriceLabel), text, 0).Some?
    ensures Scan(PricePattern(AvgPriceLabel), text, 0).value.start <=
            Scan(PricePattern(QtyAvgPriceLabel), text, 0).value.start + 4
  {
    var rest := PricePattern(AvgPriceLabel)[1..];
    AvgPatternIsQtyAvgSuffix();
    PricePatternDet(AvgPriceLabel);
    PricePatternDet(QtyAvgPriceLabel);
    ScanIsSearch(PricePattern(AvgPriceLabel), text, 0);
    ScanIsSearch(PricePattern(QtyAvgPriceLabel), text, 0);
    SuffixPatternReaches(QtyAvgPriceLabel, true, rest, 4, text);
  }

  /** A box whose first "Avg Price:" match is the one inside "Qty Avg Price:" (for instance
      a box that lists only the quantity-average price) reports the quantity-average price,
      or its conversion error, as its average price too. */
  lemma AvgReadsQtyAvgPrice(text: string)
    requires Scan(PricePattern(QtyAvgPriceLabel), text, 0).Some?
    requires NoMatchBefore(PricePattern(AvgPriceLabel), text, Scan(PricePattern(QtyAvgPriceLabel), text, 0).value.start + 4)
    ensures PriceField(text, AvgPriceLabel) == PriceField(text, QtyAvgPriceLabel)
  {
    var q := Scan(PricePattern(QtyAvgPriceLabel), text, 0).value;
    AvgPriceSeesQtyAvgPrice(text);
    var m := Scan(PricePattern(AvgPriceLabel), text, 0).value;
    ScanSound(PricePattern(AvgPriceLabel), text, 0);
    assert m.start == q.start + 4;
    PriceScanRun(text, QtyAvgPriceLabel);
    PriceScanRun(text, AvgPriceLabel);
    PriceRunUnique(text, QtyAvgPriceLabel, q.start, q.ends[1], q.ends[2], q.ends[3], q.ends[4],
                   AvgPriceLabel, m.start, m.ends[1], m.ends[2], m.ends[3], m.ends[4]);
  }

  /** Two price runs whose labels end at the same place read the same letters and the same
      amount: every boundary after the label is forced. */
  lemma PriceRunUnique(t: string, h1: string, i1: nat, a1: nat, b1: nat, c1: nat, e1: nat,
                       h2: string, i2: nat, a2: nat, b2: nat, c2: nat, e2: nat)
    requires PriceRun(t, h1, i1, a1, b1, c1, e1) && PriceRun(t, h2, i2, a2, b2, c2, e2)
    requires i1 + |h1| == i2 + |h2|
    ensures a1 == a2 && b1 == b2 && c1 == c2 && e1 == e2
  {
    var s := i1 + |h1|;
    SpacesUpTo(t, s, a1);
    SpacesUpTo(t, s, a2);
    assert !IsSpace(t[a1]) && !IsSpace(t[a2]);
    assert a1 == a2;
    SpacesUpTo(t, b1, c1);
    SpacesUpTo(t, b2, c2);
    assert IsSpace(t[b1]) && IsSpace(t[b2]);
    assert b1 == b2;
    assert !IsSpace(t[c1]) && !IsSpace(t[c2]);
  }

  lemma SpacesUpTo(t: string, s: nat, a: nat)
    requires s <= a <= |t| && AllSpace(t[s..a])
    ensures forall x :: s <= x < a ==> IsSpace(t[x])
  {
    forall x | s <= x < a
      ensures IsSpace(t[x])
    {
      assert t[s..a][x - s] == t[x];
    }
  }

  /** Whenever a quantity-average price is read (or fails to convert), an average price is
      read too: "average price absent, quantity-average price present" never comes out. */
  lemma NoQtyAvgWithoutAvg(text: string)
    requires PriceField(text, QtyAvgPriceLabel) != Success(None)
    ensures PriceField(text, AvgPriceLabel) != Success(None)
  {
    AvgPriceSeesQtyAvgPrice(text);
  }
}
