# bws scraping core in Dafny

A model of the string-processing core of two scraping scripts, with proofs about it.

- `scrape-bricklink.py` reads one Bricklink catalog item. It:
  - takes the catalog kind and id from the URL's query;
  - builds the price-guide URL;
  - reads the four price boxes of the price-guide page (six months new, six months used, current new, current used) into buckets of counts and prices.
- `parse-shopee.py` reads saved Shopee shop-listing pages. It:
  - turns every product card into a record of name, price (RM) and units sold, each with its own fallbacks;
  - gathers the records of every `shop-listing-*.txt` page in sorted file-name order;
  - exports them only when there is at least one.

The HTML parser and the HTTP client are not modelled; what they return is given as input. A fetched Bricklink page is represented by what its selectors return (`Bricklink.Page`). A Shopee product card is represented by its text nodes, the texts of its name, price and sold-count elements, and its whole text (`Shopee.ItemView`).

## Modules

- `Wrappers` (`wrappers.dfy`): `Option` and `Result`, `Collect` (the first failure of a sequence of steps wins), and `FilterMap`.
- `Text` (`text.dfy`): ASCII character classes, `str.strip`, `str.lower`/`str.upper`, comma removal, and decimal digit strings.
- `Regex` (`regex.dfy`): the part of Python's `re` the scripts use. It covers literals (optionally case-insensitive), one character of a class, and greedy `*`/`+` over a class.
  - `Search` explores alternatives in the order Python's backtracking engine does, so it is `re.search`.
  - `Scan` is a one-pass scanner that never backtracks.
  - `ScanIsSearch` proves the two agree for every pattern in which each repetition is followed by something that cannot start with a character of its class. Every pattern the scripts search with by scanning is of that kind.
  - `Conforms` is the relational reading of "the pattern matches here".
- `Bricklink` and `BricklinkFacts` (`bricklink.dfy`, `bricklink_facts.dfy`): the item scraper and its properties.
- `Shopee`, `ShopeeFacts` and `ShopeeExport` (`shopee.dfy`, `shopee_facts.dfy`, `shopee_export.dfy`): the card parser, its properties, and the driver over the listing files.

## Model

| member | source | states |
|---|---|---|
| Bricklink.SelectLocator | scrape-bricklink.py:41-49 | The kind is the first of P, S, M, G, C, I, O, B that is a key of the query, and the id is that key's first value. If no such key exists, or its first value is empty, the result is the locator-not-found error. |
| Bricklink.PriceGuideUrl | scrape-bricklink.py:71 | The price-guide URL starts with the fixed `https://www.bricklink.com/catalogPG.asp?` base. |
| BricklinkFacts.PriceGuideUrlRoundTrip | scrape-bricklink.py:71 | The query part of the URL splits at its first `=` back into the kind and the id, so the locator can be recovered from the URL. |
| BricklinkFacts.KindsHaveNoEquals | scrape-bricklink.py:42 | None of the eight kinds contains `=`, so the round trip applies to every locator that can be chosen. |
| Bricklink.SplitAtEquals | scrape-bricklink.py:71 | Splitting a query at its first `=` gives a key without `=`; joining key, `=` and rest gives back the input. |
| Bricklink.CountInIsSearch | scrape-bricklink.py:82-84 | The one-pass scanner finds the same match as `re.search` with the count pattern, so a count is read exactly when `re.search` matches. |
| BricklinkFacts.CountInSpec | scrape-bricklink.py:101-111 | A count comes from the leftmost place where the label (in any case), optional whitespace and digits follow each other. Its value is that of the whole maximal digit run. No count is read when no such place exists. |
| BricklinkFacts.CountMatchShape | scrape-bricklink.py:82-84 | A match of `Label:\s*(\d+)` is the label, whitespace, and a non-empty digit run that is group 1. |
| Bricklink.PriceFieldIsSearch | scrape-bricklink.py:85-88 | The one-pass scanner finds the same match as `re.search` with the price pattern, so no price is read exactly when `re.search` finds nothing. |
| Bricklink.PriceFieldShape | scrape-bricklink.py:114-140 | A price that is read has a non-empty all-upper-case currency, and an amount without commas that `float()` accepts. |
| BricklinkFacts.PriceFieldSpec | scrape-bricklink.py:114-140 | A price comes from the leftmost place where the label, optional whitespace, letters, whitespace and a run of digits, commas and dots follow each other. The currency is the letters upper-cased and the amount is the whole run without commas; if `float()` rejects the amount, the result is that error. With no such place there is no price. |
| BricklinkFacts.PriceScanRun | scrape-bricklink.py:114-140 | The scanner's price match has the shape above, and the price read is the one taken from its letters and amount run. |
| BricklinkFacts.PriceScanLeftmost | scrape-bricklink.py:114 | No position before the scanner's match can match the price pattern. |
| BricklinkFacts.PriceMatchHead | scrape-bricklink.py:85-88 | A price match begins with the label, optional whitespace and a non-empty letter run that is group 1. |
| BricklinkFacts.PriceMatchTail | scrape-bricklink.py:85-88 | A price match ends with at least one whitespace character and a non-empty amount run that is group 2. |
| BricklinkFacts.UnavailableAnyCase | scrape-bricklink.py:95 | A box counts as unavailable exactly when "(unavailable)" occurs in its text in any mix of letter cases. |
| Bricklink.ExtractBox | scrape-bricklink.py:90-142 | An unavailable box yields None. A box that yields a bucket is not unavailable, and its bucket is never empty. |
| BricklinkFacts.ExtractBoxFailure | scrape-bricklink.py:114-140 | Reading a box fails exactly when it is not unavailable and one of its four prices fails `float()`. The error is that of the first such price in reading order. |
| BricklinkFacts.ExtractBoxNone | scrape-bricklink.py:95-142 | A box yields None exactly when it is unavailable, or when none of the three counts and none of the four prices is found. |
| BricklinkFacts.ExtractBoxFields | scrape-bricklink.py:100-140 | In a box that is read, each of the three counts is absent exactly when its label's pattern matches nowhere, and otherwise is the decimal value of the maximal digit run at the leftmost match. Each of the four prices is absent exactly when its pattern matches nowhere, and otherwise holds the upper-cased letters and the comma-free amount read at the leftmost match. |
| BricklinkFacts.AvgPatternIsQtyAvgSuffix | scrape-bricklink.py:86-87 | The "Qty Avg Price" pattern is the "Avg Price" pattern with "Qty " in front. |
| BricklinkFacts.AvgPriceSeesQtyAvgPrice | scrape-bricklink.py:121-133 | Wherever a quantity-average price can be read, an average price can be read too, no later than that label's "Avg Price:" suffix. |
| BricklinkFacts.AvgReadsQtyAvgPrice | scrape-bricklink.py:121-133 | When no "Avg Price:" match starts before the one inside the first "Qty Avg Price:" match (for instance when a box lists only the quantity-average price), the average price read is exactly the quantity-average price, or its conversion error. |
| BricklinkFacts.PriceRunUnique | scrape-bricklink.py:85-88 | Once the label ends, a price match has only one possible place for the currency letters and only one possible maximal amount run. |
| BricklinkFacts.NoQtyAvgWithoutAvg | scrape-bricklink.py:121-133 | A box never comes out with a quantity-average price but no average price. |
| Bricklink.AssignBuckets | scrape-bricklink.py:144-156 | With fewer than four boxes all four buckets are None. Otherwise boxes 0..3 fill the buckets in order and later boxes are ignored; the assignment succeeds exactly when the four boxes can be read, and fails with the error of the first box that cannot. |
| Bricklink.ScrapeItem | scrape-bricklink.py:34-164 | A missing or empty locator gives the locator error before anything is fetched. After that, a failed item-page fetch gives the fetch error for the item URL, and a failed price-guide fetch gives the fetch error for the price-guide URL. A box that cannot be read gives that box's error. When nothing fails, the summary holds the first-priority locator, the item page's stripped title and weight, and the buckets assigned from that locator's price-guide page. |
| Text.StripSpec | scrape-bricklink.py:65 | `strip()` leaves a middle slice of its input with only whitespace removed on both sides. It gives "" exactly for all-whitespace input, and otherwise its first and last characters are not whitespace. |
| Text.RemoveCommas | parse-shopee.py:34 | `replace(',', '')` leaves no comma, never lengthens the text, and changes nothing in comma-free text. |
| Text.RemoveCommasKeeps | parse-shopee.py:34 | Every character other than a comma survives `replace(',', '')`, and no new character appears. |
| Text.RemoveCommasAppend | scrape-bricklink.py:118 | Removing commas from two texts one after the other is removing them from their concatenation. |
| Text.RemoveCommasIdempotent | parse-shopee.py:39 | Removing commas a second time changes nothing. |
| Text.RemoveCommasEmpty | parse-shopee.py:34-36 | Removing commas gives "" exactly when the text consists of commas only. |
| Text.StripNoSpace | parse-shopee.py:47 | Stripping text without whitespace changes nothing. |
| Text.DecimalValueOfDigits | scrape-bricklink.py:103 | `int()` of the decimal digits of n is n. |
| Text.LeadingZeroIgnored | scrape-bricklink.py:103 | `int()` ignores a leading zero. |
| Regex.BackSound | parse-shopee.py:21 | Every match the backtracking matcher returns is a way for the pattern to match there. |
| Regex.GreedySound | parse-shopee.py:37 | Every match the one-pass scanner returns is a way for the pattern to match there. |
| Regex.ScanIsSearch | scrape-bricklink.py:101 | Wherever every repetition of the pattern is followed by something that cannot start with a character of its class, the one-pass scanner returns exactly what `re.search` returns. |
| Regex.BackIsGreedy | scrape-bricklink.py:101 | For such patterns, matching at one position by backtracking gives the same match as matching without backtracking. |
| Regex.SearchLeftmost | parse-shopee.py:37 | `re.search` returns a real match, and nothing matches before it; when it finds nothing, the pattern matches nowhere. |
| Regex.SearchReaches | parse-shopee.py:21 | If the pattern can match at some position, `re.search` finds a match there or earlier. |
| Regex.ConformsIsChain | parse-shopee.py:37 | A match is exactly a sequence of atoms, each consuming the text from where the previous one ended. |
| Regex.GroupIsSlice | parse-shopee.py:39 | A group is the slice of text between where its atom starts and where it ends. |
| Regex.ScanRunMaximal | parse-shopee.py:37 | In a scanned match, the character after a repetition is not in the repetition's class. |
| Regex.ScanStartsRun | parse-shopee.py:45 | A scanned match of a pattern that starts with `+` begins at the start of a run of that class. |
| Shopee.FirstNamed | parse-shopee.py:21-23 | The first text node, in document order, in which the name pattern finds something. |
| Shopee.NamesProductIff | parse-shopee.py:21 | `LEGO.*\d{5}` under IGNORECASE finds something exactly when "LEGO" in any case is followed, on the same line, by five digits. |
| Shopee.NamedNodeNotBlank | parse-shopee.py:21-25 | A text node the name pattern finds something in does not strip to "". |
| Shopee.ResolveName | parse-shopee.py:19-28 | When a text node names the product, the name is that node stripped, which is non-empty. Otherwise the name is the clamp div's text, or missing. |
| Shopee.ResolvePrice | parse-shopee.py:30-39 | A resolved price never contains a comma. |
| ShopeeFacts.PricePrecedence | parse-shopee.py:30-39 | The price span wins unless it is missing or holds only commas. Then the first "RM" amount is used, and with neither the price is unusable. |
| Shopee.RmAmountIsSearch | parse-shopee.py:37-39 | The scanner finds the same amount as `re.search(r'RM\s*([0-9,.]+)', ...)`. |
| ShopeeFacts.RmAmountSpec | parse-shopee.py:37-39 | The fallback price comes from the leftmost place where case-sensitive "RM", optional whitespace and a run of digits, commas and dots follow each other. It is the whole run without commas; there is none when no such place exists. |
| ShopeeFacts.RmMatchShape | parse-shopee.py:37 | A match of the RM pattern is "RM", whitespace, and a non-empty amount run that is group 1. |
| Shopee.SoldTokenIsSearch | parse-shopee.py:45-52 | The scanner finds the same token as `re.search(r'([0-9kK.+,]+)\s*sold', ...)`. |
| ShopeeFacts.SoldTokenSpec | parse-shopee.py:45-52 | The units-sold token is the whole maximal run of `[0-9kK.+,]`, commas kept, at the leftmost place where such a run is followed by optional whitespace and lower-case "sold". There is none when no such place exists. |
| ShopeeFacts.SoldScanRun | parse-shopee.py:45 | The scanner's sold match covers a whole run that is cut off on neither side and is followed by whitespace and "sold". |
| ShopeeFacts.SoldScanLeftmost | parse-shopee.py:45 | No position before the scanner's sold match can match the pattern. |
| ShopeeFacts.SoldTokenValue | parse-shopee.py:47 | Stripping the matched run removes nothing, so the token is the run itself. |
| ShopeeFacts.SoldMatchShape | parse-shopee.py:45 | A sold match is a non-empty run that is group 1, whitespace, and "sold"; the run holds no whitespace. |
| ShopeeFacts.SoldWordAt | parse-shopee.py:45 | The literal "sold" matched at a position is the slice "sold" there. |
| ShopeeFacts.SoldPrecedence | parse-shopee.py:41-52 | The sold-count div wins when a token can be read from it; otherwise the token is read from the whole card. |
| ShopeeFacts.SoldTokenNotEmpty | parse-shopee.py:47-49 | A token that is read is never "", so a div token is never passed over for the card's. |
| Shopee.ItemRecord | parse-shopee.py:54-59 | A card yields a record exactly when its resolved name is non-empty. A missing price or units sold becomes "N/A" instead of dropping the card, and the recorded price never contains a comma. |
| ShopeeFacts.ParseListingAppend | parse-shopee.py:17-66 | The records of two runs of cards, one after the other, are the records of each run one after the other. |
| ShopeeFacts.ParseListingMembers | parse-shopee.py:54-59 | A record is on a page's list exactly when some card of the page yields it. |
| ShopeeFacts.ParseListingEmpty | parse-shopee.py:54 | A page yields no records exactly when no card has a usable name. |
| ShopeeExport.ListingFiles | parse-shopee.py:70 | The files taken are exactly the directory entries named `shop-listing-*.txt`. |
| ShopeeExport.StrLeTotal | parse-shopee.py:70 | Python's string order is total. |
| ShopeeExport.StrLeTrans | parse-shopee.py:70 | Python's string order is transitive. |
| ShopeeExport.StrLeAntisym | parse-shopee.py:70 | Python's string order is antisymmetric. |
| ShopeeExport.SortByName | parse-shopee.py:70 | `sorted` gives a permutation of the files in name order. |
| ShopeeExport.AllItemsSnoc | parse-shopee.py:74-79 | Reading one more file appends its cards after those already read. |
| ShopeeExport.AllItemsMembers | parse-shopee.py:74-79 | A card is among those gathered exactly when it belongs to one of the files. |
| ShopeeExport.ExportListings | parse-shopee.py:68-86 | The export happens exactly when some listing file has a card with a usable name. The exported records are those of the sorted files' cards, concatenated in order; every exported record comes from a card of a listing file, and every such card's record is exported. |
| ShopeeExport.GatherStep | parse-shopee.py:74-79 | Reading the next file appends that file's records to those gathered so far. |
| ShopeeExport.SortedListingFiles | parse-shopee.py:70 | After sorting, the files are still exactly the listing files of the directory. |
| ShopeeExport.GatheredNonEmpty | parse-shopee.py:82 | The gathered records are non-empty exactly when some file has a card with a usable name. |
| ShopeeExport.GatheredMembers | parse-shopee.py:73-79 | A record is gathered exactly when some card of some file yields it. |

## Left out

- HTTP fetching, headers, timeouts and `raise_for_status`. Fetching is the parameter `fetch` of `Bricklink.ScrapeItem`; `None` stands for any failed request.
- BeautifulSoup parsing, the CSS selectors and `find`/`find_all` with class patterns. Their results are inputs (`Bricklink.Page`, `Shopee.ItemView`, the box texts), including `get_text(separator='\n', strip=True)` of a price box.
- `urllib.parse.urlparse`/`parse_qs`: the query is given as a map from key to its non-empty list of values (`Bricklink.WellFormedQuery`).
- `float()`: the amount is kept as the comma-stripped string. `Bricklink.IsFloatLiteral` stands for "float() accepts it", which on the digit, comma and dot strings the pattern allows means at least one digit and at most one dot. Rounding and the binary value are not modelled.
- Unicode: character classes, `lower()`, `upper()`, `strip()` and IGNORECASE are modelled on ASCII only. Non-ASCII digits and case foldings such as the Kelvin sign are not modelled.
- The title and weight are modelled as stripped texts of given elements; the HTML text extraction behind them is not modelled.
- File globbing and reading: the directory is given as a sequence of named files, each with the cards its HTML yields.
- CSV writing, console printing and the `__main__` example block: I/O only.
- The per-item `except Exception` handler in `parse_shopee_html`: the modelled extraction is total, so there is nothing to catch.
- Bricklink.CountValue: always returns the digit run's value. Under Python 3.11 and later, `int()` raises ValueError on a run longer than 4300 digits (the default `sys.int_info.default_max_str_digits`), and that would abort the scrape. That interpreter-version limit is not modelled.
- ShopeeExport.ExportListings: returns the records to export instead of writing them; the file name and CSV column names are not modelled.
