/** The Shopee script's driver: pick the saved listing pages by name, read them in sorted
    name order, gather their records and export them only when there are any. Reading
    and parsing the HTML is given: each page comes with the cards the parser found. */
module ShopeeExport {
  import opened Wrappers
  import opened Text
  import opened Shopee
  import opened ShopeeFacts

  datatype ListingFile = ListingFile(name: string, items: seq<ItemView>)

  const ListingPrefix := "shop-listing-"
  const ListingSuffix := ".txt"

  /** The file name matches `shop-listing-*.txt`: the prefix, anything, the suffix. */
  predicate IsListingName(n: string) {
    && |n| >= |ListingPrefix| + |ListingSuffix|
    && n[..|ListingPrefix|] == ListingPrefix
    && n[|n| - |ListingSuffix|..] == ListingSuffix
  }

  // ---------------------------------------------------------------------------
  // Python's ordering of strings: by code point, a proper prefix first.

  predicate StrLe(a: string, b: string)
    decreases |a|
  {
    |a| == 0 || (|b| > 0 && (a[0] < b[0] || (a[0] == b[0] && StrLe(a[1..], b[1..]))))
  }

  lemma {:induction false} StrLeTotal(a: string, b: string)
    ensures StrLe(a, b) || StrLe(b, a)
    decreases |a|
  {
    if |a| > 0 && |b| > 0 && a[0] == b[0] {
      StrLeTotal(a[1..], b[1..]);
    }
  }

  lemma {:induction false} StrLeTrans(a: string, b: string, c: string)
    requires StrLe(a, b) && StrLe(b, c)
    ensures StrLe(a, c)
    decreases |a|
  {
    if |a| > 0 && a[0] == b[0] && b[0] == c[0] {
      StrLeTrans(a[1..], b[1..], c[1..]);
    }
  }

  lemma {:induction false} StrLeAntisym(a: string, b: string)
    requires StrLe(a, b) && StrLe(b, a)
    ensures a == b
    decreases |a|
  {
    if |a| > 0 {
      StrLeAntisym(a[1..], b[1..]);
      assert a == [a[0]] + a[1..] && b == [b[0]] + b[1..];
    }
  }

  // ---------------------------------------------------------------------------
  // `sorted(glob.glob('shop-listing-*.txt'))`

  /** The directory entries whose names match the listing pattern, in directory order. */
  function ListingFiles(dir: seq<ListingFile>): (r: seq<ListingFile>)
    ensures forall f :: f in r <==> f in dir && IsListingName(f.name)
    ensures |r| <= |dir|
    decreases |dir|
  {
    if |dir| == 0 then []
    else (if IsListingName(dir[0].name) then [dir[0]] else []) + ListingFiles(dir[1..])
  }

  predicate SortedByName(fs: seq<ListingFile>) {
    forall i, j :: 0 <= i < j < |fs| ==> StrLe(fs[i].name, fs[j].name)
  }

  function Insert(f: ListingFile, fs: seq<ListingFile>): (r: seq<ListingFile>)
    requires SortedByName(fs)
    ensures SortedByName(r)
    ensures multiset(r) == multiset(fs) + multiset{f}
    decreases |fs|
  {
    if |fs| == 0 then [f]
    else if StrLe(f.name, fs[0].name) then
      InsertFront(f, fs);
      [f] + fs
    else
      var rest := Insert(f, fs[1..]);
      InsertLater(f, fs, rest);
      assert fs == [fs[0]] + fs[1..];
      [fs[0]] + rest
  }

  lemma InsertFront(f: ListingFile, fs: seq<ListingFile>)
    requires SortedByName(fs) && |fs| > 0 && StrLe(f.name, fs[0].name)
    ensures SortedByName([f] + fs)
  {
    var r := [f] + fs;
    forall i, j | 0 <= i < j < |r|
      ensures StrLe(r[i].name, r[j].name)
    {
      if i == 0 && j > 1 {
        StrLeTrans(f.name, fs[0].name, fs[j - 1].name);
      }
    }
  }

  lemma InsertLater(f: ListingFile, fs: seq<ListingFile>, rest: seq<ListingFile>)
    requires SortedByName(fs) && |fs| > 0 && !StrLe(f.name, fs[0].name)
    requires SortedByName(rest) && multiset(rest) == multiset(fs[1..]) + multiset{f}
    ensures SortedByName([fs[0]] + rest)
  {
    var r := [fs[0]] + rest;
    StrLeTotal(f.name, fs[0].name);
    forall j | 0 <= j < |rest|
      ensures StrLe(fs[0].name, rest[j].name)
    {
      assert rest[j] in multiset(rest);
      if rest[j] != f {
        assert rest[j] in multiset(fs[1..]);
        var k :| 0 <= k < |fs[1..]| && fs[1..][k] == rest[j];
        assert fs[k + 1] == rest[j];
      }
    }
    forall i, j | 0 <= i < j < |r|
      ensures StrLe(r[i].name, r[j].name)
    {
      if i == 0 {
        assert r[j] == rest[j - 1];
      } else {
        assert r[i] == rest[i - 1] && r[j] == rest[j - 1];
      }
    }
  }

  /** `sorted(...)` on the file names: insertion sort, which is stable. */
  function SortByName(fs: seq<ListingFile>): (r: seq<ListingFile>)
    ensures SortedByName(r)
    ensures multiset(r) == multiset(fs)
    decreases |fs|
  {
    if |fs| == 0 then []
    else
      assert fs == [fs[0]] + fs[1..];
      Insert(fs[0], SortByName(fs[1..]))
  }

  // ---------------------------------------------------------------------------
  // Gathering and export

  /** The cards of the files, file after file. */
  function AllItems(files: seq<ListingFile>): (r: seq<ItemView>)
    decreases |files|
  {
    if |files| == 0 then [] else files[0].items + AllItems(files[1..])
  }

  lemma {:induction false} AllItemsSnoc(files: seq<ListingFile>, f: ListingFile)
    ensures AllItems(files + [f]) == AllItems(files) + f.items
    decreases |files|
  {
    if |files| == 0 {
      assert files + [f] == [f];
      assert AllItems([f]) == f.items + AllItems([]);
    } else {
      assert (files + [f])[1..] == files[1..] + [f];
      AllItemsSnoc(files[1..], f);
    }
  }

  lemma {:induction false} AllItemsMembers(files: seq<ListingFile>, v: ItemView)
    ensures v in AllItems(files) <==> exists f :: f in files && v in f.items
    decreases |files|
  {
    if |files| > 0 {
      AllItemsMembers(files[1..], v);
      assert forall f :: f in files <==> f == files[0] || f in files[1..];
    }
  }

  /** `main`: the records of every listing page, pages in sorted name order and cards in
      page order, or nothing to export when there are none. The export happens exactly
      when some listing page has a card with a usable name; every exported record comes
      from a card of a listing page, and every such card's record is exported. */
  method ExportListings(dir: seq<ListingFile>) returns (out: Option<seq<Record>>)
    ensures out.Some? <==>
      exists f, v :: f in dir && IsListingName(f.name) && v in f.items && Truthy(ResolveName(v))
    ensures out.Some? ==> out.value == ParseListing(AllItems(SortByName(ListingFiles(dir))))
    ensures out.Some? ==> forall r :: r in out.value <==>
      exists f, v :: f in dir && IsListingName(f.name) && v in f.items && ItemRecord(v) == Some(r)
  {
    var files := SortByName(ListingFiles(dir));
    var all: seq<Record> := [];
    var i := 0;
    while i < |files|
      invariant 0 <= i <= |files|
      invariant all == ParseListing(AllItems(files[..i]))
    {
      GatherStep(files, i);
      all := all + ParseListing(files[i].items);
      i := i + 1;
    }
    assert files[..i] == files;
    ExportFacts(dir, files);
    if |all| > 0 {
      out := Some(all);
    } else {
      out := None;
    }
  }

  /** Reading file `i` after files `0..i` appends its records. */
  lemma GatherStep(files: seq<ListingFile>, i: nat)
    requires i < |files|
    ensures ParseListing(AllItems(files[..i + 1])) ==
      ParseListing(AllItems(files[..i])) + ParseListing(files[i].items)
  {
    assert files[..i + 1] == files[..i] + [files[i]];
    AllItemsSnoc(files[..i], files[i]);
    ParseListingAppend(AllItems(files[..i]), files[i].items);
  }

  lemma ExportFacts(dir: seq<ListingFile>, files: seq<ListingFile>)
    requires files == SortByName(ListingFiles(dir))
    ensures ParseListing(AllItems(files)) != [] <==>
      exists f, v :: f in dir && IsListingName(f.name) && v in f.items && Truthy(ResolveName(v))
    ensures forall r :: r in ParseListing(AllItems(files)) <==>
      exists f, v :: f in dir && IsListingName(f.name) && v in f.items && ItemRecord(v) == Some(r)
  {
    SortedListingFiles(dir, files);
    GatheredNonEmpty(files);
    forall r
      ensures r in ParseListing(AllItems(files)) <==> exists f, v :: f in files && v in f.items && ItemRecord(v) == Some(r)
    {
      GatheredMembers(files, r);
    }
  }

  lemma SortedListingFiles(dir: seq<ListingFile>, files: seq<ListingFile>)
    requires files == SortByName(ListingFiles(dir))
    ensures forall f :: f in files <==> f in dir && IsListingName(f.name)
  {
    forall f
      ensures f in files <==> f in ListingFiles(dir)
    {
      assert f in files <==> f in multiset(files);
      assert f in ListingFiles(dir) <==> f in multiset(ListingFiles(dir));
    }
  }

  lemma GatheredNonEmpty(files: seq<ListingFile>)
    ensures ParseListing(AllItems(files)) != [] <==>
      exists f, v :: f in files && v in f.items && Truthy(ResolveName(v))
  {
    var items := AllItems(files);
    ParseListingEmpty(items);
    if exists f, v :: f in files && v in f.items && Truthy(ResolveName(v)) {
      var f, v :| f in files && v in f.items && Truthy(ResolveName(v));
      AllItemsMembers(files, v);
      var i :| 0 <= i < |items| && items[i] == v;
    }
    if ParseListing(items) != [] {
      var i :| 0 <= i < |items| && Truthy(ResolveName(items[i]));
      AllItemsMembers(files, items[i]);
    }
  }

  lemma GatheredMembers(files: seq<ListingFile>, r: Record)
    ensures r in ParseListing(AllItems(files)) <==>
      exists f, v :: f in files && v in f.items && ItemRecord(v) == Some(r)
  {
    var items := AllItems(files);
    ParseListingMembers(items, r);
    if exists f, v :: f in files && v in f.items && ItemRecord(v) == Some(r) {
      var f, v :| f in files && v in f.items && ItemRecord(v) == Some(r);
      AllItemsMembers(files, v);
      var i :| 0 <= i < |items| && items[i] == v;
    }
    if r in ParseListing(items) {
      var i :| 0 <= i < |items| && ItemRecord(items[i]) == Some(r);
      AllItemsMembers(files, items[i]);
    }
  }
}
