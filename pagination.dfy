/** Page-based listing as the list handlers use it: the `page` query
    parameter (`parse::<u64>()`, default 1), the page index `page - 1`, the
    metadata (count, page size, `count.div_ceil(10)`), the ordering by
    creation time descending, and sea-orm's `fetch_page` window
    (`LIMIT size OFFSET size * index`). */
module Pagination {
  import opened Common
  import opened Errors

  const PER_PAGE: nat := 10
  const U64_LIMIT: nat := 0x1_0000_0000_0000_0000

  // ---------------------------------------------------------------- parsing

  predicate IsDigit(c: char) { '0' <= c <= '9' }

  predicate AllDigits(s: string) { forall i :: 0 <= i < |s| ==> IsDigit(s[i]) }

  /** The number a string of decimal digits denotes (leading zeros allowed). */
  function DigitsValue(s: string): nat
    requires AllDigits(s)
  {
    if s == [] then 0
    else DigitsValue(s[..|s| - 1]) * 10 + ((s[|s| - 1] as int) - ('0' as int))
  }

  /** `str::parse::<u64>()`: an optional `+`, then at least one decimal digit,
      and a value that fits in 64 bits; anything else (a `-` sign, spaces,
      the empty string, an overflow) is an error. */
  function ParseU64(s: string): Option<nat> {
    var digits := if |s| > 0 && s[0] == '+' then s[1..] else s;
    if |digits| > 0 && AllDigits(digits) && DigitsValue(digits) < U64_LIMIT
    then Some(DigitsValue(digits))
    else None
  }

  /** Canonical decimal rendering of a natural number. */
  function Decimal(n: nat): (r: string)
    ensures |r| > 0 && AllDigits(r)
  {
    if n < 10 then [(('0' as int) + n) as char]
    else Decimal(n / 10) + [(('0' as int) + n % 10) as char]
  }

  lemma {:induction false} DecimalValue(n: nat)
    ensures DigitsValue(Decimal(n)) == n
  {
    var r := Decimal(n);
    if n >= 10 {
      DecimalValue(n / 10);
      assert r[..|r| - 1] == Decimal(n / 10);
    }
  }

  /** Parsing inverts decimal rendering on the u64 range, and a leading `+`
      is accepted. */
  lemma ParseDecimal(n: nat)
    requires n < U64_LIMIT
    ensures ParseU64(Decimal(n)) == Some(n)
    ensures ParseU64("+" + Decimal(n)) == Some(n)
  {
    DecimalValue(n);
    assert ("+" + Decimal(n))[1..] == Decimal(n);
  }

  /** The inputs `parse::<u64>` rejects that a client may send as a page. */
  lemma ParseRejects()
    ensures ParseU64("") == None
    ensures ParseU64("-1") == None
    ensures ParseU64("+") == None
    ensures ParseU64("two") == None
  {
    assert !IsDigit("-1"[0]);
    assert !IsDigit("two"[0]);
  }

  /** `params.get("page").and_then(|s| s.parse::<u64>().ok()).unwrap_or(1)`. */
  function ParsePage(params: map<string, string>): nat {
    if "page" in params && ParseU64(params["page"]).Some? then ParseU64(params["page"]).value else 1
  }

  /** A missing or unparsable page is page 1; a decimal page is taken as is. */
  lemma ParsePageDefaults(params: map<string, string>, n: nat)
    requires n < U64_LIMIT
    ensures "page" !in params ==> ParsePage(params) == 1
    ensures ParsePage(params["page" := "-3"]) == 1
    ensures ParsePage(params["page" := Decimal(n)]) == n
  {
    ParseRejects();
    assert ParseU64("-3") == None by { assert !IsDigit("-3"[0]); }
    ParseDecimal(n);
  }

  // ------------------------------------------------------------- page index

  /** `page - 1` on `u64`: page 0 underflows, which panics in a debug build
      (the request dies) and wraps to `u64::MAX` in a release build. */
  function PageIndex(page: nat): (r: Option<nat>)
    ensures r.None? <==> page == 0
    ensures r.Some? ==> r.value + 1 == page
  {
    if page == 0 then None else Some(page - 1)
  }

  /** The page index as intended: page 1 is the floor, so 0 acts as 1. */
  function FlooredPageIndex(page: nat): (r: nat)
    ensures page >= 1 ==> Some(r) == PageIndex(page)
    ensures page == 0 ==> r == 0
  {
    if page == 0 then 0 else page - 1
  }

  /** `?page=0` reaches the subtraction: the written index computation has no
      value for it, while the floored one serves page 1. */
  lemma PageZeroUnderflows()
    ensures PageIndex(ParsePage(map["page" := "0"])) == None
    ensures FlooredPageIndex(ParsePage(map["page" := "0"])) == FlooredPageIndex(ParsePage(map[]))
  {
    DecimalValue(0);
    assert Decimal(0) == "0";
  }

  // --------------------------------------------------------------- metadata

  /** `u64::div_ceil`. */
  function DivCeil(n: nat, d: nat): nat
    requires d > 0
  {
    if n % d > 0 then n / d + 1 else n / d
  }

  /** `total_page` is the least number of pages of size `d` that hold `n` rows. */
  lemma DivCeilBounds(n: nat, d: nat)
    requires d > 0
    ensures DivCeil(n, d) * d >= n
    ensures n > 0 ==> (DivCeil(n, d) - 1) * d < n
    ensures DivCeil(n, d) == 0 <==> n == 0
  {
    var q, r := n / d, n % d;
    assert n == q * d + r;
    if r > 0 {
      assert (q + 1) * d == q * d + d;
    }
  }

  datatype Meta = Meta(count: nat, perPage: nat, totalPage: nat, currentUrl: Option<string>)

  datatype Listing<T> = Listing(meta: Meta, items: seq<T>)

  /** The `ResponseMetadata` of the task and user listings. */
  function ListMeta(count: nat, uri: string): (m: Meta)
    ensures m.count == count && m.perPage == PER_PAGE
    ensures m.totalPage == DivCeil(count, PER_PAGE)
    ensures m.totalPage * PER_PAGE >= count
    ensures count > 0 ==> (m.totalPage - 1) * PER_PAGE < count
    ensures m.currentUrl == Some(uri)
  {
    DivCeilBounds(count, PER_PAGE);
    Meta(count, PER_PAGE, DivCeil(count, PER_PAGE), Some(uri))
  }

  // --------------------------------------------------------------- ordering

  ghost predicate SortedDesc<T>(s: seq<T>, key: T -> int) {
    forall i, j :: 0 <= i < j < |s| ==> key(s[i]) >= key(s[j])
  }

  function Insert<T>(x: T, s: seq<T>, key: T -> int): seq<T> {
    if s == [] then [x]
    else if key(x) >= key(s[0]) then [x] + s
    else [s[0]] + Insert(x, s[1..], key)
  }

  /** `ORDER BY key DESC`; rows with equal keys stay in table order. */
  function SortDesc<T>(s: seq<T>, key: T -> int): seq<T> {
    if s == [] then [] else Insert(s[0], SortDesc(s[1..], key), key)
  }

  lemma {:induction false} InsertMultiset<T>(x: T, s: seq<T>, key: T -> int)
    ensures multiset(Insert(x, s, key)) == multiset(s) + multiset{x}
  {
    if s != [] && key(x) < key(s[0]) {
      InsertMultiset(x, s[1..], key);
      assert s == [s[0]] + s[1..];
    }
  }

  /** A row related to the first row of a sorted sequence can be put in front. */
  lemma ConsSorted<T>(h: T, s: seq<T>, key: T -> int)
    requires SortedDesc(s, key)
    requires s != [] ==> key(h) >= key(s[0])
    ensures SortedDesc([h] + s, key)
  {
    var r := [h] + s;
    forall i, j | 0 <= i < j < |r| ensures key(r[i]) >= key(r[j]) {
      assert r[j] == s[j - 1];
      if i > 0 { assert r[i] == s[i - 1]; } else if j > 1 { assert key(s[0]) >= key(s[j - 1]); }
    }
  }

  lemma TailSorted<T>(s: seq<T>, key: T -> int)
    requires SortedDesc(s, key) && s != []
    ensures SortedDesc(s[1..], key)
  {
    forall i, j | 0 <= i < j < |s| - 1 ensures key(s[1..][i]) >= key(s[1..][j]) {
      assert s[1..][i] == s[i + 1] && s[1..][j] == s[j + 1];
    }
  }

  lemma {:induction false} InsertSorted<T>(x: T, s: seq<T>, key: T -> int)
    requires SortedDesc(s, key)
    ensures SortedDesc(Insert(x, s, key), key)
    ensures Insert(x, s, key)[0] == x || (s != [] && Insert(x, s, key)[0] == s[0])
  {
    if s == [] {
    } else if key(x) >= key(s[0]) {
      ConsSorted(x, s, key);
    } else {
      TailSorted(s, key);
      InsertSorted(x, s[1..], key);
      var rest := Insert(x, s[1..], key);
      if rest[0] != x {
        assert rest[0] == s[1];
      }
      ConsSorted(s[0], rest, key);
    }
  }

  /** The ordering is a sorted permutation of the rows. */
  lemma {:induction false} SortDescCorrect<T>(s: seq<T>, key: T -> int)
    ensures SortedDesc(SortDesc(s, key), key)
    ensures multiset(SortDesc(s, key)) == multiset(s)
    ensures |SortDesc(s, key)| == |s|
  {
    if s != [] {
      SortDescCorrect(s[1..], key);
      InsertSorted(s[0], SortDesc(s[1..], key), key);
      InsertMultiset(s[0], SortDesc(s[1..], key), key);
      assert s == [s[0]] + s[1..];
    }
  }

  // ------------------------------------------------------------------ pages

  function Min(a: nat, b: nat): nat { if a <= b then a else b }

  /** `paginate(db, size).fetch_page(index)`: the rows at positions
      `size * index` up to `size * (index + 1) - 1`, cut at the end. */
  function FetchPage<T>(s: seq<T>, size: nat, index: nat): (r: seq<T>)
    ensures |r| <= size
    ensures forall k :: 0 <= k < |r| ==> size * index + k < |s| && r[k] == s[size * index + k]
    ensures size * index + size <= |s| ==> |r| == size
  {
    s[Min(size * index, |s|)..Min(size * index + size, |s|)]
  }

  /** A page index starts past the last row exactly when it is at least
      `total_page`. */
  lemma PageStartBound(n: nat, d: nat, i: nat)
    requires d > 0
    ensures i >= DivCeil(n, d) <==> d * i >= n
  {
    var q := DivCeil(n, d);
    DivCeilBounds(n, d);
    if i >= q {
      MulMonotone(d, q, i);
      assert d * q == q * d;
    } else {
      assert n > 0;
      MulMonotone(d, i, q - 1);
      assert d * (q - 1) == (q - 1) * d;
    }
  }

  /** A page past the last one is empty and every earlier page is not. */
  lemma PastLastPageEmpty<T>(s: seq<T>, size: nat, index: nat)
    requires size > 0
    ensures FetchPage(s, size, index) == [] <==> index >= DivCeil(|s|, size)
  {
    PageStartBound(|s|, size, index);
    var r := FetchPage(s, size, index);
    assert |r| == Min(size * index + size, |s|) - Min(size * index, |s|);
  }

  /** A page of an ordered listing is ordered and holds rows of the listing. */
  lemma PageOfSorted<T>(s: seq<T>, key: T -> int, size: nat, index: nat)
    requires SortedDesc(s, key)
    ensures SortedDesc(FetchPage(s, size, index), key)
    ensures forall k :: 0 <= k < |FetchPage(s, size, index)| ==> FetchPage(s, size, index)[k] in multiset(s)
  {
    var r := FetchPage(s, size, index);
    forall a, b | 0 <= a < b < |r| ensures key(r[a]) >= key(r[b]) {
      assert r[a] == s[size * index + a] && r[b] == s[size * index + b];
    }
  }

  lemma MulMonotone(a: nat, b: nat, c: nat)
    requires b <= c
    ensures a * b <= a * c
  {
    assert a * c == a * b + a * (c - b);
  }

  /** The first `n` pages, in order. */
  function PagesUpTo<T>(s: seq<T>, size: nat, n: nat): seq<T> {
    if n == 0 then [] else PagesUpTo(s, size, n - 1) + FetchPage(s, size, n - 1)
  }

  lemma {:induction false} PagesUpToPrefix<T>(s: seq<T>, size: nat, n: nat)
    ensures PagesUpTo(s, size, n) == s[..Min(size * n, |s|)]
  {
    if n > 0 {
      PagesUpToPrefix(s, size, n - 1);
      assert size * n == size * (n - 1) + size;
      var a := Min(size * (n - 1), |s|);
      var b := Min(size * n, |s|);
      assert s[..a] + s[a..b] == s[..b];
    }
  }

  /** Reading pages 1 to `total_page` in turn yields every row once, in order:
      no row is skipped or repeated. */
  lemma PagesCoverAll<T>(s: seq<T>, size: nat)
    requires size > 0
    ensures PagesUpTo(s, size, DivCeil(|s|, size)) == s
  {
    PagesUpToPrefix(s, size, DivCeil(|s|, size));
    DivCeilBounds(|s|, size);
    assert size * DivCeil(|s|, size) == DivCeil(|s|, size) * size;
  }
}
