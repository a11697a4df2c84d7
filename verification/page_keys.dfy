/**
 * The key function handed to the paged fetcher (index.tsx:41-47): for the
 * 0-based index of the page wanted and the page fetched before it, either
 * the address `url?page=N` with N = index + 1, or no address (end of data).
 */
module PageKeys {
  import opened Wrappers
  import opened Media

  const PageParam: string := "?page="

  predicate IsDigits(s: string) {
    forall i :: 0 <= i < |s| ==> '0' <= s[i] <= '9'
  }

  function Digit(d: nat): (c: char)
    requires d < 10
    ensures '0' <= c <= '9'
  {
    ('0' as int + d) as char
  }

  /** The decimal text of a number, as a template literal renders an integer. */
  function Decimal(n: nat): (s: string)
    ensures |s| > 0 && IsDigits(s)
    ensures |s| > 1 ==> s[0] != '0'
    decreases n
  {
    if n < 10 then [Digit(n)] else Decimal(n / 10) + [Digit(n % 10)]
  }

  /** Reads a run of decimal digits back as a number. */
  function ParseDecimal(s: string): nat
    requires IsDigits(s)
    decreases |s|
  {
    if s == [] then 0
    else ParseDecimal(s[..|s| - 1]) * 10 + (s[|s| - 1] as int - '0' as int)
  }

  lemma {:induction false} DecimalRoundTrip(n: nat)
    ensures ParseDecimal(Decimal(n)) == n
    decreases n
  {
    if n >= 10 {
      DecimalRoundTrip(n / 10);
      var s := Decimal(n);
      assert s[..|s| - 1] == Decimal(n / 10);
    }
  }

  /** The page number a key addresses, as the listing endpoint reads `url?page=N`. */
  function PageOf(url: string, key: string): Option<nat> {
    var prefix := url + PageParam;
    if |prefix| < |key| && key[..|prefix|] == prefix && IsDigits(key[|prefix|..])
    then Some(ParseDecimal(key[|prefix|..]))
    else None
  }

  /**
   * The key rule: no address when a previous page is known and reports
   * fewer total pages than the page number wanted; otherwise the address of
   * page index + 1.
   */
  function PageKey(url: string, pageIndex: nat, previous: Option<Page>): (key: Option<string>)
    ensures key.None? <==> previous.Some? && previous.value.totalPages < pageIndex + 1
    ensures key.Some? ==> PageOf(url, key.value) == Some(pageIndex + 1)
  {
    if previous.Some? && pageIndex + 1 > previous.value.totalPages then None
    else
      var digits := Decimal(pageIndex + 1);
      var key := url + PageParam + digits;
      assert key[..|url + PageParam|] == url + PageParam;
      assert key[|url + PageParam|..] == digits;
      DecimalRoundTrip(pageIndex + 1);
      Some(key)
  }

  /** The first page is always requested, at `url?page=1`. */
  lemma FirstPageRequested(url: string)
    ensures PageKey(url, 0, None) == Some(url + "?page=1")
  {
    assert Digit(1) == '1';
    assert Decimal(1) == "1";
    assert PageKey(url, 0, None) == Some(url + PageParam + Decimal(1));
    assert url + PageParam + "1" == url + "?page=1";
  }

  /** Two page indices that both yield an address yield different addresses: no page is fetched twice. */
  lemma PageKeysDistinct(url: string, i: nat, p: Option<Page>, j: nat, q: Option<Page>)
    requires PageKey(url, i, p).Some? && PageKey(url, i, p) == PageKey(url, j, q)
    ensures i == j
  {
  }
}
