/** The pure parts of the product controller (pkg/controllers/product.go):
    which fields an update request sets, how a price is written, and the
    skip offset of the two paginated listings. */
module ProductController {
  import opened Base

  /** Bytes in the UTF-8 encoding of one character. */
  function Utf8Width(c: char): (w: nat)
    ensures 1 <= w <= 4
  {
    if c as int < 0x80 then 1
    else if c as int < 0x800 then 2
    else if c as int < 0x10000 then 3
    else 4
  }

  /** Go's `len` of a string: its length in UTF-8 bytes. */
  function Utf8Len(s: string): (n: nat)
    ensures |s| <= n <= 4 * |s|
    ensures n == |s| <==> forall k :: 0 <= k < |s| ==> s[k] as int < 0x80
  {
    if s == [] then 0 else Utf8Width(s[0]) + Utf8Len(s[1..])
  }

  function DigitChar(d: nat): (c: char)
    requires d < 10
    ensures '0' <= c <= '9'
  {
    "0123456789"[d]
  }

  function DigitValue(c: char): nat {
    if '0' <= c <= '9' then (c as int - '0' as int) as nat else 0
  }

  /** The decimal digits of n, most significant first, with no leading zero. */
  function Digits(n: nat): (s: string)
    ensures |s| >= 1
    ensures forall k :: 0 <= k < |s| ==> '0' <= s[k] <= '9'
    ensures s[0] == '0' ==> n == 0
    decreases n
  {
    if n < 10 then [DigitChar(n)] else Digits(n / 10) + [DigitChar(n % 10)]
  }

  /** `fmt.Sprint` of an integer: its decimal form, with a minus sign when
      negative. */
  function DecimalString(n: int): string {
    if n < 0 then "-" + Digits(-n) else Digits(n)
  }

  /** The value of a string of decimal digits. */
  function ParseDigits(s: string): nat {
    if s == [] then 0 else ParseDigits(s[..|s| - 1]) * 10 + DigitValue(s[|s| - 1])
  }

  function ParseDecimal(s: string): int {
    if |s| > 0 && s[0] == '-' then -(ParseDigits(s[1..]) as int) else ParseDigits(s)
  }

  lemma {:induction false} DigitsRoundTrip(n: nat)
    ensures ParseDigits(Digits(n)) == n
    decreases n
  {
    var s := Digits(n);
    if n < 10 {
      assert s[..|s| - 1] == [];
      assert DigitValue(DigitChar(n)) == n by {
        assert DigitChar(n) as int == '0' as int + n;
      }
    } else {
      DigitsRoundTrip(n / 10);
      assert s[..|s| - 1] == Digits(n / 10);
      assert DigitValue(DigitChar(n % 10)) == n % 10 by {
        assert DigitChar(n % 10) as int == '0' as int + n % 10;
      }
    }
  }

  /** The price written by an update reads back as the same integer. */
  lemma DecimalStringRoundTrip(n: int)
    ensures ParseDecimal(DecimalString(n)) == n
  {
    if n < 0 {
      var d := Digits(-n);
      DigitsRoundTrip(-n);
      var s := "-" + d;
      assert s[0] == '-' && s[1..] == d;
      assert ParseDecimal(s) == -(ParseDigits(d) as int);
    } else {
      var d := Digits(n);
      DigitsRoundTrip(n);
      assert '0' <= d[0] <= '9';
      assert ParseDecimal(d) == ParseDigits(d);
    }
  }

  /** The `$set` documents UpdateProduct can send. */
  datatype ProductUpdate =
    | SetBoth(description: string, price: string)
    | SetDescription(description: string)
    | SetPrice(price: string)

  function DescriptionSet(u: ProductUpdate): Option<string> {
    if u.SetPrice? then None else Some(u.description)
  }

  function PriceSet(u: ProductUpdate): Option<string> {
    if u.SetDescription? then None else Some(u.price)
  }

  const NothingToUpdate: string := "please provide a field to update"

  /** UpdateProduct's field selection: a description counts as provided when
      it is longer than one byte, a price when it is greater than 1. */
  function SelectUpdate(description: string, price: int): (r: Result<ProductUpdate, string>)
    ensures r.Err? <==> Utf8Len(description) <= 1 && price <= 1
    ensures r.Err? ==> r.error == NothingToUpdate
    ensures r.Ok? ==>
      && (DescriptionSet(r.value).Some? <==> Utf8Len(description) > 1)
      && (DescriptionSet(r.value).Some? ==> DescriptionSet(r.value).value == description)
      && (PriceSet(r.value).Some? <==> price > 1)
      && (PriceSet(r.value).Some? ==> ParseDecimal(PriceSet(r.value).value) == price)
    ensures r.Ok? && PriceSet(r.value).Some? ==> PriceSet(r.value).value == DecimalString(price)
  {
    var priceText := DecimalString(price);
    DecimalStringRoundTrip(price);
    if Utf8Len(description) > 1 && price > 1 then Ok(SetBoth(description, priceText))
    else if Utf8Len(description) > 1 then Ok(SetDescription(description))
    else if price > 1 then Ok(SetPrice(priceText))
    else Err(NothingToUpdate)
  }

  /** A price of 1 and a one-byte description are both "not provided". */
  lemma PriceOneAndOneByteDescriptionRefused()
    ensures SelectUpdate("x", 1) == Err(NothingToUpdate)
    ensures SelectUpdate("", 1).Err?
  {
  }

  /** The length is counted in bytes: a single two-byte character is a
      description long enough to be set. */
  lemma TwoByteCharacterIsProvided()
    ensures SelectUpdate("é", 0) == Ok(SetDescription("é"))
  {
    assert Utf8Len("é") == 2;
  }

  /** skip := (page - 1) * limit, in wrapping int64 arithmetic. */
  function Skip(page: int, limit: int): (r: int)
    requires IsInt64(page) && IsInt64(limit)
    ensures IsInt64(r)
    ensures IsInt64((page - 1) * limit) ==> r == (page - 1) * limit
  {
    Wrap64(Wrap64(page - 1) * limit)
  }

  lemma FirstPageSkipsNothing(limit: int)
    requires IsInt64(limit)
    ensures Skip(1, limit) == 0
  {
  }

  /** For a positive limit and no overflow, the offset is non-negative
      exactly from page 1 on; with limit 0 it is always 0. */
  lemma SkipNonNegativeIffFirstPageOrLater(page: int, limit: int)
    requires IsInt64(page) && IsInt64(limit) && limit >= 0
    requires IsInt64((page - 1) * limit)
    ensures limit > 0 ==> (Skip(page, limit) >= 0 <==> page >= 1)
    ensures limit == 0 ==> Skip(page, limit) == 0
  {
    if limit > 0 && page < 1 {
      assert (page - 1) * limit <= -limit;
    }
    if limit > 0 && page >= 1 {
      assert (page - 1) * limit >= 0;
    }
  }

  /** Consecutive pages are `limit` documents apart. */
  lemma NextPageAdvancesByLimit(page: int, limit: int)
    requires IsInt64(page) && IsInt64(page + 1) && IsInt64(limit)
    requires IsInt64((page - 1) * limit) && IsInt64(page * limit)
    ensures Skip(page + 1, limit) == Skip(page, limit) + limit
  {
    assert page * limit == (page - 1) * limit + limit;
  }

  /** A very large page number wraps the product to a negative offset. */
  lemma HugePageWrapsNegative()
    ensures Skip(MaxInt64, 2) == -4
  {
    assert Wrap64(MaxInt64 - 1) == MaxInt64 - 1;
    assert Wrap64((MaxInt64 - 1) * 2) == (MaxInt64 - 1) * 2 - TwoTo64;
  }
}
