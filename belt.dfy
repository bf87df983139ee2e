/** The 4Belt price lookup of `src/belt.rs`: scan the decoded token listing
    and take the price of the first entry carrying the pool's LP ticker. */
module Belt {
  import opened Wrappers
  import opened Transport

  /** One element of the decoded `A_beltTokenList.json` array. The price is
      decimal text; turning it into a number is the caller-supplied `parse`. */
  datatype BeltEntry = BeltEntry(name: string, ticker: string, address: string, img: string, price: string)

  /** Ticker of the entry whose price is wanted. */
  const PoolTicker: string := "4BELTPOOLLP"

  /** Price used when the matching entry's price text does not parse. */
  const ParseFallback: real := 1.0

  /** The single error value `get_price` returns, whatever went wrong. */
  const PriceError: string := "Can't retrieve 4belt price"

  predicate IsPoolEntry(e: BeltEntry) {
    e.ticker == PoolTicker
  }

  /** Index of the first pool entry of `entries`, if any. */
  function FirstPoolEntry(entries: seq<BeltEntry>): (r: Option<nat>)
    ensures r.Some? ==> r.value < |entries| && IsPoolEntry(entries[r.value])
    ensures r.Some? ==> forall j :: 0 <= j < r.value ==> !IsPoolEntry(entries[j])
    ensures r.None? <==> forall j :: 0 <= j < |entries| ==> !IsPoolEntry(entries[j])
  {
    if |entries| == 0 then None
    else if IsPoolEntry(entries[0]) then Some(0)
    else match FirstPoolEntry(entries[1..])
      case Some(k) => Some(k + 1)
      case None => None
  }

  /** `price.parse::<f64>().unwrap_or(1.0)`. */
  function ParsePrice(text: string, parse: string -> Option<real>): (p: real)
    ensures parse(text).Some? ==> p == parse(text).value
    ensures parse(text).None? ==> p == ParseFallback
  {
    parse(text).UnwrapOr(ParseFallback)
  }

  /** What `get_price` returns for a given fetch-and-decode outcome. */
  function PriceOf(listing: Fetched<seq<BeltEntry>>, parse: string -> Option<real>): (r: Result<real, string>)
    ensures r.Ok? <==> listing.Ok? && exists i :: 0 <= i < |listing.value| && IsPoolEntry(listing.value[i])
    ensures r.Ok? ==> r.value == ParsePrice(listing.value[FirstPoolEntry(listing.value).value].price, parse)
    ensures r.Err? ==> r.error == PriceError
  {
    match listing
    case Err(_) => Err(PriceError)
    case Ok(entries) =>
      match FirstPoolEntry(entries)
      case Some(i) => Ok(ParsePrice(entries[i].price, parse))
      case None => Err(PriceError)
  }

  /** `get_price`: the caller has already performed the request and the decode;
      the method scans the entries in order and returns at the first match. */
  method GetPrice(listing: Fetched<seq<BeltEntry>>, parse: string -> Option<real>) returns (r: Result<real, string>)
    ensures r == PriceOf(listing, parse)
    ensures listing.Err? ==> r == Err(PriceError)
    ensures r.Ok? <==> listing.Ok? && exists i :: 0 <= i < |listing.value| && IsPoolEntry(listing.value[i])
    ensures r.Ok? ==> exists i :: 0 <= i < |listing.value| && IsPoolEntry(listing.value[i])
                                && (forall j :: 0 <= j < i ==> !IsPoolEntry(listing.value[j]))
                                && r.value == ParsePrice(listing.value[i].price, parse)
    ensures r.Err? ==> r.error == PriceError
  {
    match listing {
      case Err(_) =>
        // the request or the decode failed; `get_price` logs it and falls through to the error
        r := Err(PriceError);
      case Ok(entries) =>
        var i := 0;
        while i < |entries|
          invariant 0 <= i <= |entries|
          invariant forall j :: 0 <= j < i ==> !IsPoolEntry(entries[j])
        {
          if entries[i].ticker == PoolTicker {
            assert FirstPoolEntry(entries) == Some(i);
            return Ok(ParsePrice(entries[i].price, parse));
          }
          i := i + 1;
        }
        r := Err(PriceError);
    }
  }

  /** Entries after the first match never change the answer. */
  lemma {:induction false} LaterEntriesIgnored(entries: seq<BeltEntry>, later: seq<BeltEntry>, parse: string -> Option<real>)
    requires exists i :: 0 <= i < |entries| && IsPoolEntry(entries[i])
    ensures PriceOf(Ok(entries + later), parse) == PriceOf(Ok(entries), parse)
  {
    var k := FirstPoolEntry(entries).value;
    assert (entries + later)[k] == entries[k];
    assert forall j :: 0 <= j < k ==> (entries + later)[j] == entries[j];
    assert FirstPoolEntry(entries + later) == Some(k);
  }

  /** Entries before the first match that are not pool entries change nothing either. */
  lemma EarlierOtherEntriesSkipped(earlier: seq<BeltEntry>, entries: seq<BeltEntry>, parse: string -> Option<real>)
    requires forall j :: 0 <= j < |earlier| ==> !IsPoolEntry(earlier[j])
    ensures PriceOf(Ok(earlier + entries), parse) == PriceOf(Ok(entries), parse)
  {
    var all := earlier + entries;
    assert forall j :: 0 <= j < |entries| ==> all[|earlier| + j] == entries[j];
    match FirstPoolEntry(entries)
    case Some(k) =>
      assert IsPoolEntry(all[|earlier| + k]);
      assert forall j :: 0 <= j < |earlier| + k ==> !IsPoolEntry(all[j]) by {
        forall j | 0 <= j < |earlier| + k ensures !IsPoolEntry(all[j]) {
          if j >= |earlier| { assert all[j] == entries[j - |earlier|]; }
        }
      }
      assert FirstPoolEntry(all) == Some(|earlier| + k);
    case None =>
      assert forall j :: 0 <= j < |all| ==> !IsPoolEntry(all[j]) by {
        forall j | 0 <= j < |all| ensures !IsPoolEntry(all[j]) {
          if j >= |earlier| { assert all[j] == entries[j - |earlier|]; }
        }
      }
  }

  /** An unparsable price of the selected entry is not an error. */
  lemma UnparsablePriceFallsBack(entries: seq<BeltEntry>, parse: string -> Option<real>, i: nat)
    requires i < |entries| && IsPoolEntry(entries[i])
    requires forall j :: 0 <= j < i ==> !IsPoolEntry(entries[j])
    requires parse(entries[i].price).None?
    ensures PriceOf(Ok(entries), parse) == Ok(ParseFallback)
  {
  }
}
