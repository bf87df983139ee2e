/** One pass of the sampling loop in `main` (`src/main.rs`): resolve the 4Belt
    price with its fallback, fetch the snapshot, and append one row per farm. */
module Watcher {
  import opened Wrappers
  import opened Transport
  import opened Belt
  import opened Snapshot
  import opened Store

  /** Price used when `get_price` fails. */
  const PriceFallback: real := 1.0

  /** `belt::get_price().await.unwrap_or(1)`: the looked-up price, or 1 when
      the listing failed or holds no pool entry. */
  function CyclePrice(listing: Fetched<seq<BeltEntry>>, parse: string -> Option<real>): (p: real)
    ensures PriceOf(listing, parse).Ok? ==> p == PriceOf(listing, parse).value
    ensures listing.Err? ==> p == PriceFallback
    ensures listing.Ok? && FirstPoolEntry(listing.value).None? ==> p == PriceFallback
  {
    PriceOf(listing, parse).UnwrapOr(PriceFallback)
  }

  /** The rows one cycle appends: none when the snapshot fetch or decode
      failed, otherwise one per farm of the snapshot, all with the cycle's date. */
  function CycleRows(listing: Fetched<seq<BeltEntry>>, snapshot: Fetched<FarmResponse>,
                     parse: string -> Option<real>, date: string): (rows: seq<Row>)
    ensures snapshot.Err? ==> rows == []
    ensures snapshot.Ok? ==> |rows| == FarmCount(snapshot.value.platforms)
    ensures forall k {:trigger rows[k]} :: 0 <= k < |rows| ==> rows[k].date == date
  {
    match snapshot
    case Err(_) => []
    case Ok(response) => Reconcile(response.platforms, CyclePrice(listing, parse), date)
  }

  /** The body of `main`'s loop. `date` is `now.to_rfc3339()` for the `now`
      captured at the top of the cycle; `listing` and `snapshot` are the
      outcomes of the two fetches; `parse` is `str::parse::<f64>`. */
  method RunCycle(wtr: CsvWriter, date: string, listing: Fetched<seq<BeltEntry>>,
                  snapshot: Fetched<FarmResponse>, parse: string -> Option<real>)
    requires wtr.Valid()
    modifies wtr
    ensures wtr.Valid()
    ensures wtr.initial == old(wtr.initial) && wtr.created == old(wtr.created)
    ensures wtr.rows == old(wtr.rows) + CycleRows(listing, snapshot, parse, date)
    ensures old(wtr.lines) <= wtr.lines
  {
    var priceResult := GetPrice(listing, parse);
    var beltPrice := priceResult.UnwrapOr(PriceFallback);
    if snapshot.Ok? {
      var platforms := snapshot.value.platforms;
      var i := 0;
      while i < |platforms|
        invariant 0 <= i <= |platforms|
        invariant wtr.Valid()
        invariant wtr.initial == old(wtr.initial) && wtr.created == old(wtr.created)
        invariant wtr.rows == old(wtr.rows) + Reconcile(platforms[..i], beltPrice, date)
        invariant old(wtr.lines) <= wtr.lines
      {
        ghost var done := wtr.rows;
        SerializeFarms(wtr, platforms[i].farms, beltPrice, date);
        ReconcilePrefixStep(old(wtr.rows), done, wtr.rows, platforms, i, beltPrice, date);
        i := i + 1;
      }
      assert platforms[..i] == platforms;
    }
  }

  /** After platform `i`'s farms are serialized, the rows written this cycle
      are those of platforms `0..i`. */
  lemma ReconcilePrefixStep(start: seq<Row>, done: seq<Row>, after: seq<Row>, ps: seq<Platform>, i: nat,
                            beltPrice: real, date: string)
    requires i < |ps|
    requires done == start + Reconcile(ps[..i], beltPrice, date)
    requires after == done + FarmRows(ps[i].farms, beltPrice, date)
    ensures after == start + Reconcile(ps[..i + 1], beltPrice, date)
  {
    ReconcileSnoc(ps, i, beltPrice, date);
  }

  /** The inner `for farm in farms` loop: one serialized row per farm. */
  method SerializeFarms(wtr: CsvWriter, farms: seq<Farm>, beltPrice: real, date: string)
    requires wtr.Valid()
    modifies wtr
    ensures wtr.Valid()
    ensures wtr.initial == old(wtr.initial) && wtr.created == old(wtr.created)
    ensures wtr.rows == old(wtr.rows) + FarmRows(farms, beltPrice, date)
    ensures old(wtr.lines) <= wtr.lines
  {
    var j := 0;
    while j < |farms|
      invariant 0 <= j <= |farms|
      invariant wtr.Valid()
      invariant wtr.initial == old(wtr.initial) && wtr.created == old(wtr.created)
      invariant wtr.rows == old(wtr.rows) + FarmRows(farms[..j], beltPrice, date)
      invariant old(wtr.lines) <= wtr.lines
    {
      var row := FarmRow(farms[j], beltPrice, date);
      FarmRowsSnoc(farms, j, beltPrice, date);
      wtr.Serialize(row);
      j := j + 1;
    }
    assert farms[..j] == farms;
  }

  /** A failed price lookup still yields a usable price and the cycle goes on:
      the snapshot's farms are reconciled at price 1. */
  lemma PriceFailureFallsBack(listing: Fetched<seq<BeltEntry>>, response: FarmResponse,
                              parse: string -> Option<real>, date: string)
    requires PriceOf(listing, parse).Err?
    ensures CycleRows(listing, Ok(response), parse, date) == Reconcile(response.platforms, PriceFallback, date)
  {
  }

  /** A listing that quotes the pool LP at "1.23" among other entries. */
  lemma ScenarioListedPrice(other: BeltEntry, parse: string -> Option<real>)
    requires other.ticker != PoolTicker
    requires parse("1.23") == Some(1.23)
    ensures CyclePrice(Ok([other, BeltEntry("4Belt", PoolTicker, "0x", "img", "1.23")]), parse) == 1.23
  {
    assert FirstPoolEntry([other, BeltEntry("4Belt", PoolTicker, "0x", "img", "1.23")]) == Some(1);
  }

  /** One platform with a single 4BELT farm of 100 tokens and no snapshot USD
      value, at price 2: the row values the deposit at 200. */
  lemma ScenarioBeltFarm(listing: Fetched<seq<BeltEntry>>, parse: string -> Option<real>, date: string)
    requires CyclePrice(listing, parse) == 2.0
    ensures
      var farm := Farm(FarmDetails("belt-1", BeltFarmName, "belt"), [], FarmValue("4BELT", 100.0, None), "", 5.0);
      var platform := Platform("belt", "Belt", "", "", "", 0.0, "Belt", [farm]);
      CycleRows(listing, Ok(FarmResponse([platform])), parse, date) == [Row("belt-1", date, 100.0, 200.0, 5.0)]
  {
  }

  /** A farm other than 4BELT keeps the snapshot's USD value whatever the price. */
  lemma ScenarioOtherFarm(listing: Fetched<seq<BeltEntry>>, parse: string -> Option<real>, date: string)
    ensures
      var farm := Farm(FarmDetails("other-1", "OtherFarm", "x"), [], FarmValue("X", 50.0, Some(75.5)), "", 1.2);
      var platform := Platform("x", "X", "", "", "", 0.0, "X", [farm]);
      CycleRows(listing, Ok(FarmResponse([platform])), parse, date) == [Row("other-1", date, 50.0, 75.5, 1.2)]
  {
  }
}
