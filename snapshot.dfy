/** The farm.army position snapshot of `src/main.rs` and the rule that turns
    it into one output row per farm. */
module Snapshot {
  import opened Wrappers

  datatype FarmDetails = FarmDetails(id: string, name: string, provider: string)

  /** A token amount with its USD value when the aggregator knows it. */
  datatype FarmValue = FarmValue(symbol: string, amount: real, usd: Option<real>)

  datatype Farm = Farm(farm: FarmDetails, rewards: seq<FarmValue>, deposit: FarmValue, icon: string, farmRewards: real)

  /** `label` is a Dafny keyword, so the field is `labelText`. */
  datatype Platform = Platform(id: string, labelText: string, url: string, icon: string, token: string,
                               tokenPrice: real, name: string, farms: seq<Farm>)

  datatype FarmResponse = FarmResponse(platforms: seq<Platform>)

  /** One line of `farm_yield.csv`, fields in column order. `date` is the
      cycle's RFC 3339 timestamp, kept as opaque text. */
  datatype Row = Row(farmId: string, date: string, tokenDeposit: real, usdValue: real, usdReward: real)

  /** Name of the farm the aggregator cannot price. */
  const BeltFarmName: string := "4BELT"

  /** USD value of a farm's deposit: for the 4BELT farm the deposit amount
      at the 4Belt price, replacing whatever the snapshot says; for every
      other farm the snapshot's value, 0 when absent. */
  function UsdValue(farm: Farm, beltPrice: real): (v: real)
    ensures farm.farm.name == BeltFarmName ==> v == farm.deposit.amount * beltPrice
    ensures farm.farm.name != BeltFarmName && farm.deposit.usd.Some? ==> v == farm.deposit.usd.value
    ensures farm.farm.name != BeltFarmName && farm.deposit.usd.None? ==> v == 0.0
  {
    var usd := if farm.farm.name == BeltFarmName then Some(farm.deposit.amount * beltPrice) else farm.deposit.usd;
    usd.UnwrapOr(0.0)
  }

  /** The row written for one farm. */
  function FarmRow(farm: Farm, beltPrice: real, date: string): (r: Row)
    ensures r.farmId == farm.farm.id && r.date == date
    ensures r.tokenDeposit == farm.deposit.amount && r.usdReward == farm.farmRewards
    ensures r.usdValue == UsdValue(farm, beltPrice)
  {
    Row(farm.farm.id, date, farm.deposit.amount, UsdValue(farm, beltPrice), farm.farmRewards)
  }

  /** The rows of `farms`, one per farm, in order. */
  function FarmRows(farms: seq<Farm>, beltPrice: real, date: string): (rows: seq<Row>)
    ensures |rows| == |farms|
    ensures forall k {:trigger rows[k]} :: 0 <= k < |farms| ==> rows[k] == FarmRow(farms[k], beltPrice, date)
  {
    if |farms| == 0 then [] else [FarmRow(farms[0], beltPrice, date)] + FarmRows(farms[1..], beltPrice, date)
  }

  /** Number of farms over all platforms, the sum of their `farms.len()`. */
  function FarmCount(platforms: seq<Platform>): (n: nat)
    ensures forall i {:trigger platforms[i].farms} :: 0 <= i < |platforms| ==> |platforms[i].farms| <= n
    ensures n == 0 <==> forall i {:trigger platforms[i].farms} :: 0 <= i < |platforms| ==> |platforms[i].farms| == 0
  {
    if |platforms| == 0 then 0
    else
      assert forall i :: 1 <= i < |platforms| ==> platforms[1..][i - 1] == platforms[i];
      |platforms[0].farms| + FarmCount(platforms[1..])
  }

  /** Every farm of every platform, platform by platform, each platform's
      farms in their own order. */
  function FarmsInOrder(platforms: seq<Platform>): (farms: seq<Farm>)
    ensures |farms| == FarmCount(platforms)
  {
    if |platforms| == 0 then [] else platforms[0].farms + FarmsInOrder(platforms[1..])
  }

  /** What one successful cycle produces from a snapshot: one row per farm,
      every row stamped with the cycle's single date. */
  function Reconcile(platforms: seq<Platform>, beltPrice: real, date: string): (rows: seq<Row>)
    ensures |rows| == FarmCount(platforms)
    ensures forall k {:trigger rows[k]} :: 0 <= k < |rows| ==> rows[k].date == date
  {
    FarmRows(FarmsInOrder(platforms), beltPrice, date)
  }

  lemma FarmRowsAppend(a: seq<Farm>, b: seq<Farm>, beltPrice: real, date: string)
    ensures FarmRows(a + b, beltPrice, date) == FarmRows(a, beltPrice, date) + FarmRows(b, beltPrice, date)
  {
  }

  /** One more farm adds its row at the end. */
  lemma FarmRowsSnoc(farms: seq<Farm>, j: nat, beltPrice: real, date: string)
    requires j < |farms|
    ensures FarmRows(farms[..j + 1], beltPrice, date) == FarmRows(farms[..j], beltPrice, date) + [FarmRow(farms[j], beltPrice, date)]
  {
    assert farms[..j + 1] == farms[..j] + [farms[j]];
    FarmRowsAppend(farms[..j], [farms[j]], beltPrice, date);
  }

  lemma {:induction false} FarmsInOrderAppend(ps: seq<Platform>, p: Platform)
    ensures FarmsInOrder(ps + [p]) == FarmsInOrder(ps) + p.farms
  {
    if |ps| > 0 {
      assert (ps + [p])[1..] == ps[1..] + [p];
      FarmsInOrderAppend(ps[1..], p);
    } else {
      assert ps + [p] == [p];
      assert [p][1..] == [];
    }
  }

  /** Reconciling one platform more appends that platform's rows. */
  lemma ReconcileStep(ps: seq<Platform>, p: Platform, beltPrice: real, date: string)
    ensures Reconcile(ps + [p], beltPrice, date) == Reconcile(ps, beltPrice, date) + FarmRows(p.farms, beltPrice, date)
  {
    FarmsInOrderAppend(ps, p);
    FarmRowsAppend(FarmsInOrder(ps), p.farms, beltPrice, date);
  }

  /** The same step, over prefixes of one list of platforms. */
  lemma ReconcileSnoc(ps: seq<Platform>, i: nat, beltPrice: real, date: string)
    requires i < |ps|
    ensures Reconcile(ps[..i + 1], beltPrice, date) == Reconcile(ps[..i], beltPrice, date) + FarmRows(ps[i].farms, beltPrice, date)
  {
    assert ps[..i + 1] == ps[..i] + [ps[i]];
    ReconcileStep(ps[..i], ps[i], beltPrice, date);
  }

  /** Traversal order: farm `f` of platform `p` sits right after the farms
      of the platforms before `p` and the farms before `f` on `p`. */
  lemma {:induction false} FarmsInOrderAt(ps: seq<Platform>, p: nat, f: nat)
    requires p < |ps| && f < |ps[p].farms|
    ensures FarmCount(ps[..p]) + f < FarmCount(ps)
    ensures FarmsInOrder(ps)[FarmCount(ps[..p]) + f] == ps[p].farms[f]
  {
    if p > 0 {
      assert ps[1..][..p - 1] == ps[..p][1..];
      assert ps[..p][0] == ps[0];
      FarmsInOrderAt(ps[1..], p - 1, f);
      assert FarmCount(ps[..p]) == |ps[0].farms| + FarmCount(ps[1..][..p - 1]);
      assert FarmsInOrder(ps) == ps[0].farms + FarmsInOrder(ps[1..]);
    } else {
      assert ps[..0] == [];
    }
  }

  /** The row of farm `f` of platform `p` is that farm's row and sits at
      its traversal position. */
  lemma ReconcileAt(ps: seq<Platform>, beltPrice: real, date: string, p: nat, f: nat)
    requires p < |ps| && f < |ps[p].farms|
    ensures FarmCount(ps[..p]) + f < |Reconcile(ps, beltPrice, date)|
    ensures Reconcile(ps, beltPrice, date)[FarmCount(ps[..p]) + f] == FarmRow(ps[p].farms[f], beltPrice, date)
  {
    FarmsInOrderAt(ps, p, f);
  }

  /** The 4Belt price can only change the usd_value of 4BELT rows; every
      other field of every row, and every field of the other rows, stay put. */
  lemma PriceOnlyMovesBeltRows(ps: seq<Platform>, p1: real, p2: real, date: string)
    ensures |Reconcile(ps, p1, date)| == |Reconcile(ps, p2, date)|
    ensures forall k :: 0 <= k < |Reconcile(ps, p1, date)| ==>
      var r1, r2 := Reconcile(ps, p1, date)[k], Reconcile(ps, p2, date)[k];
      r1.farmId == r2.farmId && r1.date == r2.date && r1.tokenDeposit == r2.tokenDeposit && r1.usdReward == r2.usdReward &&
      (FarmsInOrder(ps)[k].farm.name != BeltFarmName ==> r1.usdValue == r2.usdValue)
  {
  }

  /** For the 4BELT farm the snapshot's own USD value is discarded, not merged. */
  lemma BeltOverrideIgnoresSnapshotUsd(farm: Farm, usd: Option<real>, beltPrice: real, date: string)
    requires farm.farm.name == BeltFarmName
    ensures FarmRow(farm.(deposit := farm.deposit.(usd := usd)), beltPrice, date) == FarmRow(farm, beltPrice, date)
  {
  }
}
