/**
 * The aggregations of server/storage.ts: `getInventoryStats`, `getManufacturerStats` and the
 * in-memory `getLocationStats`, in the variants of the two stores. The database store's
 * location statistics are an accumulator loop and live in module LocationStats.
 */
module Stats {
  import opened Wrappers
  import opened Seqs
  import opened Items

  datatype InventoryStats = InventoryStats(
    total: nat,
    available: nat,
    inTransit: nat,
    maintenance: nat,
    reserved: nat,
    sold: nat,
    personal: nat,
    company: nat,
    usedPersonal: nat)

  /** The status and import-type counts over `s`, with the given total and sold counts. */
  function CountsOver(s: seq<Item>, total: nat, sold: nat): InventoryStats {
    InventoryStats(total,
      |Filter(s, IsAvailable)|, |Filter(s, IsInTransit)|, |Filter(s, IsUnderMaintenance)|,
      |Filter(s, IsReserved)|, sold,
      |Filter(s, IsPersonal)|, |Filter(s, IsCompany)|, |Filter(s, IsUsedPersonal)|)
  }

  /** In-memory `getInventoryStats`: every vehicle counts, sold or not. */
  function MemInventoryStats(items: seq<Item>): InventoryStats {
    CountsOver(items, |items|, |Filter(items, IsSoldItem)|)
  }

  /** Database `getInventoryStats`: only unsold vehicles count, except in `sold`. */
  function DbInventoryStats(items: seq<Item>): InventoryStats {
    var active := Filter(items, IsActive);
    CountsOver(active, |active|, |Filter(items, IsSoldItem)|)
  }

  /** The status counters and the import-type counters each add up to at most the total. */
  predicate CountersBounded(st: InventoryStats) {
    st.available + st.inTransit + st.maintenance + st.reserved <= st.total &&
    st.personal + st.company + st.usedPersonal <= st.total
  }

  lemma CountsOverBounded(s: seq<Item>, sold: nat)
    ensures CountersBounded(CountsOver(s, |s|, sold))
  {
    FilterDisjoint4(s, IsAvailable, IsInTransit, IsUnderMaintenance, IsReserved);
    FilterDisjoint3(s, IsPersonal, IsCompany, IsUsedPersonal);
  }

  /** In the database variant, unsold and sold vehicles together are all vehicles. */
  lemma DbInventoryStatsSound(items: seq<Item>)
    ensures DbInventoryStats(items).total + DbInventoryStats(items).sold == |items|
    ensures CountersBounded(DbInventoryStats(items))
  {
    FilterPartition(items, IsActive, IsSoldItem);
    CountsOverBounded(Filter(items, IsActive), |Filter(items, IsSoldItem)|);
  }

  /** In the in-memory variant, the sold count is part of the total. */
  lemma MemInventoryStatsSound(items: seq<Item>)
    ensures MemInventoryStats(items).sold <= MemInventoryStats(items).total
    ensures CountersBounded(MemInventoryStats(items))
  {
    CountsOverBounded(items, |Filter(items, IsSoldItem)|);
  }

  /**
   * The two variants differ exactly by the sold vehicles in the total; with nothing sold
   * they agree on every counter.
   */
  lemma InventoryStatsVariants(items: seq<Item>)
    ensures MemInventoryStats(items).total == DbInventoryStats(items).total + DbInventoryStats(items).sold
    ensures MemInventoryStats(items).sold == DbInventoryStats(items).sold
    ensures (forall x :: x in items ==> !x.isSold) ==> MemInventoryStats(items) == DbInventoryStats(items)
  {
    FilterPartition(items, IsActive, IsSoldItem);
    if forall x :: x in items ==> !x.isSold {
      FilterAll(items, IsActive);
    }
  }

  /** A sold vehicle whose status still reads available is available only to the in-memory count. */
  lemma SoldAvailableCountedByMemOnly(x: Item)
    requires x.isSold && x.status == Available
    ensures MemInventoryStats([x]).available == 1 && MemInventoryStats([x]).total == 1
    ensures DbInventoryStats([x]).available == 0 && DbInventoryStats([x]).total == 0
  {
    FilterSnoc([], x, IsAvailable);
    FilterSnoc([], x, IsActive);
  }

  datatype ManufacturerStat = ManufacturerStat(
    manufacturer: string,
    total: nat,
    personal: nat,
    company: nat,
    usedPersonal: nat,
    logo: Option<string>)

  /** `makers.find(m => m.name === name)`. */
  function FindManufacturer(makers: seq<Manufacturer>, name: string): (r: Option<Manufacturer>)
    ensures r.Some? ==> r.value in makers && r.value.name == name
    ensures r.None? <==> forall m :: m in makers ==> m.name != name
  {
    if makers == [] then None
    else if makers[0].name == name then Some(makers[0])
    else FindManufacturer(makers[1..], name)
  }

  /** The record found is the first one with the name. */
  lemma {:induction false} FindManufacturerFirst(makers: seq<Manufacturer>, name: string, i: nat)
    requires i < |makers| && makers[i].name == name
    requires forall j :: 0 <= j < i ==> makers[j].name != name
    ensures FindManufacturer(makers, name) == Some(makers[i])
  {
    if i > 0 {
      FindManufacturerFirst(makers[1..], name, i - 1);
    }
  }

  /** `entity?.logo || null`. */
  function LogoFor(makers: seq<Manufacturer>, name: string): Option<string> {
    match FindManufacturer(makers, name)
    case Some(m) => OrNull(m.logo)
    case None => None
  }

  /** The entry of one manufacturer over the counted vehicles `active`. */
  function StatFor(active: seq<Item>, makers: seq<Manufacturer>, name: string): ManufacturerStat {
    var g := Select(active, ManufacturerOf, name);
    ManufacturerStat(name, |g|, |Filter(g, IsPersonal)|, |Filter(g, IsCompany)|,
                     |Filter(g, IsUsedPersonal)|, LogoFor(makers, name))
  }

  /** `names.map(name => StatFor(name))`. */
  function StatsFor(active: seq<Item>, makers: seq<Manufacturer>, names: seq<string>): (r: seq<ManufacturerStat>)
    ensures |r| == |names|
    ensures forall i :: 0 <= i < |names| ==> r[i] == StatFor(active, makers, names[i])
  {
    if names == [] then [] else [StatFor(active, makers, names[0])] + StatsFor(active, makers, names[1..])
  }

  /** One entry per distinct manufacturer of `active`, in order of first appearance. */
  function ManufacturerStatsOf(active: seq<Item>, makers: seq<Manufacturer>): seq<ManufacturerStat> {
    StatsFor(active, makers, DistinctKeys(active, ManufacturerOf))
  }

  /** In-memory `getManufacturerStats`: sold is read off the status. */
  function MemManufacturerStats(items: seq<Item>, makers: seq<Manufacturer>): seq<ManufacturerStat> {
    ManufacturerStatsOf(Filter(items, StatusIsNotSold), makers)
  }

  /** Database `getManufacturerStats`: sold is read off the flag. */
  function DbManufacturerStats(items: seq<Item>, makers: seq<Manufacturer>): seq<ManufacturerStat> {
    ManufacturerStatsOf(Filter(items, IsActive), makers)
  }

  function SumTotals(stats: seq<ManufacturerStat>): nat {
    if stats == [] then 0 else stats[0].total + SumTotals(stats[1..])
  }

  lemma {:induction false} SumTotalsStatsFor(active: seq<Item>, makers: seq<Manufacturer>, names: seq<string>)
    ensures SumTotals(StatsFor(active, makers, names)) == SumGroupSizes(active, ManufacturerOf, names)
    decreases |names|
  {
    if names != [] {
      var r := StatsFor(active, makers, names);
      assert r[1..] == StatsFor(active, makers, names[1..]);
      SumTotalsStatsFor(active, makers, names[1..]);
    }
  }

  /**
   * The manufacturer entries: one per manufacturer of a counted vehicle and no other, none
   * empty, each with import-type counts within its total, and totals adding up to the number
   * of counted vehicles.
   */
  lemma ManufacturerStatsSound(active: seq<Item>, makers: seq<Manufacturer>)
    ensures var r := ManufacturerStatsOf(active, makers);
      (forall i, j :: 0 <= i < j < |r| ==> r[i].manufacturer != r[j].manufacturer) &&
      (forall x :: x in active ==> exists i :: 0 <= i < |r| && r[i].manufacturer == x.manufacturer) &&
      (forall i :: 0 <= i < |r| ==> 0 < r[i].total) &&
      (forall i :: 0 <= i < |r| ==> r[i].personal + r[i].company + r[i].usedPersonal <= r[i].total) &&
      SumTotals(r) == |active|
  {
    var names := DistinctKeys(active, ManufacturerOf);
    var r := ManufacturerStatsOf(active, makers);
    forall x | x in active
      ensures exists i :: 0 <= i < |r| && r[i].manufacturer == x.manufacturer
    {
      assert ManufacturerOf(x) in names;
      var i :| 0 <= i < |names| && names[i] == ManufacturerOf(x);
      assert r[i].manufacturer == x.manufacturer;
    }
    forall i | 0 <= i < |r|
      ensures 0 < r[i].total && r[i].personal + r[i].company + r[i].usedPersonal <= r[i].total
    {
      SelectNonEmpty(active, ManufacturerOf, names[i]);
      FilterDisjoint3(Select(active, ManufacturerOf, names[i]), IsPersonal, IsCompany, IsUsedPersonal);
    }
    SumTotalsStatsFor(active, makers, names);
    GroupsCoverAll(active, ManufacturerOf);
  }

  /** The database manufacturer totals add up to the database inventory total. */
  lemma DbManufacturerTotalsMatch(items: seq<Item>, makers: seq<Manufacturer>)
    ensures SumTotals(DbManufacturerStats(items, makers)) == DbInventoryStats(items).total
  {
    ManufacturerStatsSound(Filter(items, IsActive), makers);
  }

  /** Where the sold flag and the sold status agree, the two variants agree. */
  lemma ManufacturerStatsVariants(items: seq<Item>, makers: seq<Manufacturer>)
    requires forall x :: x in items ==> (x.isSold <==> x.status == Sold)
    ensures MemManufacturerStats(items, makers) == DbManufacturerStats(items, makers)
  {
    FilterCongruent(items, StatusIsNotSold, IsActive);
  }

  /** A vehicle flagged sold whose status was never changed still counts in memory. */
  lemma SoldFlagIgnoredByMem(x: Item, makers: seq<Manufacturer>)
    requires x.isSold && x.status != Sold
    ensures |MemManufacturerStats([x], makers)| == 1 && MemManufacturerStats([x], makers)[0].total == 1
    ensures DbManufacturerStats([x], makers) == []
  {
    FilterSnoc([], x, StatusIsNotSold);
    FilterSnoc([], x, IsActive);
    DistinctKeysSnoc([], x, ManufacturerOf);
    SelectSnoc([], x, ManufacturerOf, x.manufacturer);
  }

  datatype LocationStat = LocationStat(
    location: string,
    total: nat,
    available: nat,
    inTransit: nat,
    maintenance: nat,
    sold: nat)

  /**
   * The in-memory entry of one location: independent counts over its vehicles, with the
   * maintenance status spelled "صيانة".
   */
  function MemLocationStatFor(items: seq<Item>, loc: string): LocationStat {
    var g := Select(items, LocationOf, loc);
    LocationStat(loc, |g|, |Filter(g, IsAvailable)|, |Filter(g, IsInTransit)|,
                 |Filter(g, IsShortMaintenance)|, |Filter(g, IsSoldItem)|)
  }

  function MemLocationStatsFor(items: seq<Item>, locs: seq<string>): (r: seq<LocationStat>)
    ensures |r| == |locs|
    ensures forall i :: 0 <= i < |locs| ==> r[i] == MemLocationStatFor(items, locs[i])
  {
    if locs == [] then [] else [MemLocationStatFor(items, locs[0])] + MemLocationStatsFor(items, locs[1..])
  }

  /** In-memory `getLocationStats`: one entry per distinct location, in order of first appearance. */
  function MemLocationStats(items: seq<Item>): seq<LocationStat> {
    MemLocationStatsFor(items, DistinctKeys(items, LocationOf))
  }

  function SumLocationTotals(stats: seq<LocationStat>): nat {
    if stats == [] then 0 else stats[0].total + SumLocationTotals(stats[1..])
  }

  lemma {:induction false} SumLocationTotalsFor(items: seq<Item>, locs: seq<string>)
    ensures SumLocationTotals(MemLocationStatsFor(items, locs)) == SumGroupSizes(items, LocationOf, locs)
    decreases |locs|
  {
    if locs != [] {
      var r := MemLocationStatsFor(items, locs);
      assert r[1..] == MemLocationStatsFor(items, locs[1..]);
      SumLocationTotalsFor(items, locs[1..]);
    }
  }

  /**
   * In-memory location entries: distinct locations covering every vehicle, status counts within
   * each total, sold within each total, and totals adding up to the number of vehicles.
   */
  lemma MemLocationStatsSound(items: seq<Item>)
    ensures var r := MemLocationStats(items);
      (forall i, j :: 0 <= i < j < |r| ==> r[i].location != r[j].location) &&
      (forall x :: x in items ==> exists i :: 0 <= i < |r| && r[i].location == x.location) &&
      (forall i :: 0 <= i < |r| ==> r[i].available + r[i].inTransit + r[i].maintenance <= r[i].total) &&
      (forall i :: 0 <= i < |r| ==> r[i].sold <= r[i].total) &&
      SumLocationTotals(r) == |items|
  {
    var locs := DistinctKeys(items, LocationOf);
    var r := MemLocationStats(items);
    forall x | x in items
      ensures exists i :: 0 <= i < |r| && r[i].location == x.location
    {
      assert LocationOf(x) in locs;
      var i :| 0 <= i < |locs| && locs[i] == LocationOf(x);
      assert r[i].location == x.location;
    }
    forall i | 0 <= i < |r|
      ensures r[i].available + r[i].inTransit + r[i].maintenance <= r[i].total
    {
      FilterDisjoint3(Select(items, LocationOf, locs[i]), IsAvailable, IsInTransit, IsShortMaintenance);
    }
    SumLocationTotalsFor(items, locs);
    GroupsCoverAll(items, LocationOf);
  }

  /** A vehicle under maintenance, spelled as every other count spells it, is not counted in memory. */
  lemma MemMaintenanceSpelling(x: Item)
    requires x.status == UnderMaintenance
    ensures MemLocationStats([x]) == [LocationStat(x.location, 1, 0, 0, 0, if x.isSold then 1 else 0)]
  {
    assert [] + [x] == [x];
    DistinctKeysSnoc([], x, LocationOf);
    assert DistinctKeys([x], LocationOf) == [x.location];
    SelectSnoc([], x, LocationOf, x.location);
    assert Select([x], LocationOf, x.location) == [x];
    assert !IsAvailable(x) && !IsInTransit(x) && !IsShortMaintenance(x);
    FilterSnoc([], x, IsAvailable);
    FilterSnoc([], x, IsInTransit);
    FilterSnoc([], x, IsShortMaintenance);
    FilterSnoc([], x, IsSoldItem);
    assert MemLocationStatFor([x], x.location) == LocationStat(x.location, 1, 0, 0, 0, if x.isSold then 1 else 0);
  }
}
