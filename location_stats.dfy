/**
 * The database store's `getLocationStats` (server/storage.ts:672-718): one pass over the rows
 * that keeps a `Map` from location to counters, creating an entry the first time a location is
 * seen and then adding one to its total and to at most one sub-counter, the sold flag first.
 */
module LocationStats {
  import opened Seqs
  import opened Items
  import opened Stats

  /** The counters kept per location. */
  datatype Tally = Tally(total: nat, available: nat, inTransit: nat, maintenance: nat, sold: nat)

  const Zero: Tally := Tally(0, 0, 0, 0, 0)

  /** One vehicle's contribution to its location's counters. */
  function Bump(t: Tally, item: Item): Tally {
    var t1 := t.(total := t.total + 1);
    if item.isSold then t1.(sold := t.sold + 1)
    else if item.status == Available then t1.(available := t.available + 1)
    else if item.status == InTransit then t1.(inTransit := t.inTransit + 1)
    else if item.status == UnderMaintenance then t1.(maintenance := t.maintenance + 1)
    else t1
  }

  /** The counters of location `loc` once `items` have been scanned in order. */
  function TallyOf(items: seq<Item>, loc: string): Tally
    decreases |items|
  {
    if items == [] then Zero
    else
      var init, last := items[..|items| - 1], items[|items| - 1];
      var t := TallyOf(init, loc);
      if last.location == loc then Bump(t, last) else t
  }

  lemma TallyOfSnoc(items: seq<Item>, x: Item, loc: string)
    ensures TallyOf(items + [x], loc) == if x.location == loc then Bump(TallyOf(items, loc), x) else TallyOf(items, loc)
  {
    assert (items + [x])[..|items|] == items;
  }

  /** The `{ location, ...stats }` entry of the result. */
  function Entry(loc: string, t: Tally): LocationStat {
    LocationStat(loc, t.total, t.available, t.inTransit, t.maintenance, t.sold)
  }

  function EntriesFor(items: seq<Item>, locs: seq<string>): (r: seq<LocationStat>)
    ensures |r| == |locs|
    ensures forall i :: 0 <= i < |locs| ==> r[i] == Entry(locs[i], TallyOf(items, locs[i]))
  {
    if locs == [] then [] else [Entry(locs[0], TallyOf(items, locs[0]))] + EntriesFor(items, locs[1..])
  }

  /** What the database `getLocationStats` returns: the map's entries in insertion order. */
  function DbLocationStats(items: seq<Item>): seq<LocationStat> {
    EntriesFor(items, DistinctKeys(items, LocationOf))
  }

  /** A location no vehicle has keeps zero counters. */
  lemma {:induction false} TallyOfAbsent(items: seq<Item>, loc: string)
    requires forall x :: x in items ==> x.location != loc
    ensures TallyOf(items, loc) == Zero
    decreases |items|
  {
    if items != [] {
      var init := items[..|items| - 1];
      assert items == init + [items[|items| - 1]];
      TallyOfAbsent(init, loc);
    }
  }

  /** `keys` and `stats` are the insertion order and the contents of the map after scanning `prefix`. */
  ghost predicate Scanned(prefix: seq<Item>, keys: seq<string>, stats: map<string, Tally>) {
    keys == DistinctKeys(prefix, LocationOf) &&
    (forall k :: k in stats <==> k in keys) &&
    (forall k :: k in stats ==> stats[k] == TallyOf(prefix, k))
  }

  /**
   * One step of the scan keeps `Scanned`, for the prefix one vehicle longer: a location met for
   * the first time gets zero counters and its key, then its counters are bumped.
   */
  lemma ScannedStep(items: seq<Item>, i: nat, keys: seq<string>, stats: map<string, Tally>,
                    keys': seq<string>, stats': map<string, Tally>)
    requires i < |items| && Scanned(items[..i], keys, stats)
    requires var loc := items[i].location;
      if loc in stats then keys' == keys && stats' == stats[loc := Bump(stats[loc], items[i])]
      else keys' == keys + [loc] && stats' == stats[loc := Zero][loc := Bump(stats[loc := Zero][loc], items[i])]
    ensures Scanned(items[..i + 1], keys', stats')
  {
    var prefix, item := items[..i], items[i];
    var loc := item.location;
    var before := if loc in stats then stats[loc] else Zero;
    BumpedEntry(stats, loc, item, stats');
    assert items[..i + 1] == prefix + [item];
    ScannedSnoc(prefix, item, keys, stats, keys', before);
  }

  /** Creating zero counters and then bumping them is bumping zero counters. */
  lemma BumpedEntry(stats: map<string, Tally>, loc: string, item: Item, stats': map<string, Tally>)
    requires if loc in stats then stats' == stats[loc := Bump(stats[loc], item)]
      else stats' == stats[loc := Zero][loc := Bump(stats[loc := Zero][loc], item)]
    ensures stats' == stats[loc := Bump(if loc in stats then stats[loc] else Zero, item)]
  {
  }

  lemma ScannedSnoc(prefix: seq<Item>, item: Item, keys: seq<string>, stats: map<string, Tally>,
                    keys': seq<string>, before: Tally)
    requires Scanned(prefix, keys, stats)
    requires keys' == if item.location in stats then keys else keys + [item.location]
    requires before == if item.location in stats then stats[item.location] else Zero
    ensures Scanned(prefix + [item], keys', stats[item.location := Bump(before, item)])
  {
    var loc := item.location;
    assert keys' == DistinctKeys(prefix + [item], LocationOf) by {
      DistinctKeysSnoc(prefix, item, LocationOf);
    }
    if loc !in stats {
      assert loc !in keys;
      TallyOfAbsent(prefix, loc);
    }
    StepTallies(prefix, item, stats, before);
  }

  lemma StepTallies(prefix: seq<Item>, item: Item, stats: map<string, Tally>, before: Tally)
    requires forall k :: k in stats ==> stats[k] == TallyOf(prefix, k)
    requires before == TallyOf(prefix, item.location)
    ensures var stats' := stats[item.location := Bump(before, item)];
      forall k :: k in stats' ==> stats'[k] == TallyOf(prefix + [item], k)
  {
    var stats' := stats[item.location := Bump(before, item)];
    forall k | k in stats'
      ensures stats'[k] == TallyOf(prefix + [item], k)
    {
      TallyOfSnoc(prefix, item, k);
    }
  }

  /** The scan, written as the accumulator loop of the source. */
  method ComputeLocationStats(items: seq<Item>) returns (r: seq<LocationStat>)
    ensures r == DbLocationStats(items)
  {
    var keys: seq<string> := [];
    var stats: map<string, Tally> := map[];
    var i := 0;
    assert items[..0] == [];
    while i < |items|
      invariant 0 <= i <= |items|
      invariant Scanned(items[..i], keys, stats)
    {
      var item := items[i];
      ghost var keys0, stats0 := keys, stats;
      if item.location !in stats {
        stats := stats[item.location := Zero];
        keys := keys + [item.location];
      }
      stats := stats[item.location := Bump(stats[item.location], item)];
      ScannedStep(items, i, keys0, stats0, keys, stats);
      i := i + 1;
    }
    ScannedEntries(items, keys, stats);
    r := seq(|keys|, j requires 0 <= j < |keys| => Entry(keys[j], stats[keys[j]]));
  }

  lemma ScannedEntries(items: seq<Item>, keys: seq<string>, stats: map<string, Tally>)
    requires Scanned(items[..|items|], keys, stats)
    ensures forall k :: k in keys ==> k in stats
    ensures seq(|keys|, j requires 0 <= j < |keys| && keys[j] in stats => Entry(keys[j], stats[keys[j]]))
         == DbLocationStats(items)
  {
    assert items[..|items|] == items;
  }

  /** Not sold, and with the status the counter names. */
  predicate UnsoldAvailable(x: Item) { !x.isSold && x.status == Available }
  predicate UnsoldInTransit(x: Item) { !x.isSold && x.status == InTransit }
  predicate UnsoldUnderMaintenance(x: Item) { !x.isSold && x.status == UnderMaintenance }

  /**
   * The counters in closed form: the total counts the location's vehicles, `sold` the sold ones,
   * and each status counter the unsold ones with that status.
   */
  lemma {:induction false} TallyOfCounts(items: seq<Item>, loc: string)
    ensures var g := Select(items, LocationOf, loc);
      TallyOf(items, loc) == Tally(|g|, |Filter(g, UnsoldAvailable)|, |Filter(g, UnsoldInTransit)|,
                                   |Filter(g, UnsoldUnderMaintenance)|, |Filter(g, IsSoldItem)|)
    decreases |items|
  {
    if items != [] {
      var init, last := items[..|items| - 1], items[|items| - 1];
      assert items == init + [last];
      TallyOfCounts(init, loc);
      TallyOfSnoc(init, last, loc);
      SelectSnoc(init, last, LocationOf, loc);
      var g := Select(init, LocationOf, loc);
      if last.location == loc {
        assert Select(items, LocationOf, loc) == g + [last];
        ClosedFormSnoc(g, last, TallyOf(init, loc));
      } else {
        assert Select(items, LocationOf, loc) == g;
      }
    }
  }

  /** Bumping the closed-form counters of a group by one more vehicle gives those of the longer group. */
  lemma ClosedFormSnoc(g: seq<Item>, x: Item, t: Tally)
    requires t == Tally(|g|, |Filter(g, UnsoldAvailable)|, |Filter(g, UnsoldInTransit)|,
                        |Filter(g, UnsoldUnderMaintenance)|, |Filter(g, IsSoldItem)|)
    ensures Bump(t, x) == Tally(|g + [x]|, |Filter(g + [x], UnsoldAvailable)|,
      |Filter(g + [x], UnsoldInTransit)|, |Filter(g + [x], UnsoldUnderMaintenance)|,
      |Filter(g + [x], IsSoldItem)|)
  {
    FilterSnoc(g, x, UnsoldAvailable);
    FilterSnoc(g, x, UnsoldInTransit);
    FilterSnoc(g, x, UnsoldUnderMaintenance);
    FilterSnoc(g, x, IsSoldItem);
    BumpCounts(t, x);
  }

  lemma BumpCounts(t: Tally, x: Item)
    ensures Bump(t, x) == Tally(t.total + 1,
      t.available + (if UnsoldAvailable(x) then 1 else 0),
      t.inTransit + (if UnsoldInTransit(x) then 1 else 0),
      t.maintenance + (if UnsoldUnderMaintenance(x) then 1 else 0),
      t.sold + (if IsSoldItem(x) then 1 else 0))
  {
  }

  /** Every vehicle adds one to the total and at most one to a sub-counter. */
  lemma {:induction false} TallyOfBounded(items: seq<Item>, loc: string)
    ensures var t := TallyOf(items, loc);
      t.available + t.inTransit + t.maintenance + t.sold <= t.total
    decreases |items|
  {
    if items != [] {
      var init := items[..|items| - 1];
      assert items == init + [items[|items| - 1]];
      TallyOfBounded(init, loc);
    }
  }

  function SumEntryTotals(stats: seq<LocationStat>): nat {
    if stats == [] then 0 else stats[0].total + SumEntryTotals(stats[1..])
  }

  lemma {:induction false} SumEntryTotalsFor(items: seq<Item>, locs: seq<string>)
    ensures SumEntryTotals(EntriesFor(items, locs)) == SumGroupSizes(items, LocationOf, locs)
    decreases |locs|
  {
    if locs != [] {
      var r := EntriesFor(items, locs);
      assert r[1..] == EntriesFor(items, locs[1..]);
      TallyOfCounts(items, locs[0]);
      SumEntryTotalsFor(items, locs[1..]);
    }
  }

  /**
   * The database location entries: distinct locations covering every vehicle, the four
   * sub-counts of an entry adding up to at most its total, and the totals adding up to the
   * number of vehicles.
   */
  lemma DbLocationStatsSound(items: seq<Item>)
    ensures var r := DbLocationStats(items);
      (forall i, j :: 0 <= i < j < |r| ==> r[i].location != r[j].location) &&
      (forall x :: x in items ==> exists i :: 0 <= i < |r| && r[i].location == x.location) &&
      (forall i :: 0 <= i < |r| ==> r[i].available + r[i].inTransit + r[i].maintenance + r[i].sold <= r[i].total) &&
      SumEntryTotals(r) == |items|
  {
    var locs := DistinctKeys(items, LocationOf);
    var r := DbLocationStats(items);
    forall x | x in items
      ensures exists i :: 0 <= i < |r| && r[i].location == x.location
    {
      assert LocationOf(x) in locs;
      var i :| 0 <= i < |locs| && locs[i] == LocationOf(x);
      assert r[i].location == x.location;
    }
    forall i | 0 <= i < |r|
      ensures r[i].available + r[i].inTransit + r[i].maintenance + r[i].sold <= r[i].total
    {
      TallyOfBounded(items, locs[i]);
    }
    SumEntryTotalsFor(items, locs);
    GroupsCoverAll(items, LocationOf);
  }

  /**
   * The two stores list the same locations in the same order with the same totals and sold
   * counts; they differ in the status counters.
   */
  lemma LocationStatsVariants(items: seq<Item>)
    ensures |DbLocationStats(items)| == |MemLocationStats(items)|
    ensures forall i :: 0 <= i < |DbLocationStats(items)| ==>
      DbLocationStats(items)[i].location == MemLocationStats(items)[i].location &&
      DbLocationStats(items)[i].total == MemLocationStats(items)[i].total &&
      DbLocationStats(items)[i].sold == MemLocationStats(items)[i].sold
  {
    var locs := DistinctKeys(items, LocationOf);
    forall i | 0 <= i < |locs| {
      TallyOfCounts(items, locs[i]);
    }
  }

  /** A sold vehicle counts as sold only, whatever its status says. */
  lemma SoldTakesPrecedence(x: Item)
    requires x.isSold
    ensures DbLocationStats([x]) == [LocationStat(x.location, 1, 0, 0, 0, 1)]
  {
    assert [] + [x] == [x];
    DistinctKeysSnoc([], x, LocationOf);
    TallyOfSnoc([], x, x.location);
  }
}
