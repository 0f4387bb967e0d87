/**
 * The redesigned card view (client/src/pages/card-view-new.tsx:41-73, 199, 285): sold vehicles
 * are hidden, the rest are grouped by manufacturer into records that carry a logo slot, each
 * group shows how many of its vehicles are available, and a status picks a badge style.
 */
module CardViewNew {
  import opened Wrappers
  import opened Seqs
  import opened Items
  import opened Stats
  import CardView

  /** `inventoryData.filter(item => !item.isSold)`. */
  function AvailableItems(items: seq<Item>): seq<Item> {
    Filter(items, IsActive)
  }

  /** The shown list holds exactly the unsold vehicles, and in input order. */
  lemma AvailableItemsExact(items: seq<Item>, rest: seq<Item>)
    ensures forall x :: x in AvailableItems(items) <==> x in items && !x.isSold
    ensures AvailableItems(items + rest) == AvailableItems(items) + AvailableItems(rest)
  {
    FilterAppend(items, rest, IsActive);
  }

  /** One entry of `groupedData`: the vehicles and the logo slot, created as `null`. */
  datatype Group = Group(items: seq<Item>, logo: Option<string>)

  /**
   * The `groupedData` reduce over the unsold vehicles. It pushes onto per-manufacturer
   * accumulators exactly as the older page does, so the scan is that page's grouping loop, and
   * each accumulator is wrapped in a record whose logo is `null`.
   */
  method GroupAvailable(items: seq<Item>) returns (keys: seq<string>, groups: map<string, Group>)
    ensures keys == DistinctKeys(AvailableItems(items), ManufacturerOf)
    ensures forall k :: k in groups <==> k in keys
    ensures forall k :: k in groups ==>
      groups[k] == Group(Select(AvailableItems(items), ManufacturerOf, k), None)
  {
    var byMaker: map<string, seq<Item>>;
    keys, byMaker := CardView.GroupByManufacturer(AvailableItems(items));
    groups := map k | k in byMaker :: Group(byMaker[k], None);
  }

  /**
   * A group holds the unsold vehicles of its manufacturer and nothing else, is never empty, and
   * a sold vehicle is in no group.
   */
  lemma GroupsHoldUnsold(items: seq<Item>, k: string)
    ensures forall x :: x in Select(AvailableItems(items), ManufacturerOf, k) <==>
      x in items && !x.isSold && x.manufacturer == k
    ensures k in DistinctKeys(AvailableItems(items), ManufacturerOf) ==>
      |Select(AvailableItems(items), ManufacturerOf, k)| > 0
  {
    if k in DistinctKeys(AvailableItems(items), ManufacturerOf) {
      SelectNonEmpty(AvailableItems(items), ManufacturerOf, k);
    }
  }

  /**
   * The empty state is shown exactly when `groupedData` has no keys, which is exactly when
   * every vehicle is sold.
   */
  predicate ShowsEmptyState(items: seq<Item>) {
    DistinctKeys(AvailableItems(items), ManufacturerOf) == []
  }

  lemma EmptyStateIff(items: seq<Item>)
    ensures ShowsEmptyState(items) <==> forall x :: x in items ==> x.isSold
  {
    var avail := AvailableItems(items);
    if !ShowsEmptyState(items) {
      var k := DistinctKeys(avail, ManufacturerOf)[0];
      assert k in DistinctKeys(avail, ManufacturerOf);
      var x :| x in avail && ManufacturerOf(x) == k;
      assert x in items && !x.isSold;
    }
    if exists x :: x in items && !x.isSold {
      var x :| x in items && !x.isSold;
      assert x in avail;
      assert ManufacturerOf(x) in DistinctKeys(avail, ManufacturerOf);
    }
  }

  /**
   * `getManufacturerLogo`: `find` the first statistics entry for the name and read its logo.
   * `None` is JavaScript's `undefined` (no entry); `Some(logo)` is the entry's logo, itself
   * possibly `null`.
   */
  function ManufacturerLogo(stats: seq<ManufacturerStat>, name: string): (r: Option<Option<string>>)
    ensures r.None? <==> forall s :: s in stats ==> s.manufacturer != name
    ensures r.Some? ==> exists s :: s in stats && s.manufacturer == name && s.logo == r.value
  {
    if stats == [] then None
    else if stats[0].manufacturer == name then Some(stats[0].logo)
    else ManufacturerLogo(stats[1..], name)
  }

  /** The logo reported is the one of the first entry with the name. */
  lemma {:induction false} ManufacturerLogoFirst(stats: seq<ManufacturerStat>, name: string, i: nat)
    requires i < |stats| && stats[i].manufacturer == name
    requires forall j :: 0 <= j < i ==> stats[j].manufacturer != name
    ensures ManufacturerLogo(stats, name) == Some(stats[i].logo)
  {
    if i > 0 {
      ManufacturerLogoFirst(stats[1..], name, i - 1);
    }
  }

  /** The badge styles of this page. */
  const GreenBadge: string := "bg-green-100 text-green-800 border-green-200"
  const BlueBadge: string := "bg-blue-100 text-blue-800 border-blue-200"
  const YellowBadge: string := "bg-yellow-100 text-yellow-800 border-yellow-200"
  const SlateBadge: string := "bg-slate-100 text-slate-800 border-slate-200"

  /** `getStatusColor` of this page. */
  function StatusColor(status: string): string {
    if status == Available then GreenBadge
    else if status == InTransit then BlueBadge
    else if status == UnderMaintenance then YellowBadge
    else SlateBadge
  }

  /**
   * The three known statuses get three different styles, and exactly the other statuses
   * (reserved, sold, anything else) fall back to the slate style.
   */
  lemma StatusColorCases(status: string)
    ensures StatusColor(Available) == GreenBadge
    ensures StatusColor(InTransit) == BlueBadge
    ensures StatusColor(UnderMaintenance) == YellowBadge
    ensures StatusColor(status) == SlateBadge <==>
      status != Available && status != InTransit && status != UnderMaintenance
  {
  }

  /** The second badge of a group: `data.items.filter(item => item.status === "متوفر").length`. */
  function AvailableBadge(g: Group): (n: nat)
    ensures n <= |g.items|
  {
    |Filter(g.items, IsAvailable)|
  }

  /**
   * The available badge of a manufacturer's group counts its unsold vehicles whose status is
   * "available", so it never exceeds the first badge, the group size.
   */
  lemma AvailableBadgeCounts(items: seq<Item>, k: string)
    ensures var g := Group(Select(AvailableItems(items), ManufacturerOf, k), None);
      AvailableBadge(g) <= |g.items| &&
      forall x :: x in Filter(g.items, IsAvailable) <==>
        x in items && !x.isSold && x.manufacturer == k && x.status == Available
  {
  }
}
