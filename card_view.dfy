/**
 * The card view page (client/src/pages/card-view.tsx:19-36): the vehicles grouped by
 * manufacturer in a record filled by a `reduce`, and the set of expanded manufacturers that a
 * click toggles.
 */
module CardView {
  import opened Seqs
  import opened Items

  /**
   * `keys` and `groups` are the key order and the contents of the accumulator record after
   * `prefix`: one group per manufacturer seen, holding its vehicles in order.
   */
  ghost predicate Grouped(prefix: seq<Item>, keys: seq<string>, groups: map<string, seq<Item>>) {
    keys == DistinctKeys(prefix, ManufacturerOf) &&
    (forall k :: k in groups <==> k in keys) &&
    (forall k :: k in groups ==> groups[k] == Select(prefix, ManufacturerOf, k))
  }

  /**
   * One step of the reduce keeps `Grouped`, for the prefix one vehicle longer: a manufacturer
   * met for the first time is given an empty group and its key, then the vehicle is pushed.
   */
  lemma GroupedStep(items: seq<Item>, i: nat, keys: seq<string>, groups: map<string, seq<Item>>,
                    keys': seq<string>, groups': map<string, seq<Item>>)
    requires i < |items| && Grouped(items[..i], keys, groups)
    requires var m := items[i].manufacturer;
      if m in groups then keys' == keys && groups' == groups[m := groups[m] + [items[i]]]
      else keys' == keys + [m] && groups' == groups[m := []][m := groups[m := []][m] + [items[i]]]
    ensures Grouped(items[..i + 1], keys', groups')
  {
    var prefix, item := items[..i], items[i];
    var m := item.manufacturer;
    var before := if m in groups then groups[m] else [];
    PushedGroup(groups, m, item, groups');
    assert items[..i + 1] == prefix + [item];
    GroupedSnoc(prefix, item, keys, groups, keys', before);
  }

  /** Creating an empty group and then pushing is pushing onto an empty group. */
  lemma PushedGroup(groups: map<string, seq<Item>>, m: string, item: Item, groups': map<string, seq<Item>>)
    requires if m in groups then groups' == groups[m := groups[m] + [item]]
      else groups' == groups[m := []][m := groups[m := []][m] + [item]]
    ensures groups' == groups[m := (if m in groups then groups[m] else []) + [item]]
  {
  }

  lemma GroupedSnoc(prefix: seq<Item>, item: Item, keys: seq<string>, groups: map<string, seq<Item>>,
                    keys': seq<string>, before: seq<Item>)
    requires Grouped(prefix, keys, groups)
    requires keys' == if item.manufacturer in groups then keys else keys + [item.manufacturer]
    requires before == if item.manufacturer in groups then groups[item.manufacturer] else []
    ensures Grouped(prefix + [item], keys', groups[item.manufacturer := before + [item]])
  {
    var m := item.manufacturer;
    StepKeys(prefix, item, keys, m in groups, keys');
    if m !in groups {
      SelectAbsent(prefix, m);
    }
    StepGroups(prefix, item, groups, before);
  }

  lemma StepKeys(prefix: seq<Item>, item: Item, keys: seq<string>, seen: bool, keys': seq<string>)
    requires keys == DistinctKeys(prefix, ManufacturerOf)
    requires seen <==> item.manufacturer in keys
    requires keys' == if seen then keys else keys + [item.manufacturer]
    ensures keys' == DistinctKeys(prefix + [item], ManufacturerOf)
  {
    DistinctKeysSnoc(prefix, item, ManufacturerOf);
  }

  lemma SelectAbsent(prefix: seq<Item>, m: string)
    requires m !in DistinctKeys(prefix, ManufacturerOf)
    ensures Select(prefix, ManufacturerOf, m) == []
  {
    if Select(prefix, ManufacturerOf, m) != [] {
      assert Select(prefix, ManufacturerOf, m)[0] in Select(prefix, ManufacturerOf, m);
    }
  }

  lemma StepGroups(prefix: seq<Item>, item: Item, groups: map<string, seq<Item>>, before: seq<Item>)
    requires forall k :: k in groups ==> groups[k] == Select(prefix, ManufacturerOf, k)
    requires before == Select(prefix, ManufacturerOf, item.manufacturer)
    ensures var groups' := groups[item.manufacturer := before + [item]];
      forall k :: k in groups' ==> groups'[k] == Select(prefix + [item], ManufacturerOf, k)
  {
    var groups' := groups[item.manufacturer := before + [item]];
    forall k | k in groups'
      ensures groups'[k] == Select(prefix + [item], ManufacturerOf, k)
    {
      SelectSnoc(prefix, item, ManufacturerOf, k);
    }
  }

  /** The `groupedItems` reduce: create a group on a manufacturer's first vehicle, then push. */
  method GroupByManufacturer(items: seq<Item>) returns (keys: seq<string>, groups: map<string, seq<Item>>)
    ensures keys == DistinctKeys(items, ManufacturerOf)
    ensures forall k :: k in groups <==> k in keys
    ensures forall k :: k in groups ==> groups[k] == Select(items, ManufacturerOf, k)
  {
    keys, groups := [], map[];
    var i := 0;
    assert items[..0] == [];
    while i < |items|
      invariant 0 <= i <= |items|
      invariant Grouped(items[..i], keys, groups)
    {
      var item := items[i];
      ghost var keys0, groups0 := keys, groups;
      if item.manufacturer !in groups {
        groups := groups[item.manufacturer := []];
        keys := keys + [item.manufacturer];
      }
      groups := groups[item.manufacturer := groups[item.manufacturer] + [item]];
      GroupedStep(items, i, keys0, groups0, keys, groups);
      i := i + 1;
    }
    GroupedAll(items, keys, groups);
  }

  lemma GroupedAll(items: seq<Item>, keys: seq<string>, groups: map<string, seq<Item>>)
    requires Grouped(items[..|items|], keys, groups)
    ensures Grouped(items, keys, groups)
  {
    assert items[..|items|] == items;
  }

  /**
   * Every vehicle is in the group of its manufacturer and in no other; no group is empty; and
   * the group sizes add up to the number of vehicles.
   */
  lemma GroupingPartitions(items: seq<Item>)
    ensures var keys := DistinctKeys(items, ManufacturerOf);
      (forall x :: x in items ==> x.manufacturer in keys && x in Select(items, ManufacturerOf, x.manufacturer)) &&
      (forall x, k :: x in items && k != x.manufacturer ==> x !in Select(items, ManufacturerOf, k)) &&
      (forall k :: k in keys ==> |Select(items, ManufacturerOf, k)| > 0) &&
      SumGroupSizes(items, ManufacturerOf, keys) == |items|
  {
    var keys := DistinctKeys(items, ManufacturerOf);
    forall k | k in keys ensures |Select(items, ManufacturerOf, k)| > 0 {
      SelectNonEmpty(items, ManufacturerOf, k);
    }
    assert forall x :: x in items ==> ManufacturerOf(x) in keys;
    GroupsCoverAll(items, ManufacturerOf);
  }

  /** A group keeps input order: grouping a concatenation concatenates the groups. */
  lemma GroupKeepsOrder(a: seq<Item>, b: seq<Item>, k: string)
    ensures Select(a + b, ManufacturerOf, k) == Select(a, ManufacturerOf, k) + Select(b, ManufacturerOf, k)
  {
    SelectAppend(a, b, ManufacturerOf, k);
  }

  /** `toggleManufacturer`: a copy of the set with the name removed if present, added if absent. */
  function Toggled(expanded: set<string>, manufacturer: string): (r: set<string>)
    ensures manufacturer in r <==> manufacturer !in expanded
    ensures forall m :: m != manufacturer ==> (m in r <==> m in expanded)
  {
    if manufacturer in expanded then expanded - {manufacturer} else expanded + {manufacturer}
  }

  /** Toggling the same manufacturer twice gives the original set back. */
  lemma ToggleTwice(expanded: set<string>, manufacturer: string)
    ensures Toggled(Toggled(expanded, manufacturer), manufacturer) == expanded
  {
  }

  /** Toggles of different manufacturers commute. */
  lemma TogglesCommute(expanded: set<string>, a: string, b: string)
    ensures Toggled(Toggled(expanded, a), b) == Toggled(Toggled(expanded, b), a)
  {
  }
}
