/**
 * The database store's `checkStockLevels` (server/storage.ts:916-967): count the unsold vehicles
 * per `${manufacturer}-${category}` key, classify each stock setting's count against its
 * thresholds, and append an unread low-stock alert for a setting at an alert level unless one
 * is already there.
 */
module StockLevels {
  import opened Wrappers
  import opened Seqs
  import opened Items

  /** The template string `${manufacturer}-${category}`. */
  function StockKey(manufacturer: string, category: string): string {
    manufacturer + "-" + category
  }

  function ItemStockKey(item: Item): string {
    StockKey(item.manufacturer, item.category)
  }

  /** Number of unsold vehicles whose key is `key`. */
  function StockOf(items: seq<Item>, key: string): nat
    decreases |items|
  {
    if items == [] then 0
    else
      var init, last := items[..|items| - 1], items[|items| - 1];
      StockOf(init, key) + (if !last.isSold && ItemStockKey(last) == key then 1 else 0)
  }

  lemma StockOfSnoc(items: seq<Item>, x: Item, key: string)
    ensures StockOf(items + [x], key) == StockOf(items, key) + (if !x.isSold && ItemStockKey(x) == key then 1 else 0)
  {
    assert (items + [x])[..|items|] == items;
  }

  /** The stock of a key is the size of its group among the unsold vehicles. */
  lemma {:induction false} StockOfIsGroupSize(items: seq<Item>, key: string)
    ensures StockOf(items, key) == |Select(Filter(items, IsActive), ItemStockKey, key)|
    decreases |items|
  {
    if items != [] {
      var init, last := items[..|items| - 1], items[|items| - 1];
      assert items == init + [last];
      StockOfIsGroupSize(init, key);
      StockOfSnoc(init, last, key);
      FilterSnoc(init, last, IsActive);
      var active := Filter(init, IsActive);
      if !last.isSold {
        assert Filter(items, IsActive) == active + [last];
        SelectSnoc(active, last, ItemStockKey, key);
      } else {
        assert Filter(items, IsActive) == active;
      }
    }
  }

  /** Different manufacturer and category pairs can share a key. */
  lemma StockKeysCanCollide()
    ensures StockKey("A-B", "C") == StockKey("A", "B-C")
  {
  }

  /** `stockCounts.get(key) || 0`. */
  function CountOr0(counts: map<string, nat>, key: string): nat {
    if key in counts then counts[key] else 0
  }

  /** The counting loop over all vehicles. */
  method CountStock(items: seq<Item>) returns (counts: map<string, nat>)
    ensures forall key :: CountOr0(counts, key) == StockOf(items, key)
    ensures forall key :: key in counts ==> counts[key] > 0
  {
    counts := map[];
    var i := 0;
    while i < |items|
      invariant 0 <= i <= |items|
      invariant forall key :: CountOr0(counts, key) == StockOf(items[..i], key)
      invariant forall key :: key in counts ==> counts[key] > 0
    {
      var item := items[i];
      assert items[..i + 1] == items[..i] + [item];
      forall key
        ensures StockOf(items[..i + 1], key) == StockOf(items[..i], key) + (if !item.isSold && ItemStockKey(item) == key then 1 else 0)
      {
        StockOfSnoc(items[..i], item, key);
      }
      if !item.isSold {
        var key := StockKey(item.manufacturer, item.category);
        counts := counts[key := CountOr0(counts, key) + 1];
      }
      i := i + 1;
    }
    assert items[..i] == items;
  }

  datatype AlertLevel = OutOfStock | Critical | Low | NoAlert

  /** The classification chain: zero first, then the critical, then the low threshold. */
  function LevelFor(stock: nat, critical: int, low: int): AlertLevel {
    if stock == 0 then OutOfStock
    else if stock <= critical then Critical
    else if stock <= low then Low
    else NoAlert
  }

  /** The stored `alertLevel` text; `NoAlert` is the empty string, which is falsy. */
  function LevelName(level: AlertLevel): string {
    match level
    case OutOfStock => "out_of_stock"
    case Critical => "critical"
    case Low => "low"
    case NoAlert => ""
  }

  function Severity(level: AlertLevel): nat {
    match level
    case OutOfStock => 3
    case Critical => 2
    case Low => 1
    case NoAlert => 0
  }

  /** Each level holds on exactly its own range of stock. */
  lemma LevelForRanges(stock: nat, critical: int, low: int)
    ensures LevelFor(stock, critical, low) == OutOfStock <==> stock == 0
    ensures LevelFor(stock, critical, low) == Critical <==> 0 < stock <= critical
    ensures LevelFor(stock, critical, low) == Low <==> 0 < stock && critical < stock <= low
    ensures LevelFor(stock, critical, low) == NoAlert <==> 0 < stock && critical < stock && low < stock
    ensures LevelName(LevelFor(stock, critical, low)) == "" <==> LevelFor(stock, critical, low) == NoAlert
  {
  }

  /** More stock never gives a more severe level. */
  lemma LevelForMonotone(s1: nat, s2: nat, critical: int, low: int)
    requires s1 <= s2
    ensures Severity(LevelFor(s2, critical, low)) <= Severity(LevelFor(s1, critical, low))
  {
  }

  datatype StockSetting = StockSetting(
    manufacturer: string,
    category: string,
    minStockLevel: int,
    lowStockThreshold: int,
    criticalStockThreshold: int)

  datatype Alert = Alert(
    manufacturer: string,
    category: string,
    currentStock: nat,
    minStockLevel: int,
    alertLevel: string,
    isRead: bool)

  /** The alert a setting calls for at the given stock, if any. */
  function AlertFor(s: StockSetting, stock: nat): Option<Alert> {
    var level := LevelFor(stock, s.criticalStockThreshold, s.lowStockThreshold);
    if level == NoAlert then None
    else Some(Alert(s.manufacturer, s.category, stock, s.minStockLevel, LevelName(level), false))
  }

  /** There is an unread alert for the manufacturer and category (the intended lookup). */
  predicate HasUnreadFor(alerts: seq<Alert>, manufacturer: string, category: string) {
    exists i :: 0 <= i < |alerts| && !alerts[i].isRead &&
      alerts[i].manufacturer == manufacturer && alerts[i].category == category
  }

  /**
   * There is an unread alert at all: the lookup as the chained `.where` calls run, each call
   * replacing the previous condition so that only `isRead = false` remains.
   */
  predicate HasAnyUnread(alerts: seq<Alert>) {
    exists i :: 0 <= i < |alerts| && !alerts[i].isRead
  }

  /** The alert table after the settings loop; `scoped` picks the intended lookup. */
  function AlertsAfter(items: seq<Item>, settings: seq<StockSetting>, alerts: seq<Alert>, scoped: bool): seq<Alert>
    decreases |settings|
  {
    if settings == [] then alerts
    else
      var s := settings[|settings| - 1];
      var before := AlertsAfter(items, settings[..|settings| - 1], alerts, scoped);
      match AlertFor(s, StockOf(items, StockKey(s.manufacturer, s.category)))
      case None => before
      case Some(a) =>
        var found := if scoped then HasUnreadFor(before, s.manufacturer, s.category) else HasAnyUnread(before);
        if found then before else before + [a]
  }

  lemma AlertsAfterSnoc(items: seq<Item>, settings: seq<StockSetting>, s: StockSetting, alerts: seq<Alert>, scoped: bool)
    ensures AlertsAfter(items, settings + [s], alerts, scoped) ==
      var before := AlertsAfter(items, settings, alerts, scoped);
      match AlertFor(s, StockOf(items, StockKey(s.manufacturer, s.category)))
      case None => before
      case Some(a) =>
        if (if scoped then HasUnreadFor(before, s.manufacturer, s.category) else HasAnyUnread(before))
        then before else before + [a]
  {
    assert (settings + [s])[..|settings|] == settings;
  }

  /** The check only appends: existing alerts stay, in place. */
  lemma {:induction false} AlertsAfterExtends(items: seq<Item>, settings: seq<StockSetting>, alerts: seq<Alert>, scoped: bool)
    ensures |alerts| <= |AlertsAfter(items, settings, alerts, scoped)|
    ensures AlertsAfter(items, settings, alerts, scoped)[..|alerts|] == alerts
    decreases |settings|
  {
    if settings != [] {
      AlertsAfterExtends(items, settings[..|settings| - 1], alerts, scoped);
    }
  }

  /** An appended alert never disturbs an unread alert that is already there. */
  lemma UnreadKept(before: seq<Alert>, extra: seq<Alert>, manufacturer: string, category: string)
    requires HasUnreadFor(before, manufacturer, category)
    ensures HasUnreadFor(before + extra, manufacturer, category)
  {
    var i :| 0 <= i < |before| && !before[i].isRead && before[i].manufacturer == manufacturer && before[i].category == category;
    assert (before + extra)[i] == before[i];
  }

  /**
   * With the intended lookup, after the check every setting at an alert level has an unread
   * alert for its manufacturer and category.
   */
  lemma {:induction false} AlertsAfterCovers(items: seq<Item>, settings: seq<StockSetting>, alerts: seq<Alert>, j: nat)
    requires j < |settings|
    requires AlertFor(settings[j], StockOf(items, StockKey(settings[j].manufacturer, settings[j].category))).Some?
    ensures HasUnreadFor(AlertsAfter(items, settings, alerts, true), settings[j].manufacturer, settings[j].category)
    decreases |settings|
  {
    var init, s := settings[..|settings| - 1], settings[|settings| - 1];
    assert settings == init + [s];
    AlertsAfterSnoc(items, init, s, alerts, true);
    var before := AlertsAfter(items, init, alerts, true);
    var after := AlertsAfter(items, settings, alerts, true);
    assert after == before || after[..|before|] == before;
    if j < |init| {
      AlertsAfterCovers(items, init, alerts, j);
      if after != before {
        UnreadKept(before, [after[|before|]], settings[j].manufacturer, settings[j].category);
        assert after == before + [after[|before|]];
      }
    } else if !HasUnreadFor(before, s.manufacturer, s.category) {
      assert after[|before|].manufacturer == s.manufacturer && after[|before|].category == s.category;
    }
  }

  /**
   * As the query runs, one unread alert for any other key suppresses the alert of an
   * out-of-stock setting.
   */
  lemma UnscopedLookupSuppressesAlert()
    ensures var other := Alert("Toyota", "Camry", 1, 2, "low", false);
      var s := StockSetting("Nissan", "Patrol", 2, 3, 1);
      AlertsAfter([], [s], [other], false) == [other] &&
      !HasUnreadFor(AlertsAfter([], [s], [other], false), "Nissan", "Patrol") &&
      AlertsAfter([], [s], [other], true) == [other, Alert("Nissan", "Patrol", 0, 2, "out_of_stock", false)]
  {
    var other := Alert("Toyota", "Camry", 1, 2, "low", false);
    var s := StockSetting("Nissan", "Patrol", 2, 3, 1);
    AlertsAfterSnoc([], [], s, [other], false);
    AlertsAfterSnoc([], [], s, [other], true);
    assert !([other][0].isRead);
    assert HasAnyUnread([other]);
    assert !HasUnreadFor([other], "Nissan", "Patrol");
  }

  /** The check with the intended lookup, as a loop over the settings. */
  method CheckStockLevels(items: seq<Item>, settings: seq<StockSetting>, alerts: seq<Alert>) returns (out: seq<Alert>)
    ensures out == AlertsAfter(items, settings, alerts, true)
  {
    var counts := CountStock(items);
    out := alerts;
    var i := 0;
    while i < |settings|
      invariant 0 <= i <= |settings|
      invariant out == AlertsAfter(items, settings[..i], alerts, true)
    {
      var s := settings[i];
      AlertsAfterSnoc(items, settings[..i], s, alerts, true);
      assert settings[..i + 1] == settings[..i] + [s];
      var currentStock := CountOr0(counts, StockKey(s.manufacturer, s.category));
      var level := LevelFor(currentStock, s.criticalStockThreshold, s.lowStockThreshold);
      if level != NoAlert {
        if !HasUnreadFor(out, s.manufacturer, s.category) {
          out := out + [Alert(s.manufacturer, s.category, currentStock, s.minStockLevel, LevelName(level), false)];
        }
      }
      i := i + 1;
    }
    assert settings[..i] == settings;
  }
}
