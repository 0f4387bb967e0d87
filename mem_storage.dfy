/**
 * The in-memory store `MemStorage` (server/storage.ts:110-521): vehicle and manufacturer tables
 * kept in JavaScript `Map`s keyed by id, each with a counter that hands out the next id. A `Map`
 * iterates in insertion order; since ids are handed out in increasing order and updates keep a
 * key's position, that order is ascending id order, kept here as one sequence per table.
 */
module MemStore {
  import opened Wrappers
  import opened Seqs
  import opened Items
  import opened Queries
  import opened Stats
  import opened Tables

  /** The sample vehicles the store starts with (server/storage.ts:139-235). */
  function SampleDrafts(): seq<Draft> {
    [ Sample("لاتوبيغرافي", "V6", 2025, "أسود", "أبيض", InTransit, Personal, "مرسيدس", "الميناء", "WASSBER0056464", None),
      Sample("لاتوبيغرافي", "V6", 2024, "أسود", "أبيض", InTransit, Company, "لاند روفر", "المعرض", "WASSBER0056465", None),
      Sample("لاتوبيغرافي", "V8", 2025, "أسود", "أبيض", Available, UsedPersonal, "مرسيدس", "الورشة", "WASSBER0056466", None),
      Sample("أوتوماتيكي", "V6", 2024, "أسود", "رمادي", UnderMaintenance, Personal, "لاند روفر", "مستودع فرعي", "WASSBER0087523", None),
      Sample("يدوي", "V8", 2025, "أبيض", "أسود", Available, Company, "مرسيدس", "المستودع الرئيسي", "WASSBER0098765", None),
      // new Date("2024-12-15") and new Date("2024-11-20"), in milliseconds since the epoch
      Sample("E200", "2.0L", 2023, "أحمر", "بيج", Sold, Personal, "مرسيدس", "المعرض", "WDB4566001234", Some(1734220800000)),
      Sample("320i", "2.0L", 2022, "أزرق", "أسود", Sold, Company, "بي ام دبليو", "المعرض", "WBA5566005678", Some(1732060800000)) ]
  }

  /** A sample entry; one with a sale date also carries `isSold: true`. */
  function Sample(category: string, engineCapacity: string, year: int, exteriorColor: string,
                  interiorColor: string, status: string, importType: string, manufacturer: string,
                  location: string, chassisNumber: string, soldDate: Option<Timestamp>): Draft {
    Draft(manufacturer, category, engineCapacity, year, exteriorColor, interiorColor, status,
          importType, location, chassisNumber, Some([]), None, None,
          if soldDate.Some? then Some(true) else None, soldDate, None, None, None)
  }

  /** The records stored for `drafts` created in order into an empty table: the i-th gets id i + 1. */
  function Seeded(drafts: seq<Draft>, now: Timestamp): (r: seq<Item>)
    ensures |r| == |drafts|
    decreases |drafts|
  {
    if drafts == [] then []
    else
      var init := drafts[..|drafts| - 1];
      Seeded(init, now) + [NewItem(drafts[|drafts| - 1], |drafts|, now)]
  }

  /** Creating one more draft appends its record, with the next id. */
  lemma SeededStep(drafts: seq<Draft>, i: nat, now: Timestamp)
    requires i < |drafts|
    ensures Seeded(drafts[..i + 1], now) == Seeded(drafts[..i], now) + [NewItem(drafts[i], i + 1, now)]
  {
    assert drafts[..i + 1][..i] == drafts[..i];
  }

  /** The ids 1 to n, ascending. */
  function IdsUpTo(n: nat): (r: seq<int>)
    ensures |r| == n
  {
    if n == 0 then [] else IdsUpTo(n - 1) + [n]
  }

  class MemStorage {
    var items: map<int, Item>
    var itemOrder: seq<int>
    var currentInventoryId: int
    var manufacturers: map<int, Manufacturer>
    var manufacturerOrder: seq<int>
    var currentManufacturerId: int

    ghost predicate ItemsValid()
      reads this`items, this`itemOrder, this`currentInventoryId
    {
      TableValid(items, itemOrder, currentInventoryId, ItemId)
    }

    ghost predicate ManufacturersValid()
      reads this`manufacturers, this`manufacturerOrder, this`currentManufacturerId
    {
      TableValid(manufacturers, manufacturerOrder, currentManufacturerId, ManufacturerId)
    }

    ghost predicate Valid()
      reads this
    {
      ItemsValid() && ManufacturersValid()
    }

    /** `Array.from(this.inventoryItems.values())`. */
    function AllItems(): seq<Item>
      reads this`items, this`itemOrder, this`currentInventoryId
      requires ItemsValid()
    {
      ValuesInOrder(itemOrder, items)
    }

    /** `Array.from(this.manufacturers.values())`. */
    function AllManufacturers(): seq<Manufacturer>
      reads this`manufacturers, this`manufacturerOrder, this`currentManufacturerId
      requires ManufacturersValid()
    {
      ValuesInOrder(manufacturerOrder, manufacturers)
    }

    /** The store after `initializeInventoryData`: the seven samples under ids 1 to 7. */
    constructor(now: Timestamp)
      ensures Valid()
      ensures AllItems() == Seeded(SampleDrafts(), now)
      ensures currentInventoryId == 8 && itemOrder == [1, 2, 3, 4, 5, 6, 7]
      ensures manufacturers == map[] && currentManufacturerId == 1
    {
      items := map[];
      itemOrder := [];
      currentInventoryId := 1;
      manufacturers := map[];
      manufacturerOrder := [];
      currentManufacturerId := 1;
      new;
      SeedInventory(SampleDrafts(), now);
      assert IdsUpTo(7) == [1, 2, 3, 4, 5, 6, 7];
    }

    /** Creates the drafts in order into the empty vehicle table. */
    method SeedInventory(drafts: seq<Draft>, now: Timestamp)
      requires Valid() && items == map[] && itemOrder == [] && currentInventoryId == 1
      modifies this
      ensures Valid()
      ensures AllItems() == Seeded(drafts, now)
      ensures currentInventoryId == |drafts| + 1 && itemOrder == IdsUpTo(|drafts|)
      ensures manufacturers == old(manufacturers) && manufacturerOrder == old(manufacturerOrder)
      ensures currentManufacturerId == old(currentManufacturerId)
    {
      var i := 0;
      while i < |drafts|
        invariant 0 <= i <= |drafts|
        invariant Valid() && currentInventoryId == i + 1
        invariant itemOrder == IdsUpTo(i)
        invariant AllItems() == Seeded(drafts[..i], now)
        invariant manufacturers == old(manufacturers) && manufacturerOrder == old(manufacturerOrder)
        invariant currentManufacturerId == old(currentManufacturerId)
      {
        var item := CreateInventoryItem(drafts[i], now);
        SeededStep(drafts, i, now);
        i := i + 1;
      }
      assert drafts[..i] == drafts;
    }

    method GetAllInventoryItems() returns (r: seq<Item>)
      requires Valid()
      ensures r == AllItems()
    {
      r := ValuesInOrder(itemOrder, items);
    }

    method GetInventoryItem(id: int) returns (r: Option<Item>)
      requires Valid()
      ensures r.Some? <==> id in items
      ensures r.Some? ==> r.value == items[id] && r.value.id == id
    {
      r := if id in items then Some(items[id]) else None;
    }

    /**
     * Stores the draft with the defaults under the current counter value, then increments the
     * counter: the new id is above every id in the table and goes to the end of the order.
     */
    method CreateInventoryItem(d: Draft, now: Timestamp) returns (item: Item)
      requires Valid()
      modifies this
      ensures Valid()
      ensures item == NewItem(d, old(currentInventoryId), now)
      ensures forall id :: id in old(items) ==> id < item.id
      ensures items == old(items)[item.id := item] && itemOrder == old(itemOrder) + [item.id]
      ensures AllItems() == old(AllItems()) + [item]
      ensures currentInventoryId == old(currentInventoryId) + 1
      ensures manufacturers == old(manufacturers) && manufacturerOrder == old(manufacturerOrder)
      ensures currentManufacturerId == old(currentManufacturerId)
    {
      var id := currentInventoryId;
      item := NewItem(d, id, now);
      TableInsert(items, itemOrder, id, ItemId, item);
      items, itemOrder, currentInventoryId := items[id := item], itemOrder + [id], id + 1;
    }

    /**
     * `{ ...existing, ...patch }` under an existing id; an absent id gives undefined and
     * changes nothing.
     */
    method UpdateInventoryItem(id: int, p: Patch) returns (r: Option<Item>)
      requires Valid()
      modifies this
      ensures Valid()
      ensures r.Some? <==> id in old(items)
      ensures id in old(items) ==> r == Some(Apply(old(items[id]), p)) && items == old(items)[id := r.value]
      ensures id !in old(items) ==> items == old(items)
      ensures itemOrder == old(itemOrder) && currentInventoryId == old(currentInventoryId)
      ensures manufacturers == old(manufacturers) && manufacturerOrder == old(manufacturerOrder)
      ensures currentManufacturerId == old(currentManufacturerId)
    {
      if id !in items {
        return None;
      }
      var updated := Apply(items[id], p);
      items := items[id := updated];
      r := Some(updated);
    }

    method DeleteInventoryItem(id: int) returns (deleted: bool)
      requires Valid()
      modifies this
      ensures Valid()
      ensures deleted <==> id in old(items)
      ensures items == old(items) - {id} && itemOrder == Remove(old(itemOrder), id)
      ensures currentInventoryId == old(currentInventoryId)
      ensures manufacturers == old(manufacturers) && manufacturerOrder == old(manufacturerOrder)
      ensures currentManufacturerId == old(currentManufacturerId)
    {
      deleted := id in items;
      TableDelete(items, itemOrder, currentInventoryId, ItemId, id);
      items := items - {id};
      itemOrder := Remove(itemOrder, id);
    }

    method SearchInventoryItems(q: string) returns (r: seq<Item>)
      requires Valid()
      ensures r == SearchMem(AllItems(), q)
    {
      var all := GetAllInventoryItems();
      r := SearchMem(all, q);
    }

    method FilterInventoryItems(f: Criteria) returns (r: seq<Item>)
      requires Valid()
      ensures r == FilterItems(AllItems(), f)
    {
      var all := GetAllInventoryItems();
      r := FilterItems(all, f);
    }

    method GetInventoryStats() returns (r: InventoryStats)
      requires Valid()
      ensures r == MemInventoryStats(AllItems())
    {
      var all := GetAllInventoryItems();
      r := MemInventoryStats(all);
    }

    method GetManufacturerStats() returns (r: seq<ManufacturerStat>)
      requires Valid()
      ensures r == MemManufacturerStats(AllItems(), AllManufacturers())
    {
      var all := GetAllInventoryItems();
      r := MemManufacturerStats(all, ValuesInOrder(manufacturerOrder, manufacturers));
    }

    method GetLocationStats() returns (r: seq<LocationStat>)
      requires Valid()
      ensures r == MemLocationStats(AllItems())
    {
      var all := GetAllInventoryItems();
      r := MemLocationStats(all);
    }

    /** Sets `isSold` and `soldDate` on an existing vehicle; its status is left as it was. */
    method MarkAsSold(id: int, now: Timestamp) returns (found: bool)
      requires Valid()
      modifies this
      ensures Valid()
      ensures found <==> id in old(items)
      ensures found ==> items == old(items)[id := old(items[id]).(isSold := true, soldDate := Some(now))]
      ensures !found ==> items == old(items)
      ensures itemOrder == old(itemOrder) && currentInventoryId == old(currentInventoryId)
      ensures manufacturers == old(manufacturers) && manufacturerOrder == old(manufacturerOrder)
      ensures currentManufacturerId == old(currentManufacturerId)
    {
      if id !in items {
        return false;
      }
      items := items[id := items[id].(isSold := true, soldDate := Some(now))];
      found := true;
    }

    /** Sets the reserved status and the reservation date; who reserved it is not recorded. */
    method ReserveItem(id: int, now: Timestamp) returns (found: bool)
      requires Valid()
      modifies this
      ensures Valid()
      ensures found <==> id in old(items)
      ensures found ==> items == old(items)[id := old(items[id]).(status := Reserved, reservationDate := Some(now))]
      ensures !found ==> items == old(items)
      ensures itemOrder == old(itemOrder) && currentInventoryId == old(currentInventoryId)
      ensures manufacturers == old(manufacturers) && manufacturerOrder == old(manufacturerOrder)
      ensures currentManufacturerId == old(currentManufacturerId)
    {
      if id !in items {
        return false;
      }
      items := items[id := items[id].(status := Reserved, reservationDate := Some(now))];
      found := true;
    }

    /** Sets the location of an existing vehicle; the reason and the person are not recorded. */
    method TransferItem(id: int, newLocation: string, reason: Option<string>, transferredBy: Option<string>)
      returns (found: bool)
      requires Valid()
      modifies this
      ensures Valid()
      ensures found <==> id in old(items)
      ensures found ==> items == old(items)[id := old(items[id]).(location := newLocation)]
      ensures !found ==> items == old(items)
      ensures itemOrder == old(itemOrder) && currentInventoryId == old(currentInventoryId)
      ensures manufacturers == old(manufacturers) && manufacturerOrder == old(manufacturerOrder)
      ensures currentManufacturerId == old(currentManufacturerId)
    {
      if id !in items {
        return false;
      }
      items := items[id := items[id].(location := newLocation)];
      found := true;
    }

    method GetAllManufacturers() returns (r: seq<Manufacturer>)
      requires Valid()
      ensures r == AllManufacturers()
    {
      r := ValuesInOrder(manufacturerOrder, manufacturers);
    }

    method GetManufacturer(id: int) returns (r: Option<Manufacturer>)
      requires Valid()
      ensures r.Some? <==> id in manufacturers
      ensures r.Some? ==> r.value == manufacturers[id] && r.value.id == id
    {
      r := if id in manufacturers then Some(manufacturers[id]) else None;
    }

    method CreateManufacturer(d: ManufacturerDraft, now: Timestamp) returns (m: Manufacturer)
      requires Valid()
      modifies this
      ensures Valid()
      ensures m == NewManufacturer(d, old(currentManufacturerId), now)
      ensures forall id :: id in old(manufacturers) ==> id < m.id
      ensures manufacturers == old(manufacturers)[m.id := m] && manufacturerOrder == old(manufacturerOrder) + [m.id]
      ensures AllManufacturers() == old(AllManufacturers()) + [m]
      ensures currentManufacturerId == old(currentManufacturerId) + 1
      ensures items == old(items) && itemOrder == old(itemOrder) && currentInventoryId == old(currentInventoryId)
    {
      var id := currentManufacturerId;
      m := NewManufacturer(d, id, now);
      TableInsert(manufacturers, manufacturerOrder, id, ManufacturerId, m);
      manufacturers, manufacturerOrder, currentManufacturerId := manufacturers[id := m], manufacturerOrder + [id], id + 1;
    }

    method UpdateManufacturer(id: int, p: ManufacturerPatch) returns (r: Option<Manufacturer>)
      requires Valid()
      modifies this
      ensures Valid()
      ensures r.Some? <==> id in old(manufacturers)
      ensures id in old(manufacturers) ==>
        r == Some(ApplyManufacturer(old(manufacturers[id]), p)) && manufacturers == old(manufacturers)[id := r.value]
      ensures id !in old(manufacturers) ==> manufacturers == old(manufacturers)
      ensures manufacturerOrder == old(manufacturerOrder) && currentManufacturerId == old(currentManufacturerId)
      ensures items == old(items) && itemOrder == old(itemOrder) && currentInventoryId == old(currentInventoryId)
    {
      if id !in manufacturers {
        return None;
      }
      var updated := ApplyManufacturer(manufacturers[id], p);
      manufacturers := manufacturers[id := updated];
      r := Some(updated);
    }

    method DeleteManufacturer(id: int) returns (deleted: bool)
      requires Valid()
      modifies this
      ensures Valid()
      ensures deleted <==> id in old(manufacturers)
      ensures manufacturers == old(manufacturers) - {id} && manufacturerOrder == Remove(old(manufacturerOrder), id)
      ensures currentManufacturerId == old(currentManufacturerId)
      ensures items == old(items) && itemOrder == old(itemOrder) && currentInventoryId == old(currentInventoryId)
    {
      deleted := id in manufacturers;
      TableDelete(manufacturers, manufacturerOrder, currentManufacturerId, ManufacturerId, id);
      manufacturers := manufacturers - {id};
      manufacturerOrder := Remove(manufacturerOrder, id);
    }
  }
}
