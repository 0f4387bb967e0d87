/**
 * The database store `DatabaseStorage` (server/storage.ts:523-967), the store the HTTP routes
 * use. The `inventory_items` table is a map from id to row with a serial counter, listed in
 * ascending id order, and its unique constraint on the chassis number is part of the table's
 * invariant; the `location_transfers` table is an appended log. Every read of the table is the
 * pure function of the rows that the source applies in TypeScript after `db.select()`.
 */
module DbStore {
  import opened Wrappers
  import opened Items
  import opened Queries
  import opened Stats
  import opened LocationStats
  import opened StockLevels
  import opened Tables

  /** The `inventory_items_chassis_number_unique` constraint: no two rows share a chassis number. */
  ghost predicate ChassisUnique(m: map<int, Item>) {
    forall a, b :: a in m && b in m && a != b ==> m[a].chassisNumber != m[b].chassisNumber
  }

  /** A row other than `except` already carries chassis number `c`. */
  predicate ChassisTaken(m: map<int, Item>, c: string, except: int) {
    exists k :: k in m && k != except && m[k].chassisNumber == c
  }

  /** Writing a row whose chassis number no other row has keeps the constraint. */
  lemma ChassisUniqueWrite(m: map<int, Item>, id: int, x: Item)
    requires ChassisUnique(m) && !ChassisTaken(m, x.chassisNumber, id)
    ensures ChassisUnique(m[id := x])
  {
  }

  /** How an insert or an update of a row ends. */
  datatype WriteResult = Written(item: Item) | NotFound | DuplicateChassisNumber

  /** The row `reserveItem` writes: status reserved, the date, who, and the note or null. */
  function WithReservation(item: Item, reservedBy: string, note: Option<string>, now: Timestamp): Item {
    item.(status := Reserved, reservationDate := Some(now), reservedBy := Some(reservedBy),
          reservationNote := OrNull(note))
  }

  /** The row `cancelReservation` writes: status available and the three reservation fields null. */
  function WithoutReservation(item: Item): Item {
    item.(status := Available, reservationDate := None, reservedBy := None, reservationNote := None)
  }

  /** A reservation records who made it, and a note only when one was given and is non-empty. */
  lemma ReservationRecorded(item: Item, reservedBy: string, note: Option<string>, now: Timestamp)
    ensures var r := WithReservation(item, reservedBy, note, now);
      r.status == Reserved && r.reservedBy == Some(reservedBy) && r.reservationDate == Some(now) &&
      (r.reservationNote.Some? <==> note.Some? && note.value != "") &&
      (r.reservationNote.Some? ==> r.reservationNote == note)
    ensures var r := WithReservation(item, reservedBy, note, now);
      r.id == item.id && r.location == item.location && r.isSold == item.isSold &&
      r.chassisNumber == item.chassisNumber
  {
  }

  /** Cancelling twice leaves the row as cancelling once does. */
  lemma CancelIdempotent(item: Item)
    ensures WithoutReservation(WithoutReservation(item)) == WithoutReservation(item)
  {
  }

  /** Cancelling wipes out a reservation completely, whatever it recorded. */
  lemma CancelUndoesReservation(item: Item, reservedBy: string, note: Option<string>, now: Timestamp)
    ensures WithoutReservation(WithReservation(item, reservedBy, note, now)) == WithoutReservation(item)
    ensures item.status == Available && item.reservationDate.None? && item.reservedBy.None? &&
            item.reservationNote.None? ==>
            WithoutReservation(WithReservation(item, reservedBy, note, now)) == item
  {
  }

  /**
   * The transfer log after moving `item` to `newLocation`: one record from the old to the new
   * location when they differ, nothing otherwise.
   */
  function LogTransfer(log: seq<LocationTransfer>, item: Item, newLocation: string, reason: Option<string>,
                       transferredBy: Option<string>, transferId: int, now: Timestamp): seq<LocationTransfer>
  {
    if item.location != newLocation then
      log + [LocationTransfer(transferId, item.id, item.location, newLocation, OrNull(reason),
                              OrNull(transferredBy), None, now)]
    else log
  }

  /**
   * The log grows by exactly one record on a real move and stays as it was otherwise; the new
   * record leads from the old location to the new one.
   */
  lemma LogTransferGrows(log: seq<LocationTransfer>, item: Item, newLocation: string, reason: Option<string>,
                         transferredBy: Option<string>, transferId: int, now: Timestamp)
    ensures var log' := LogTransfer(log, item, newLocation, reason, transferredBy, transferId, now);
      log'[..|log|] == log &&
      (|log'| == |log| + 1 <==> item.location != newLocation) &&
      (|log'| == |log| <==> item.location == newLocation) &&
      (|log'| > |log| ==> log'[|log|].inventoryItemId == item.id &&
                          log'[|log|].fromLocation == item.location &&
                          log'[|log|].toLocation == newLocation)
  {
  }

  /** A second transfer to the same location records nothing more. */
  lemma TransferTwiceLogsOnce(log: seq<LocationTransfer>, item: Item, newLocation: string, reason: Option<string>,
                              transferredBy: Option<string>, t1: int, t2: int, now: Timestamp)
    ensures var log1 := LogTransfer(log, item, newLocation, reason, transferredBy, t1, now);
      LogTransfer(log1, item.(location := newLocation), newLocation, reason, transferredBy, t2, now) == log1
  {
  }

  class DatabaseStorage {
    var items: map<int, Item>
    var itemOrder: seq<int>
    var nextItemId: int
    var transfers: seq<LocationTransfer>
    var nextTransferId: int

    ghost predicate Valid()
      reads this`items, this`itemOrder, this`nextItemId
    {
      TableValid(items, itemOrder, nextItemId, ItemId) && ChassisUnique(items)
    }

    /** The rows `db.select().from(inventoryItems)` returns, in ascending id order. */
    function Rows(): seq<Item>
      reads this`items, this`itemOrder, this`nextItemId
      requires Valid()
    {
      ValuesInOrder(itemOrder, items)
    }

    /** An empty database. */
    constructor()
      ensures Valid() && items == map[] && Rows() == [] && transfers == []
    {
      items := map[];
      itemOrder := [];
      nextItemId := 1;
      transfers := [];
      nextTransferId := 1;
    }

    method GetAllInventoryItems() returns (r: seq<Item>)
      requires Valid()
      ensures r == Rows()
    {
      r := ValuesInOrder(itemOrder, items);
    }

    method GetInventoryItem(id: int) returns (r: Option<Item>)
      requires Valid()
      ensures r.Some? <==> id in items
      ensures r.Some? ==> r.value == items[id] && r.value.id == id
    {
      r := if id in items then Some(items[id]) else None;
    }

    /**
     * Inserts the draft under the next serial id, unless another row has its chassis number,
     * in which case the insert fails and no row changes. Either way the serial id is used up:
     * the sequence's `nextval` is taken before the unique constraint is checked and is not
     * given back when the insert fails.
     */
    method CreateInventoryItem(d: Draft, now: Timestamp) returns (r: WriteResult)
      requires Valid()
      modifies this
      ensures Valid()
      ensures !r.NotFound?
      ensures r.DuplicateChassisNumber? <==> ChassisTaken(old(items), d.chassisNumber, old(nextItemId))
      ensures r.DuplicateChassisNumber? ==> items == old(items) && itemOrder == old(itemOrder)
      ensures r.Written? ==>
        r.item == NewItem(d, old(nextItemId), now) &&
        items == old(items)[r.item.id := r.item] && Rows() == old(Rows()) + [r.item]
      ensures nextItemId == old(nextItemId) + 1
      ensures transfers == old(transfers) && nextTransferId == old(nextTransferId)
    {
      var id := nextItemId;
      nextItemId := id + 1;
      if ChassisTaken(items, d.chassisNumber, id) {
        return DuplicateChassisNumber;
      }
      var item := NewItem(d, id, now);
      TableInsert(items, itemOrder, id, ItemId, item);
      ChassisUniqueWrite(items, id, item);
      items, itemOrder := items[id := item], itemOrder + [id];
      r := Written(item);
    }

    /**
     * `update ... set` on one row: an absent id updates nothing; a chassis number another row
     * has fails on the unique constraint; otherwise the row becomes `{ ...row, ...patch }`.
     */
    method UpdateInventoryItem(id: int, p: Patch) returns (r: WriteResult)
      requires Valid()
      modifies this
      ensures Valid()
      ensures r.NotFound? <==> id !in old(items)
      ensures r.DuplicateChassisNumber? <==>
        id in old(items) && ChassisTaken(old(items), Apply(old(items[id]), p).chassisNumber, id)
      ensures r.Written? ==> r.item == Apply(old(items[id]), p) && items == old(items)[id := r.item]
      ensures !r.Written? ==> items == old(items)
      ensures itemOrder == old(itemOrder) && nextItemId == old(nextItemId)
      ensures transfers == old(transfers) && nextTransferId == old(nextTransferId)
    {
      if id !in items {
        return NotFound;
      }
      var updated := Apply(items[id], p);
      if ChassisTaken(items, updated.chassisNumber, id) {
        return DuplicateChassisNumber;
      }
      TableReplace(items, itemOrder, nextItemId, ItemId, id, updated);
      ChassisUniqueWrite(items, id, updated);
      items := items[id := updated];
      r := Written(updated);
    }

    /** Deletes the row; reports whether there was one. */
    method DeleteInventoryItem(id: int) returns (deleted: bool)
      requires Valid()
      modifies this
      ensures Valid()
      ensures deleted <==> id in old(items)
      ensures items == old(items) - {id} && itemOrder == Remove(old(itemOrder), id)
      ensures nextItemId == old(nextItemId)
      ensures transfers == old(transfers) && nextTransferId == old(nextTransferId)
    {
      deleted := id in items;
      TableDelete(items, itemOrder, nextItemId, ItemId, id);
      items := items - {id};
      itemOrder := Remove(itemOrder, id);
    }

    method SearchInventoryItems(q: string) returns (r: seq<Item>)
      requires Valid()
      ensures r == SearchDb(Rows(), q)
    {
      var rows := GetAllInventoryItems();
      r := SearchDb(rows, q);
    }

    method FilterInventoryItems(f: Criteria) returns (r: seq<Item>)
      requires Valid()
      ensures r == FilterItems(Rows(), f)
    {
      var rows := GetAllInventoryItems();
      r := FilterItems(rows, f);
    }

    method GetInventoryStats() returns (r: InventoryStats)
      requires Valid()
      ensures r == DbInventoryStats(Rows())
    {
      var rows := GetAllInventoryItems();
      r := DbInventoryStats(rows);
    }

    /** `makers` is what the read of the manufacturers table returned. */
    method GetManufacturerStats(makers: seq<Manufacturer>) returns (r: seq<ManufacturerStat>)
      requires Valid()
      ensures r == DbManufacturerStats(Rows(), makers)
    {
      var rows := GetAllInventoryItems();
      r := DbManufacturerStats(rows, makers);
    }

    method GetLocationStats() returns (r: seq<LocationStat>)
      requires Valid()
      ensures r == DbLocationStats(Rows())
    {
      var rows := GetAllInventoryItems();
      r := ComputeLocationStats(rows);
    }

    /**
     * Reads the row; an absent id gives false and changes nothing. Otherwise a transfer record
     * is appended when the location really changes, and the location is then set.
     */
    method TransferItem(id: int, newLocation: string, reason: Option<string>, transferredBy: Option<string>,
                        now: Timestamp) returns (found: bool)
      requires Valid()
      modifies this
      ensures Valid()
      ensures found <==> id in old(items)
      ensures !found ==> items == old(items) && transfers == old(transfers)
      ensures found ==>
        items == old(items)[id := old(items[id]).(location := newLocation)] &&
        transfers == LogTransfer(old(transfers), old(items[id]), newLocation, reason, transferredBy,
                                 old(nextTransferId), now)
      ensures itemOrder == old(itemOrder) && nextItemId == old(nextItemId)
    {
      if id !in items {
        return false;
      }
      var current := items[id];
      if current.location != newLocation {
        transfers := transfers + [LocationTransfer(nextTransferId, id, current.location, newLocation,
                                                   OrNull(reason), OrNull(transferredBy), None, now)];
        nextTransferId := nextTransferId + 1;
      }
      var moved := current.(location := newLocation);
      TableReplace(items, itemOrder, nextItemId, ItemId, id, moved);
      items := items[id := moved];
      found := true;
    }

    /** Sets the sold flag and the sale date; the status is left as it was. */
    method MarkAsSold(id: int, now: Timestamp) returns (found: bool)
      requires Valid()
      modifies this
      ensures Valid()
      ensures found <==> id in old(items)
      ensures found ==> items == old(items)[id := old(items[id]).(isSold := true, soldDate := Some(now))]
      ensures !found ==> items == old(items)
      ensures itemOrder == old(itemOrder) && nextItemId == old(nextItemId)
      ensures transfers == old(transfers) && nextTransferId == old(nextTransferId)
    {
      if id !in items {
        return false;
      }
      var sold := items[id].(isSold := true, soldDate := Some(now));
      TableReplace(items, itemOrder, nextItemId, ItemId, id, sold);
      items := items[id := sold];
      found := true;
    }

    method ReserveItem(id: int, reservedBy: string, note: Option<string>, now: Timestamp) returns (found: bool)
      requires Valid()
      modifies this
      ensures Valid()
      ensures found <==> id in old(items)
      ensures found ==> items == old(items)[id := WithReservation(old(items[id]), reservedBy, note, now)]
      ensures !found ==> items == old(items)
      ensures itemOrder == old(itemOrder) && nextItemId == old(nextItemId)
      ensures transfers == old(transfers) && nextTransferId == old(nextTransferId)
    {
      if id !in items {
        return false;
      }
      var reserved := WithReservation(items[id], reservedBy, note, now);
      TableReplace(items, itemOrder, nextItemId, ItemId, id, reserved);
      items := items[id := reserved];
      found := true;
    }

    method CancelReservation(id: int) returns (found: bool)
      requires Valid()
      modifies this
      ensures Valid()
      ensures found <==> id in old(items)
      ensures found ==> items == old(items)[id := WithoutReservation(old(items[id]))]
      ensures !found ==> items == old(items)
      ensures itemOrder == old(itemOrder) && nextItemId == old(nextItemId)
      ensures transfers == old(transfers) && nextTransferId == old(nextTransferId)
    {
      if id !in items {
        return false;
      }
      var cancelled := WithoutReservation(items[id]);
      TableReplace(items, itemOrder, nextItemId, ItemId, id, cancelled);
      items := items[id := cancelled];
      found := true;
    }

    /**
     * `checkStockLevels` with each stock setting's own alert lookup; `settings` and `alerts` are
     * what the reads of the settings and the alerts tables returned, and the result is the
     * alerts table afterwards.
     */
    method CheckStockLevels(settings: seq<StockSetting>, alerts: seq<Alert>) returns (r: seq<Alert>)
      requires Valid()
      ensures r == AlertsAfter(Rows(), settings, alerts, true)
    {
      var rows := GetAllInventoryItems();
      r := StockLevels.CheckStockLevels(rows, settings, alerts);
    }
  }
}
