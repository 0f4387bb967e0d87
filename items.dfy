/**
 * The records of the inventory store (server/storage.ts): vehicles, manufacturers and
 * location transfers, the insert shapes callers pass in, partial updates, and the status and
 * import-type vocabulary the statistics count.
 */
module Items {
  import opened Wrappers

  /** A point in time; each `new Date()` of the source arrives as a parameter of this type. */
  type Timestamp = int

  // Vehicle statuses, as stored.
  const Available: string := "متوفر"
  const InTransit: string := "في الطريق"
  const UnderMaintenance: string := "قيد الصيانة"
  const Reserved: string := "محجوز"
  const Sold: string := "مباع"
  /** The maintenance status as the in-memory location statistics spell it. */
  const ShortMaintenance: string := "صيانة"

  // Import types, as stored.
  const Personal: string := "شخصي"
  const Company: string := "شركة"
  const UsedPersonal: string := "مستعمل شخصي"

  /** A stored vehicle. */
  datatype Item = Item(
    id: int,
    manufacturer: string,
    category: string,
    engineCapacity: string,
    year: int,
    exteriorColor: string,
    interiorColor: string,
    status: string,
    importType: string,
    location: string,
    chassisNumber: string,
    images: seq<string>,
    logo: Option<string>,
    notes: Option<string>,
    isSold: bool,
    soldDate: Option<Timestamp>,
    entryDate: Timestamp,
    reservationDate: Option<Timestamp>,
    reservedBy: Option<string>,
    reservationNote: Option<string>)

  /** What a caller passes to create a vehicle: everything but the id and the entry date. */
  datatype Draft = Draft(
    manufacturer: string,
    category: string,
    engineCapacity: string,
    year: int,
    exteriorColor: string,
    interiorColor: string,
    status: string,
    importType: string,
    location: string,
    chassisNumber: string,
    images: Option<seq<string>>,
    logo: Option<string>,
    notes: Option<string>,
    isSold: Option<bool>,
    soldDate: Option<Timestamp>,
    reservationDate: Option<Timestamp>,
    reservedBy: Option<string>,
    reservationNote: Option<string>)

  /**
   * A partial update: `None` leaves a field alone; for a nullable field `Some(None)` sets it
   * to null.
   */
  datatype Patch = Patch(
    manufacturer: Option<string>,
    category: Option<string>,
    engineCapacity: Option<string>,
    year: Option<int>,
    exteriorColor: Option<string>,
    interiorColor: Option<string>,
    status: Option<string>,
    importType: Option<string>,
    location: Option<string>,
    chassisNumber: Option<string>,
    images: Option<seq<string>>,
    logo: Option<Option<string>>,
    notes: Option<Option<string>>,
    isSold: Option<bool>,
    soldDate: Option<Option<Timestamp>>,
    reservationDate: Option<Option<Timestamp>>,
    reservedBy: Option<Option<string>>,
    reservationNote: Option<Option<string>>)

  /** The empty update `{}`. */
  const NoChange: Patch :=
    Patch(None, None, None, None, None, None, None, None, None, None, None, None, None, None, None, None, None, None)

  /** `s || null`: an absent or empty string becomes null. */
  function OrNull(s: Option<string>): Option<string> {
    if s.Some? && s.value != "" then s else None
  }

  /**
   * The record `createInventoryItem` stores: the draft spread, then the id, the entry date
   * and the defaults `isSold || false`, `images || []`, `logo || null`, `notes || null`.
   */
  function NewItem(d: Draft, id: int, now: Timestamp): Item {
    Item(id, d.manufacturer, d.category, d.engineCapacity, d.year, d.exteriorColor,
         d.interiorColor, d.status, d.importType, d.location, d.chassisNumber,
         d.images.GetOr([]), OrNull(d.logo), OrNull(d.notes), d.isSold == Some(true),
         d.soldDate, now, d.reservationDate, d.reservedBy, d.reservationNote)
  }

  /** `{ ...item, ...p }`: every field the update carries overrides the stored one. */
  function Apply(item: Item, p: Patch): Item {
    Item(item.id,
         p.manufacturer.GetOr(item.manufacturer),
         p.category.GetOr(item.category),
         p.engineCapacity.GetOr(item.engineCapacity),
         p.year.GetOr(item.year),
         p.exteriorColor.GetOr(item.exteriorColor),
         p.interiorColor.GetOr(item.interiorColor),
         p.status.GetOr(item.status),
         p.importType.GetOr(item.importType),
         p.location.GetOr(item.location),
         p.chassisNumber.GetOr(item.chassisNumber),
         p.images.GetOr(item.images),
         p.logo.GetOr(item.logo),
         p.notes.GetOr(item.notes),
         p.isSold.GetOr(item.isSold),
         p.soldDate.GetOr(item.soldDate),
         item.entryDate,
         p.reservationDate.GetOr(item.reservationDate),
         p.reservedBy.GetOr(item.reservedBy),
         p.reservationNote.GetOr(item.reservationNote))
  }

  function Pick<T>(first: Option<T>, second: Option<T>): Option<T> {
    if second.Some? then second else first
  }

  /** `{ ...p, ...q }`: the update that applies `p` and then `q`. */
  function Merge(p: Patch, q: Patch): Patch {
    Patch(Pick(p.manufacturer, q.manufacturer), Pick(p.category, q.category),
          Pick(p.engineCapacity, q.engineCapacity), Pick(p.year, q.year),
          Pick(p.exteriorColor, q.exteriorColor), Pick(p.interiorColor, q.interiorColor),
          Pick(p.status, q.status), Pick(p.importType, q.importType),
          Pick(p.location, q.location), Pick(p.chassisNumber, q.chassisNumber),
          Pick(p.images, q.images), Pick(p.logo, q.logo), Pick(p.notes, q.notes),
          Pick(p.isSold, q.isSold), Pick(p.soldDate, q.soldDate),
          Pick(p.reservationDate, q.reservationDate), Pick(p.reservedBy, q.reservedBy),
          Pick(p.reservationNote, q.reservationNote))
  }

  /** A new vehicle is unsold, has no images and no notes unless the draft says otherwise. */
  lemma NewItemDefaults(d: Draft, id: int, now: Timestamp)
    ensures NewItem(d, id, now).id == id && NewItem(d, id, now).entryDate == now
    ensures d.isSold.None? ==> !NewItem(d, id, now).isSold
    ensures d.images.None? ==> NewItem(d, id, now).images == []
    ensures d.notes.None? || d.notes == Some("") ==> NewItem(d, id, now).notes.None?
    ensures NewItem(d, id, now).chassisNumber == d.chassisNumber
  {
  }

  /** An update never changes the id or the entry date, and the empty update changes nothing. */
  lemma ApplyKeepsIdentity(item: Item, p: Patch)
    ensures Apply(item, p).id == item.id && Apply(item, p).entryDate == item.entryDate
    ensures Apply(item, NoChange) == item
  {
  }

  /** Two updates in a row are the merged update. */
  lemma ApplyMerge(item: Item, p: Patch, q: Patch)
    ensures Apply(Apply(item, p), q) == Apply(item, Merge(p, q))
  {
  }

  /** Repeating an update is the same as doing it once. */
  lemma ApplyIdempotent(item: Item, p: Patch)
    ensures Apply(Apply(item, p), p) == Apply(item, p)
  {
    ApplyMerge(item, p, p);
    assert Merge(p, p) == p;
  }

  /** Setting notes and reading them back gives the new notes and every other field unchanged. */
  lemma ApplyNotes(item: Item, x: string)
    ensures Apply(item, NoChange.(notes := Some(Some(x)))) == item.(notes := Some(x))
  {
  }

  /** The consistency the sold flag is meant to have with the status and the sale date. */
  predicate SoldConsistent(item: Item) {
    item.isSold <==> item.status == Sold && item.soldDate.Some?
  }

  // Named predicates and keys over items, for filtering and grouping.
  predicate IsActive(item: Item) { !item.isSold }
  predicate IsSoldItem(item: Item) { item.isSold }
  predicate StatusIsNotSold(item: Item) { item.status != Sold }
  predicate IsAvailable(item: Item) { item.status == Available }
  predicate IsInTransit(item: Item) { item.status == InTransit }
  predicate IsUnderMaintenance(item: Item) { item.status == UnderMaintenance }
  predicate IsReserved(item: Item) { item.status == Reserved }
  predicate IsShortMaintenance(item: Item) { item.status == ShortMaintenance }
  predicate IsPersonal(item: Item) { item.importType == Personal }
  predicate IsCompany(item: Item) { item.importType == Company }
  predicate IsUsedPersonal(item: Item) { item.importType == UsedPersonal }
  function ManufacturerOf(item: Item): string { item.manufacturer }
  function LocationOf(item: Item): string { item.location }
  function ItemId(item: Item): int { item.id }

  /** A manufacturer record. */
  datatype Manufacturer = Manufacturer(id: int, name: string, logo: Option<string>, createdAt: Timestamp)

  function ManufacturerId(m: Manufacturer): int { m.id }

  /** What a caller passes to create a manufacturer. */
  datatype ManufacturerDraft = ManufacturerDraft(name: string, logo: Option<string>)

  /** A partial manufacturer update. */
  datatype ManufacturerPatch = ManufacturerPatch(name: Option<string>, logo: Option<Option<string>>)

  function NewManufacturer(d: ManufacturerDraft, id: int, now: Timestamp): Manufacturer {
    Manufacturer(id, d.name, d.logo, now)
  }

  function ApplyManufacturer(m: Manufacturer, p: ManufacturerPatch): Manufacturer {
    Manufacturer(m.id, p.name.GetOr(m.name), p.logo.GetOr(m.logo), m.createdAt)
  }

  /** One entry of the location-transfer log. */
  datatype LocationTransfer = LocationTransfer(
    id: int,
    inventoryItemId: int,
    fromLocation: string,
    toLocation: string,
    reason: Option<string>,
    transferredBy: Option<string>,
    notes: Option<string>,
    transferDate: Timestamp)
}
