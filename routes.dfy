/**
 * The logic of the HTTP routes (server/routes.ts) around the store: the required-field and id
 * guards in front of each storage call, the filter object built from the query string, the
 * field trio of the sell route, the duplicate-manufacturer check, the chassis-number clean-up
 * after text recognition and the defaults put into a voice-command result. An HTTP reply is a
 * `Reply`: the payload on success, or the status code and the message or error code.
 */
module Routes {
  import opened Wrappers
  import opened Text
  import opened Seqs
  import opened Items
  import opened Queries
  import opened MemStore
  import opened DbStore

  datatype Reply<T> = Success(value: T) | Failure(code: nat, message: string)

  // ---------------------------------------------------------------------------------------
  // Chassis numbers read off an image (server/routes.ts:93-101 and 644-654)

  /** What the recogniser answers when it sees no chassis number. */
  const NoChassisText: string := "غير موجود"

  /** The characters the clean-up keeps: `[A-Za-z0-9\-]`. */
  predicate IsChassisChar(c: char) {
    'A' <= c <= 'Z' || 'a' <= c <= 'z' || '0' <= c <= '9' || c == '-'
  }

  /** The characters a cleaned chassis number consists of: `[A-Z0-9\-]`. */
  predicate IsCleanChassisChar(c: char) {
    'A' <= c <= 'Z' || '0' <= c <= '9' || c == '-'
  }

  /** `content?.trim() || ""`: the recogniser's answer, trimmed; no answer is the empty text. */
  function ExtractedText(content: Option<string>): string {
    if content.Some? then Trim(content.value) else ""
  }

  /**
   * The clean-up: nothing unless the text is non-empty, is not the "not found" answer and is
   * longer than five UTF-16 units; otherwise the text without the characters outside
   * `[A-Za-z0-9\-]`, upper-cased.
   */
  function SanitizeChassis(text: string): string {
    if text != "" && text != NoChassisText && Utf16Length(text) > 5 then Upper(Filter(text, IsChassisChar))
    else ""
  }

  /** The result is empty exactly on the three rejected kinds of text and on text with no kept character. */
  lemma SanitizeEmpty(text: string)
    ensures SanitizeChassis(text) == "" <==>
      text == "" || text == NoChassisText || Utf16Length(text) <= 5 || Filter(text, IsChassisChar) == []
  {
  }

  /**
   * A non-empty result consists of upper-case letters, digits and hyphens only, and keeps the
   * kept characters of the text in order, each upper-cased.
   */
  lemma SanitizeOutput(text: string)
    ensures var r := SanitizeChassis(text);
      |r| <= |text| &&
      (forall i :: 0 <= i < |r| ==> IsCleanChassisChar(r[i])) &&
      (r != "" ==> r == Upper(Filter(text, IsChassisChar)))
  {
    var r := SanitizeChassis(text);
    if r != "" {
      var kept := Filter(text, IsChassisChar);
      forall i | 0 <= i < |r| ensures IsCleanChassisChar(r[i]) {
        assert kept[i] in kept;
      }
    }
  }

  /** A clean text of ASCII characters has one UTF-16 unit per character. */
  lemma {:induction false} CleanLength(s: string)
    requires forall i :: 0 <= i < |s| ==> IsCleanChassisChar(s[i])
    ensures Utf16Length(s) == |s|
    decreases |s|
  {
    if s != [] {
      assert IsCleanChassisChar(s[0]);
      CleanLength(s[1..]);
    }
  }

  /** Cleaning a cleaned chassis number of more than five characters changes nothing. */
  lemma SanitizeIdempotent(text: string)
    requires |SanitizeChassis(text)| > 5
    ensures SanitizeChassis(SanitizeChassis(text)) == SanitizeChassis(text)
  {
    var r := SanitizeChassis(text);
    SanitizeOutput(text);
    CleanLength(r);
    assert r != NoChassisText by {
      assert NoChassisText[0] == 'غ';
      assert !IsCleanChassisChar(NoChassisText[0]);
    }
    FilterAll(r, IsChassisChar);
    assert Upper(r) == r;
  }

  /** Passing the length test does not make the result long: removed characters count before the test. */
  lemma SanitizeCanBeShort()
    ensures SanitizeChassis("ab-12 !") == "AB-12"
  {
    ShortExampleLength();
    ShortExampleKept();
    ShortExampleUpper();
  }

  lemma ShortExampleLength()
    ensures Utf16Length("ab-12 !") == 7
  {
  }

  lemma ShortExampleKept()
    ensures Filter("ab-12 !", IsChassisChar) == "ab-12"
  {
    assert "ab-12 !" == "ab-12 " + ['!'] && "ab-12 " == "ab-12" + [' '];
    FilterSnoc("ab-12 ", '!', IsChassisChar);
    FilterSnoc("ab-12", ' ', IsChassisChar);
    FilterAll("ab-12", IsChassisChar);
  }

  lemma ShortExampleUpper()
    ensures Upper("ab-12") == "AB-12"
  {
    var u := Upper("ab-12");
    assert u[0] == 'A' && u[1] == 'B' && u[2] == '-' && u[3] == '1' && u[4] == '2';
  }

  /** `extractChassisNumberFromImage`: `{ chassisNumber: chassisNumber || null, rawText }`. */
  function ImageChassis(content: Option<string>): (r: (Option<string>, string)) {
    var raw := ExtractedText(content);
    var clean := SanitizeChassis(raw);
    (if clean != "" then Some(clean) else None, raw)
  }

  /** The `/api/extract-chassis-number` route: `{ chassisNumber: chassisNumber || "", rawText }`. */
  function RouteChassis(content: Option<string>): (r: (string, string)) {
    var raw := ExtractedText(content);
    (SanitizeChassis(raw), raw)
  }

  /** The two agree except that no chassis number is null in one and the empty text in the other. */
  lemma ChassisResultsAgree(content: Option<string>)
    ensures ImageChassis(content).1 == RouteChassis(content).1
    ensures ImageChassis(content).0.None? <==> RouteChassis(content).0 == ""
    ensures ImageChassis(content).0.Some? ==> ImageChassis(content).0.value == RouteChassis(content).0
    ensures content.None? ==> ImageChassis(content) == (None, "") && RouteChassis(content) == ("", "")
  {
  }

  // ---------------------------------------------------------------------------------------
  // Creating a manufacturer (server/routes.ts:425-459)

  /** `find(m => m.name.toLowerCase() === name.toLowerCase())`. */
  function FindNameIgnoringCase(ms: seq<Manufacturer>, name: string): (r: Option<Manufacturer>)
    ensures r.Some? <==> exists i :: 0 <= i < |ms| && Lower(ms[i].name) == Lower(name)
    ensures r.Some? ==> r.value in ms && Lower(r.value.name) == Lower(name)
  {
    if ms == [] then None
    else if Lower(ms[0].name) == Lower(name) then Some(ms[0])
    else
      assert forall i :: 1 <= i < |ms| ==> ms[i] == ms[1..][i - 1];
      FindNameIgnoringCase(ms[1..], name)
  }

  /** The first manufacturer whose name matches is the one found. */
  lemma {:induction false} FindNameFirst(ms: seq<Manufacturer>, name: string, j: nat)
    requires j < |ms| && Lower(ms[j].name) == Lower(name)
    requires forall i :: 0 <= i < j ==> Lower(ms[i].name) != Lower(name)
    ensures FindNameIgnoringCase(ms, name) == Some(ms[j])
    decreases j
  {
    if j > 0 {
      FindNameFirst(ms[1..], name, j - 1);
    }
  }

  /** No two manufacturers have names that are equal ignoring case. */
  predicate NamesDistinctIgnoringCase(ms: seq<Manufacturer>) {
    forall i, j :: 0 <= i < j < |ms| ==> Lower(ms[i].name) != Lower(ms[j].name)
  }

  /**
   * The create route: a name equal to an existing one ignoring case is refused with
   * `duplicate_name` and creates nothing; any other name is stored. So the route keeps the
   * names distinct ignoring case.
   */
  method CreateManufacturerRoute(store: MemStorage, d: ManufacturerDraft, now: Timestamp)
    returns (r: Reply<Manufacturer>)
    requires store.Valid()
    modifies store
    ensures store.Valid()
    ensures r.Failure? <==> FindNameIgnoringCase(old(store.AllManufacturers()), d.name).Some?
    ensures r.Failure? ==> r == Failure(409, "duplicate_name") && unchanged(store)
    ensures r.Success? ==>
      r.value.name == d.name && store.AllManufacturers() == old(store.AllManufacturers()) + [r.value] &&
      store.items == old(store.items) && store.itemOrder == old(store.itemOrder)
    ensures NamesDistinctIgnoringCase(old(store.AllManufacturers())) ==> NamesDistinctIgnoringCase(store.AllManufacturers())
  {
    var existing := store.GetAllManufacturers();
    if FindNameIgnoringCase(existing, d.name).Some? {
      return Failure(409, "duplicate_name");
    }
    var m := store.CreateManufacturer(d, now);
    r := Success(m);
    ghost var after := store.AllManufacturers();
    assert after[..|existing|] == existing && after[|existing|] == m;
  }

  // ---------------------------------------------------------------------------------------
  // The filter object (server/routes.ts:180-201)

  /** `if (x) filters.x = x`: a present, non-empty parameter. */
  function Given(param: Option<string>): Option<string> {
    OrNull(param)
  }

  /** `if (year) filters.year = parseInt(year)`. */
  function GivenYear(param: Option<string>): Option<JsInt> {
    if param.Some? && param.value != "" then Some(ParseInt(param.value)) else None
  }

  /** The filter object for the query parameters, field by field. */
  function QueryCriteria(category: Option<string>, status: Option<string>, year: Option<string>,
                         manufacturer: Option<string>, importType: Option<string>,
                         location: Option<string>): Criteria {
    Criteria(Given(category), Given(status), GivenYear(year), Given(manufacturer), Given(importType), Given(location))
  }

  /** The route's construction: start from `{}` and set each field whose parameter is given. */
  method BuildCriteria(category: Option<string>, status: Option<string>, year: Option<string>,
                       manufacturer: Option<string>, importType: Option<string>, location: Option<string>)
    returns (f: Criteria)
    ensures f == QueryCriteria(category, status, year, manufacturer, importType, location)
  {
    f := NoCriteria;
    if category.Some? && category.value != "" {
      f := f.(category := category);
    }
    if status.Some? && status.value != "" {
      f := f.(status := status);
    }
    if year.Some? && year.value != "" {
      f := f.(year := Some(ParseInt(year.value)));
    }
    if manufacturer.Some? && manufacturer.value != "" {
      f := f.(manufacturer := manufacturer);
    }
    if importType.Some? && importType.value != "" {
      f := f.(importType := importType);
    }
    if location.Some? && location.value != "" {
      f := f.(location := location);
    }
  }

  /** A field is in the filter object exactly when its parameter is given, and then holds it. */
  lemma QueryCriteriaFields(category: Option<string>, status: Option<string>, year: Option<string>,
                            manufacturer: Option<string>, importType: Option<string>, location: Option<string>)
    ensures var f := QueryCriteria(category, status, year, manufacturer, importType, location);
      (f.category.Some? <==> category.Some? && category.value != "") && (f.category.Some? ==> f.category == category) &&
      (f.status.Some? <==> status.Some? && status.value != "") && (f.status.Some? ==> f.status == status) &&
      (f.year.Some? <==> year.Some? && year.value != "") && (f.year.Some? ==> f.year.value == ParseInt(year.value)) &&
      (f.manufacturer.Some? <==> manufacturer.Some? && manufacturer.value != "") &&
      (f.manufacturer.Some? ==> f.manufacturer == manufacturer) &&
      (f.importType.Some? <==> importType.Some? && importType.value != "") &&
      (f.importType.Some? ==> f.importType == importType) &&
      (f.location.Some? <==> location.Some? && location.value != "") && (f.location.Some? ==> f.location == location)
  {
  }

  /** A request without parameters returns every vehicle. */
  lemma QueryWithoutParameters(items: seq<Item>)
    ensures FilterItems(items, QueryCriteria(None, None, None, None, None, None)) == items
  {
    assert QueryCriteria(None, None, None, None, None, None) == NoCriteria;
    FilterNoCriteria(items);
  }

  /** The query made of a vehicle's own fields, its year written in decimal, returns that vehicle. */
  lemma QueryOfOwnFields(items: seq<Item>, x: Item)
    requires x in items
    ensures x in FilterItems(items, QueryCriteria(Some(x.category), Some(x.status), Some(IntToString(x.year)),
                                                  Some(x.manufacturer), Some(x.importType), Some(x.location)))
  {
    ParseIntToString(x.year);
    assert IntToString(x.year) != "" by {
      if x.year < 0 {} else { assert |NatToString(x.year)| > 0; }
    }
  }

  /** A year parameter that is not a number imposes nothing. */
  lemma QueryYearNotANumber(items: seq<Item>, year: string)
    requires ParseInt(year).NaN?
    ensures FilterItems(items, QueryCriteria(None, None, Some(year), None, None, None)) == items
  {
    var f := QueryCriteria(None, None, Some(year), None, None, None);
    assert FilterItems(items, f) == Filter(items, x => MatchesCriteria(f, x));
    FilterAll(items, x => MatchesCriteria(f, x));
  }

  // ---------------------------------------------------------------------------------------
  // Selling (server/routes.ts:252-268 and 371-391)

  /** The update the PUT sell route sends: the sold status, the sold flag and the date together. */
  function SellPatch(now: Timestamp): Patch {
    NoChange.(status := Some(Sold), isSold := Some(true), soldDate := Some(Some(now)))
  }

  /** The PUT sell update leaves a vehicle consistently sold and changes nothing else. */
  lemma SellPatchSells(item: Item, now: Timestamp)
    ensures Apply(item, SellPatch(now)) == item.(status := Sold, isSold := true, soldDate := Some(now))
    ensures SoldConsistent(Apply(item, SellPatch(now)))
  {
  }

  /**
   * The POST sell route's `markAsSold` sets the flag but not the status: a vehicle that was not
   * in the sold status is left flagged sold with another status.
   */
  lemma MarkAsSoldLeavesStatus(item: Item, now: Timestamp)
    requires item.status != Sold
    ensures !SoldConsistent(item.(isSold := true, soldDate := Some(now)))
    ensures SoldConsistent(Apply(item, SellPatch(now)))
  {
  }

  /** `parseInt(req.params.id)` followed by the `isNaN(id)` guard. */
  function ParseId(param: string): Option<int> {
    match ParseInt(param)
    case Num(n) => Some(n)
    case NaN => None
  }

  /** PUT `/api/inventory/:id/sell`. */
  method SellRoute(db: DatabaseStorage, idParam: string, now: Timestamp) returns (r: Reply<Item>)
    requires db.Valid()
    modifies db
    ensures db.Valid()
    ensures ParseId(idParam).None? ==> r == Failure(400, "Invalid item ID") && unchanged(db)
    ensures ParseId(idParam).Some? && ParseId(idParam).value !in old(db.items) ==>
      r == Failure(404, "Item not found") && db.items == old(db.items)
    ensures ParseId(idParam).Some? && ParseId(idParam).value in old(db.items) ==>
      var id := ParseId(idParam).value;
      r == Success(Apply(old(db.items[id]), SellPatch(now))) && db.items == old(db.items)[id := r.value] &&
      SoldConsistent(r.value)
    ensures db.transfers == old(db.transfers)
  {
    var id := ParseId(idParam);
    if id.None? {
      return Failure(400, "Invalid item ID");
    }
    if id.value in db.items {
      assert Apply(db.items[id.value], SellPatch(now)).chassisNumber == db.items[id.value].chassisNumber;
      assert !ChassisTaken(db.items, db.items[id.value].chassisNumber, id.value);
    }
    var w := db.UpdateInventoryItem(id.value, SellPatch(now));
    if !w.Written? {
      return Failure(404, "Item not found");
    }
    r := Success(w.item);
  }

  /** POST `/api/inventory/:id/sell`. */
  method MarkSoldRoute(db: DatabaseStorage, idParam: string, now: Timestamp) returns (r: Reply<()>)
    requires db.Valid()
    modifies db
    ensures db.Valid()
    ensures ParseId(idParam).None? ==> r == Failure(400, "Invalid item ID") && unchanged(db)
    ensures ParseId(idParam).Some? ==>
      var id := ParseId(idParam).value;
      (r.Success? <==> id in old(db.items)) &&
      (r.Failure? ==> r == Failure(404, "Item not found") && db.items == old(db.items)) &&
      (r.Success? ==> db.items == old(db.items)[id := old(db.items[id]).(isSold := true, soldDate := Some(now))])
    ensures db.transfers == old(db.transfers)
  {
    var id := ParseId(idParam);
    if id.None? {
      return Failure(400, "Invalid item ID");
    }
    var ok := db.MarkAsSold(id.value, now);
    if !ok {
      return Failure(404, "Item not found");
    }
    r := Success(());
  }

  // ---------------------------------------------------------------------------------------
  // The other guarded routes (server/routes.ts:166-178, 226-312, 315-368, 396-413, 587-605)

  /** GET `/api/inventory/search`: a missing or empty `q` is refused before the store is read. */
  method SearchRoute(db: DatabaseStorage, q: Option<string>) returns (r: Reply<seq<Item>>)
    requires db.Valid()
    ensures q.None? || q.value == "" ==> r == Failure(400, "Search query is required")
    ensures q.Some? && q.value != "" ==> r == Success(SearchDb(db.Rows(), q.value))
  {
    if q.None? || q.value == "" {
      return Failure(400, "Search query is required");
    }
    var found := db.SearchInventoryItems(q.value);
    r := Success(found);
  }

  /** PATCH `/api/inventory/:id/transfer`: the id is checked, then the location, then the store is asked. */
  method TransferRoute(db: DatabaseStorage, idParam: string, location: Option<string>, now: Timestamp)
    returns (r: Reply<()>)
    requires db.Valid()
    modifies db
    ensures db.Valid()
    ensures ParseId(idParam).None? ==> r == Failure(400, "Invalid item ID") && unchanged(db)
    ensures ParseId(idParam).Some? && (location.None? || location.value == "") ==>
      r == Failure(400, "Location is required") && unchanged(db)
    ensures ParseId(idParam).Some? && location.Some? && location.value != "" ==>
      var id := ParseId(idParam).value;
      (r.Success? <==> id in old(db.items)) &&
      (r.Failure? ==> r == Failure(404, "Item not found") && db.items == old(db.items) && db.transfers == old(db.transfers)) &&
      (r.Success? ==>
        db.items == old(db.items)[id := old(db.items[id]).(location := location.value)] &&
        db.transfers == LogTransfer(old(db.transfers), old(db.items[id]), location.value, None, None,
                                    old(db.nextTransferId), now))
  {
    var id := ParseId(idParam);
    if id.None? {
      return Failure(400, "Invalid item ID");
    }
    if location.None? || location.value == "" {
      return Failure(400, "Location is required");
    }
    var ok := db.TransferItem(id.value, location.value, None, None, now);
    if !ok {
      return Failure(404, "Item not found");
    }
    r := Success(());
  }

  /**
   * POST `/api/inventory/:id/transfer`: only the new location is checked; a text that is not a
   * number reaches the store and finds no vehicle.
   */
  method PostTransferRoute(db: DatabaseStorage, idParam: string, newLocation: Option<string>,
                           reason: Option<string>, transferredBy: Option<string>, now: Timestamp)
    returns (r: Reply<()>)
    requires db.Valid()
    modifies db
    ensures db.Valid()
    ensures newLocation.None? || newLocation.value == "" ==> r == Failure(400, "New location is required") && unchanged(db)
    ensures newLocation.Some? && newLocation.value != "" ==>
      (r.Success? <==> ParseId(idParam).Some? && ParseId(idParam).value in old(db.items)) &&
      (r.Failure? ==> r == Failure(404, "Item not found") && db.items == old(db.items) && db.transfers == old(db.transfers)) &&
      (r.Success? ==>
        var id := ParseId(idParam).value;
        db.items == old(db.items)[id := old(db.items[id]).(location := newLocation.value)] &&
        db.transfers == LogTransfer(old(db.transfers), old(db.items[id]), newLocation.value, reason, transferredBy,
                                    old(db.nextTransferId), now))
  {
    if newLocation.None? || newLocation.value == "" {
      return Failure(400, "New location is required");
    }
    var id := ParseId(idParam);
    if id.None? {
      return Failure(404, "Item not found");
    }
    var ok := db.TransferItem(id.value, newLocation.value, reason, transferredBy, now);
    if !ok {
      return Failure(404, "Item not found");
    }
    r := Success(());
  }

  /** POST `/api/inventory/:id/reserve`: the id is checked, then who reserves. */
  method ReserveRoute(db: DatabaseStorage, idParam: string, reservedBy: Option<string>, note: Option<string>,
                      now: Timestamp) returns (r: Reply<()>)
    requires db.Valid()
    modifies db
    ensures db.Valid()
    ensures ParseId(idParam).None? ==> r == Failure(400, "Invalid item ID") && unchanged(db)
    ensures ParseId(idParam).Some? && (reservedBy.None? || reservedBy.value == "") ==>
      r == Failure(400, "Reserved by is required") && unchanged(db)
    ensures ParseId(idParam).Some? && reservedBy.Some? && reservedBy.value != "" ==>
      var id := ParseId(idParam).value;
      (r.Success? <==> id in old(db.items)) &&
      (r.Failure? ==> r == Failure(404, "Item not found") && db.items == old(db.items)) &&
      (r.Success? ==> db.items == old(db.items)[id := WithReservation(old(db.items[id]), reservedBy.value, note, now)])
    ensures db.transfers == old(db.transfers)
  {
    var id := ParseId(idParam);
    if id.None? {
      return Failure(400, "Invalid item ID");
    }
    if reservedBy.None? || reservedBy.value == "" {
      return Failure(400, "Reserved by is required");
    }
    var ok := db.ReserveItem(id.value, reservedBy.value, note, now);
    if !ok {
      return Failure(404, "Item not found");
    }
    r := Success(());
  }

  /** POST `/api/inventory/:id/cancel-reservation`. */
  method CancelReservationRoute(db: DatabaseStorage, idParam: string) returns (r: Reply<()>)
    requires db.Valid()
    modifies db
    ensures db.Valid()
    ensures ParseId(idParam).None? ==> r == Failure(400, "Invalid item ID") && unchanged(db)
    ensures ParseId(idParam).Some? ==>
      var id := ParseId(idParam).value;
      (r.Success? <==> id in old(db.items)) &&
      (r.Failure? ==> r == Failure(404, "Item not found") && db.items == old(db.items)) &&
      (r.Success? ==> db.items == old(db.items)[id := WithoutReservation(old(db.items[id]))])
    ensures db.transfers == old(db.transfers)
  {
    var id := ParseId(idParam);
    if id.None? {
      return Failure(400, "Invalid item ID");
    }
    var ok := db.CancelReservation(id.value);
    if !ok {
      return Failure(404, "Item not found");
    }
    r := Success(());
  }

  /** POST `/api/inventory`: a chassis number already stored is refused with `DUPLICATE_CHASSIS_NUMBER`. */
  method CreateItemRoute(db: DatabaseStorage, d: Draft, now: Timestamp) returns (r: Reply<Item>)
    requires db.Valid()
    modifies db
    ensures db.Valid()
    ensures r.Failure? <==> ChassisTaken(old(db.items), d.chassisNumber, old(db.nextItemId))
    ensures r.Failure? ==> r == Failure(400, "DUPLICATE_CHASSIS_NUMBER") && db.items == old(db.items)
    ensures r.Success? ==> r.value == NewItem(d, old(db.nextItemId), now) && db.Rows() == old(db.Rows()) + [r.value]
    ensures db.transfers == old(db.transfers)
  {
    var w := db.CreateInventoryItem(d, now);
    if w.DuplicateChassisNumber? {
      return Failure(400, "DUPLICATE_CHASSIS_NUMBER");
    }
    r := Success(w.item);
  }

  /** PATCH `/api/inventory/:id`: a chassis number another vehicle has makes the update fail. */
  method UpdateItemRoute(db: DatabaseStorage, idParam: string, p: Patch) returns (r: Reply<Item>)
    requires db.Valid()
    modifies db
    ensures db.Valid()
    ensures ParseId(idParam).None? ==> r == Failure(400, "Invalid item ID") && unchanged(db)
    ensures ParseId(idParam).Some? ==>
      var id := ParseId(idParam).value;
      (id !in old(db.items) ==> r == Failure(404, "Item not found") && db.items == old(db.items)) &&
      (id in old(db.items) && ChassisTaken(old(db.items), Apply(old(db.items[id]), p).chassisNumber, id) ==>
        r == Failure(500, "Failed to update inventory item") && db.items == old(db.items)) &&
      (id in old(db.items) && !ChassisTaken(old(db.items), Apply(old(db.items[id]), p).chassisNumber, id) ==>
        r.Success?) &&
      (r.Success? ==> r.value == Apply(old(db.items[id]), p) && db.items == old(db.items)[id := r.value])
    ensures db.transfers == old(db.transfers)
  {
    var id := ParseId(idParam);
    if id.None? {
      return Failure(400, "Invalid item ID");
    }
    var w := db.UpdateInventoryItem(id.value, p);
    match w
    case Written(item) => r := Success(item);
    case NotFound => r := Failure(404, "Item not found");
    case DuplicateChassisNumber => r := Failure(500, "Failed to update inventory item");
  }

  /** DELETE `/api/inventory/:id`. */
  method DeleteItemRoute(db: DatabaseStorage, idParam: string) returns (r: Reply<()>)
    requires db.Valid()
    modifies db
    ensures db.Valid()
    ensures ParseId(idParam).None? ==> r == Failure(400, "Invalid item ID") && unchanged(db)
    ensures ParseId(idParam).Some? ==>
      var id := ParseId(idParam).value;
      (r.Success? <==> id in old(db.items)) &&
      (r.Failure? ==> r == Failure(404, "Item not found")) &&
      db.items == old(db.items) - {id}
    ensures db.transfers == old(db.transfers)
  {
    var id := ParseId(idParam);
    if id.None? {
      return Failure(400, "Invalid item ID");
    }
    var ok := db.DeleteInventoryItem(id.value);
    if !ok {
      return Failure(404, "Item not found");
    }
    r := Success(());
  }

  // ---------------------------------------------------------------------------------------
  // Voice-command results (server/routes.ts:19-66)

  /** A JSON value as far as truthiness goes; an array or object is `Object`. */
  datatype JsValue = Undefined | Null | Bool(b: bool) | Number(x: real) | Str(s: string) | Object(keys: seq<string>)

  /** JavaScript truthiness (a `NaN` cannot arise from `JSON.parse`). */
  predicate Truthy(v: JsValue) {
    match v
    case Undefined => false
    case Null => false
    case Bool(b) => b
    case Number(x) => x != 0.0
    case Str(s) => s != ""
    case Object(_) => true
  }

  /** `a || b`. */
  function Or(a: JsValue, b: JsValue): JsValue {
    if Truthy(a) then a else b
  }

  /** The fields read from the parsed model answer; an absent field is `Undefined`. */
  datatype VoiceResult = VoiceResult(intent: JsValue, entities: JsValue, confidence: JsValue, action: JsValue, content: JsValue)

  const DefaultContent: string := "تم معالجة طلبك."

  /** The parse of `"{}"`, used when the model gives no content. */
  const EmptyAnswer: VoiceResult := VoiceResult(Undefined, Undefined, Undefined, Undefined, Undefined)

  /** The defaults put into a parsed answer. */
  function WithVoiceDefaults(r: VoiceResult): VoiceResult {
    VoiceResult(Or(r.intent, Str("unknown")), Or(r.entities, Object([])), Or(r.confidence, Number(0.5)),
                Or(r.action, r.intent), Or(r.content, Str(DefaultContent)))
  }

  /** The result when the model call or the parse fails. */
  const VoiceFailure: VoiceResult :=
    VoiceResult(Str("error"), Object([]), Number(0.0), Str("error"), Str("عذراً، لم أتمكن من فهم طلبك. يرجى المحاولة مرة أخرى."))

  /**
   * Intent, entities, confidence and content always come out truthy; a truthy field passes
   * unchanged and a falsy one becomes its default; the action falls back to the intent as
   * the model gave it.
   */
  lemma VoiceDefaultsApplied(r: VoiceResult)
    ensures var d := WithVoiceDefaults(r);
      Truthy(d.intent) && Truthy(d.entities) && Truthy(d.confidence) && Truthy(d.content) &&
      (d.intent == if Truthy(r.intent) then r.intent else Str("unknown")) &&
      (d.entities == if Truthy(r.entities) then r.entities else Object([])) &&
      (d.confidence == if Truthy(r.confidence) then r.confidence else Number(0.5)) &&
      (d.action == if Truthy(r.action) then r.action else r.intent) &&
      (d.content == if Truthy(r.content) then r.content else Str(DefaultContent))
  {
  }

  /** Defaults are applied once: a second pass changes nothing but a falsy action. */
  lemma VoiceDefaultsStable(r: VoiceResult)
    ensures var d := WithVoiceDefaults(r); var d2 := WithVoiceDefaults(d);
      d2.intent == d.intent && d2.entities == d.entities && d2.confidence == d.confidence &&
      d2.content == d.content && (Truthy(d.action) ==> d2.action == d.action)
  {
  }

  /**
   * An empty answer gets intent "unknown" but no action, since the action falls back to the
   * intent before its default; a confidence of 0 is replaced by 0.5.
   */
  lemma VoiceEmptyAnswer()
    ensures WithVoiceDefaults(EmptyAnswer) ==
      VoiceResult(Str("unknown"), Object([]), Number(0.5), Undefined, Str(DefaultContent))
    ensures WithVoiceDefaults(EmptyAnswer.(confidence := Number(0.0))).confidence == Number(0.5)
  {
  }
}
