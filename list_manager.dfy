/**
 * The option-list editor (client/src/components/list-manager.tsx:59-130): adding, editing and
 * deleting an entry of one of the lists the vehicle form offers (manufacturers, statuses,
 * locations, colours, ...). Blank values and values already in the list are refused with a
 * message; a saved list is handed to `onSave`.
 */
module ListManager {
  import opened Text
  import opened Seqs

  const BlankMessage: string := "يرجى إدخال قيمة صحيحة"
  const DuplicateMessage: string := "هذا العنصر موجود بالفعل"

  /** The outcome of a handler: the list passed to `onSave`, or the error message shown. */
  datatype ListEdit = Saved(list: seq<string>) | Refused(message: string)

  /** `handleAddItem`: the trimmed value goes to the end unless it is blank or already listed. */
  function Added(list: seq<string>, value: string): ListEdit {
    var v := Trim(value);
    if v == "" then Refused(BlankMessage)
    else if v in list then Refused(DuplicateMessage)
    else Saved(list + [v])
  }

  /** `handleDeleteItem`: `filter((_, i) => i !== index)`. */
  function Deleted(list: seq<string>, index: int): (r: seq<string>)
    ensures 0 <= index < |list| ==> |r| == |list| - 1
    ensures !(0 <= index < |list|) ==> r == list
  {
    if 0 <= index < |list| then list[..index] + list[index + 1..] else list
  }

  /** A blank value is refused and the list is not saved. */
  lemma AddRefusesBlank(list: seq<string>, value: string)
    requires IsBlank(value)
    ensures Added(list, value) == Refused(BlankMessage)
  {
  }

  /**
   * A value is added exactly when its trimmed text is non-empty and not yet listed; the new
   * list is the old one with the trimmed text appended, and a refused duplicate says so.
   */
  lemma AddedIff(list: seq<string>, value: string)
    ensures Added(list, value).Saved? <==> !IsBlank(value) && Trim(value) !in list
    ensures !IsBlank(value) && Trim(value) in list ==> Added(list, value) == Refused(DuplicateMessage)
    ensures Added(list, value).Saved? ==>
      var r := Added(list, value).list;
      |r| == |list| + 1 && r[..|list|] == list && r[|list|] == Trim(value)
  {
  }

  /** Adding keeps a list free of duplicates. */
  lemma AddKeepsNoDup(list: seq<string>, value: string)
    requires NoDup(list)
    ensures Added(list, value).Saved? ==> NoDup(Added(list, value).list)
  {
    if Added(list, value).Saved? {
      var v, r := Trim(value), Added(list, value).list;
      assert r == list + [v] && v !in list;
      forall i, j | 0 <= i < j < |r| ensures r[i] != r[j] {
        if j == |list| {
          assert r[i] == list[i];
        }
      }
    }
  }

  /** Adding the same value twice in a row refuses the second time. */
  lemma AddTwiceRefused(list: seq<string>, value: string)
    requires Added(list, value).Saved?
    ensures Added(Added(list, value).list, value) == Refused(DuplicateMessage)
  {
  }

  /**
   * `handleEditItem`'s decision: a blank value is refused, and so is a value listed where the
   * entry being edited does not already hold it; otherwise position `index` gets the trimmed
   * value.
   */
  function Edited(list: seq<string>, index: nat, value: string): ListEdit
    requires index < |list|
  {
    var v := Trim(value);
    if v == "" then Refused(BlankMessage)
    else if v in list && list[index] != v then Refused(DuplicateMessage)
    else Saved(list[index := v])
  }

  /** The handler as written: copy the list, then assign the one position. */
  method EditItem(list: seq<string>, index: nat, value: string) returns (r: ListEdit)
    requires index < |list|
    ensures r == Edited(list, index, value)
  {
    var v := Trim(value);
    if v == "" {
      return Refused(BlankMessage);
    }
    if v in list && list[index] != v {
      return Refused(DuplicateMessage);
    }
    var edited := CopyWith(list, index, v);
    r := Saved(edited);
  }

  /** `const newList = [...items]; newList[index] = value`. */
  method CopyWith(list: seq<string>, index: nat, v: string) returns (r: seq<string>)
    requires index < |list|
    ensures r == list[index := v]
  {
    var copy := new string[|list|](i requires 0 <= i < |list| => list[i]);
    assert copy[..] == list;
    copy[index] := v;
    r := copy[..];
  }

  /** A saved edit changes position `index` only, to the trimmed value; the length stays. */
  lemma EditReplacesOnlyIndex(list: seq<string>, index: nat, value: string)
    requires index < |list|
    ensures Edited(list, index, value).Saved? <==>
      !IsBlank(value) && (Trim(value) in list ==> list[index] == Trim(value))
    ensures Edited(list, index, value).Saved? ==>
      var r := Edited(list, index, value).list;
      |r| == |list| && r[index] == Trim(value) &&
      forall i :: 0 <= i < |list| && i != index ==> r[i] == list[i]
  {
  }

  /** Saving an entry unchanged is allowed and gives the same list. */
  lemma EditSameValue(list: seq<string>, index: nat)
    requires index < |list| && list[index] != "" && Trim(list[index]) == list[index]
    ensures Edited(list, index, list[index]) == Saved(list)
  {
  }

  /** Editing keeps a list free of duplicates. */
  lemma EditKeepsNoDup(list: seq<string>, index: nat, value: string)
    requires index < |list| && NoDup(list)
    ensures Edited(list, index, value).Saved? ==> NoDup(Edited(list, index, value).list)
  {
  }

  /** Deleting keeps the other entries in order: each entry after `index` moves up by one. */
  lemma DeletedShifts(list: seq<string>, index: nat)
    requires index < |list|
    ensures forall i :: 0 <= i < index ==> Deleted(list, index)[i] == list[i]
    ensures forall i :: index <= i < |list| - 1 ==> Deleted(list, index)[i] == list[i + 1]
  {
  }

  /** Deleting the entry just added gives the list back. */
  lemma DeleteUndoesAdd(list: seq<string>, value: string)
    requires Added(list, value).Saved?
    ensures Deleted(Added(list, value).list, |list|) == list
  {
    var r := Added(list, value).list;
    assert r[..|list|] == list;
  }

  /** Deleting keeps a list free of duplicates. */
  lemma DeleteKeepsNoDup(list: seq<string>, index: int)
    requires NoDup(list)
    ensures NoDup(Deleted(list, index))
  {
    if 0 <= index < |list| {
      var r := Deleted(list, index);
      forall i, j | 0 <= i < j < |r| ensures r[i] != r[j] {
        var i' := if i < index then i else i + 1;
        var j' := if j < index then j else j + 1;
        assert r[i] == list[i'] && r[j] == list[j'];
      }
    }
  }
}
