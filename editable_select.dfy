/**
 * The select box with an inline "add option" field (client/src/components/editable-select.tsx).
 * Its component state is the pair `isAdding` / `newOption`; the callbacks `onAddOption` and
 * `onValueChange` it receives from its parent are recorded as the sequences of values passed
 * to them, so that what a handler does to the outside world is part of the state.
 */
module EditableSelect {
  import opened Wrappers
  import opened Text

  /**
   * `handleAddOption`'s decision: the trimmed text, when it is non-blank and the parent passed
   * `onAddOption`; nothing otherwise.
   */
  function AddedOption(newOption: string, hasAddOption: bool): (r: Option<string>)
    ensures r.Some? <==> hasAddOption && !IsBlank(newOption)
    ensures r.Some? ==> r.value == Trim(newOption)
  {
    if !IsBlank(newOption) && hasAddOption then Some(Trim(newOption)) else None
  }

  /** `disabled={!newOption.trim()}` on the add button. */
  predicate AddDisabled(newOption: string) {
    IsBlank(newOption)
  }

  /**
   * An option that is added is non-blank and already trimmed; the button is disabled exactly
   * when, with `onAddOption` present, a click would add nothing.
   */
  lemma AddedOptionClean(newOption: string, hasAddOption: bool)
    ensures AddedOption(newOption, hasAddOption).Some? ==>
      IsCleanOption(AddedOption(newOption, hasAddOption).value)
    ensures hasAddOption ==> (AddDisabled(newOption) <==> AddedOption(newOption, hasAddOption).None?)
  {
    TrimIdempotent(newOption);
  }

  /** What `onAddOption` may receive: a non-blank, trimmed text. */
  predicate IsCleanOption(o: string) {
    !IsBlank(o) && Trim(o) == o
  }

  /** The keys `handleKeyPress` distinguishes. */
  datatype Key = Enter | Escape | Other(name: string)

  class Select {
    var isAdding: bool
    var newOption: string
    /** Whether the parent passed `onAddOption`. */
    const hasAddOption: bool
    /** The values passed to `onAddOption`, oldest first. */
    var addedOptions: seq<string>
    /** The values passed to `onValueChange`, oldest first. */
    var valueChanges: seq<string>

    /** Every option handed to the parent is non-blank and trimmed, and only if it asked for them. */
    ghost predicate Valid()
      reads this
    {
      (forall i :: 0 <= i < |addedOptions| ==> IsCleanOption(addedOptions[i])) &&
      (!hasAddOption ==> addedOptions == [])
    }

    /** The initial state: `useState(false)` and `useState("")`. */
    constructor(hasAddOption: bool)
      ensures Valid()
      ensures this.hasAddOption == hasAddOption
      ensures !isAdding && newOption == ""
      ensures addedOptions == [] && valueChanges == []
    {
      this.hasAddOption := hasAddOption;
      isAdding, newOption := false, "";
      addedOptions, valueChanges := [], [];
    }

    /** The plus button of the closed view, rendered only when `onAddOption` was passed. */
    method StartAdding()
      requires Valid() && !isAdding && hasAddOption
      modifies this
      ensures Valid()
      ensures isAdding && newOption == old(newOption)
      ensures addedOptions == old(addedOptions) && valueChanges == old(valueChanges)
    {
      isAdding := true;
    }

    /** The input's `onChange`: the text is replaced by what was typed. */
    method Type(text: string)
      requires Valid() && isAdding
      modifies this
      ensures Valid()
      ensures isAdding && newOption == text
      ensures addedOptions == old(addedOptions) && valueChanges == old(valueChanges)
    {
      newOption := text;
    }

    /**
     * `handleAddOption`: with a non-blank text and `onAddOption` present, the same trimmed
     * text goes to both callbacks and the field closes, cleared; otherwise nothing happens.
     */
    method AddOption()
      requires Valid()
      modifies this
      ensures Valid()
      ensures match AddedOption(old(newOption), hasAddOption)
        case Some(v) =>
          addedOptions == old(addedOptions) + [v] && valueChanges == old(valueChanges) + [v] &&
          newOption == "" && !isAdding
        case None =>
          addedOptions == old(addedOptions) && valueChanges == old(valueChanges) &&
          newOption == old(newOption) && isAdding == old(isAdding)
    {
      if !IsBlank(newOption) && hasAddOption {
        var v := Trim(newOption);
        TrimIdempotent(newOption);
        assert IsCleanOption(v);
        addedOptions := addedOptions + [v];
        valueChanges := valueChanges + [v];
        newOption := "";
        isAdding := false;
      }
    }

    /**
     * `handleKeyPress`: Enter adds as the button does; Escape closes the field and clears it
     * without adding; other keys do nothing.
     */
    method KeyPress(key: Key)
      requires Valid() && isAdding
      modifies this
      ensures Valid()
      ensures key == Enter ==>
        match AddedOption(old(newOption), hasAddOption)
        case Some(v) =>
          addedOptions == old(addedOptions) + [v] && valueChanges == old(valueChanges) + [v] &&
          newOption == "" && !isAdding
        case None =>
          addedOptions == old(addedOptions) && valueChanges == old(valueChanges) &&
          newOption == old(newOption) && isAdding
      ensures key == Escape ==>
        !isAdding && newOption == "" &&
        addedOptions == old(addedOptions) && valueChanges == old(valueChanges)
      ensures key.Other? ==>
        isAdding && newOption == old(newOption) &&
        addedOptions == old(addedOptions) && valueChanges == old(valueChanges)
    {
      if key == Enter {
        AddOption();
      } else if key == Escape {
        isAdding, newOption := false, "";
      }
    }

    /** The cancel button: the field closes and is cleared, nothing is added. */
    method Cancel()
      requires Valid() && isAdding
      modifies this
      ensures Valid()
      ensures !isAdding && newOption == ""
      ensures addedOptions == old(addedOptions) && valueChanges == old(valueChanges)
    {
      isAdding, newOption := false, "";
    }

    /** Picking an entry of the closed select passes it straight to `onValueChange`. */
    method SelectValue(option: string)
      requires Valid() && !isAdding
      modifies this
      ensures Valid()
      ensures valueChanges == old(valueChanges) + [option]
      ensures !isAdding && newOption == old(newOption) && addedOptions == old(addedOptions)
    {
      valueChanges := valueChanges + [option];
    }
  }
}
