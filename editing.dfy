/**
 * The label editor: which button it edits, and what Save and Save+Set send and store.
 */
module Editing {
  import opened Wrappers
  import opened Protocol
  import opened Grid

  /**
   * The clicked button element: its place in the grid and the `init` generation that created it.
   * An element from an older generation has been removed by `ptzWrapper.empty()`, which also
   * drops its jQuery data.
   */
  datatype ClickRef = ClickRef(index: nat, generation: nat)

  predicate IsLive(ref: ClickRef, generation: nat) {
    ref.generation == generation
  }

  /** The dialog's values: the label text, and the checked colour radio (none may be checked). */
  function DraftPatch(name: string, btnClass: Option<string>): Record {
    Record(None, None, Some(name), btnClass)
  }

  /** `clickedButton.data()`: the row of a live element, an empty object for a removed one. */
  function ElementData(buttons: seq<Button>, ref: ClickRef, generation: nat): (r: Record)
    requires IsLive(ref, generation) ==> ref.index < |buttons|
    ensures IsLive(ref, generation) ==> r.cam == Some(buttons[ref.index].cam) && r.pos == Some(buttons[ref.index].pos)
    ensures IsLive(ref, generation) ==> r.name.Some? && r.btnClass.Some?
    ensures !IsLive(ref, generation) ==> r.cam.None? && r.pos.None? && r.name.None? && r.btnClass.None?
  {
    if IsLive(ref, generation) then ButtonRecord(buttons[ref.index]) else EMPTY_RECORD
  }

  /** The object Save sends as `update_button`: the element's data extended with the draft. */
  function SavedRecord(buttons: seq<Button>, ref: ClickRef, generation: nat, draft: Record): (r: Record)
    requires IsLive(ref, generation) ==> ref.index < |buttons|
    ensures draft.name.Some? ==> r.name == draft.name
    ensures draft.btnClass.Some? ==> r.btnClass == draft.btnClass
    ensures draft.cam.None? && draft.pos.None? ==> KeyOf(r) == KeyOf(ElementData(buttons, ref, generation))
  {
    Extend(ElementData(buttons, ref, generation), draft)
  }

  /** The grid after Save: a live element is merged with the draft; a removed one changes no live button. */
  function SavedGrid(buttons: seq<Button>, ref: ClickRef, generation: nat, draft: Record): (r: seq<Button>)
    requires IsLive(ref, generation) ==> ref.index < |buttons|
    ensures |r| == |buttons|
    ensures forall j :: 0 <= j < |r| && (j != ref.index || !IsLive(ref, generation)) ==> r[j] == buttons[j]
    ensures draft.cam.None? && draft.pos.None? ==>
      forall j :: 0 <= j < |r| ==> r[j].cam == buttons[j].cam && r[j].pos == buttons[j].pos
  {
    if IsLive(ref, generation) then buttons[ref.index := Merge(buttons[ref.index], draft)] else buttons
  }

  /**
   * Save on a live element stores the draft locally, keeps the button's identity, and sends
   * exactly the stored, merged record.
   */
  lemma SaveIsLocalFirst(buttons: seq<Button>, ref: ClickRef, generation: nat, name: string, btnClass: Option<string>)
    requires IsLive(ref, generation) && ref.index < |buttons|
    ensures var grid := SavedGrid(buttons, ref, generation, DraftPatch(name, btnClass));
      var b := buttons[ref.index];
      grid[ref.index] == Button(b.cam, b.pos, name, btnClass.GetOr(b.btnClass)) &&
      SavedRecord(buttons, ref, generation, DraftPatch(name, btnClass)) == ButtonRecord(grid[ref.index]) &&
      (forall j :: 0 <= j < |buttons| && j != ref.index ==> grid[j] == buttons[j])
  {
  }

  /** Save on a removed element changes no live button and sends the draft alone. */
  lemma SaveOfRemovedElement(buttons: seq<Button>, ref: ClickRef, generation: nat, draft: Record)
    requires !IsLive(ref, generation)
    ensures SavedGrid(buttons, ref, generation, draft) == buttons
    ensures SavedRecord(buttons, ref, generation, draft) == draft
  {
  }

  /**
   * Save+Set: the `save_pos` that follows the `update_button` carries the same `cam` and `pos`,
   * which for a live element are the edited button's identity.
   */
  lemma SaveSetSamePosition(buttons: seq<Button>, ref: ClickRef, generation: nat, name: string, btnClass: Option<string>)
    requires IsLive(ref, generation) ==> ref.index < |buttons|
    ensures var saved := SavedRecord(buttons, ref, generation, DraftPatch(name, btnClass));
      SavePos(saved).data == Object(KeyOf(saved)) &&
      KeyOf(saved) == KeyOf(ElementData(buttons, ref, generation)) &&
      (IsLive(ref, generation) ==>
         KeyOf(saved) == Record(Some(buttons[ref.index].cam), Some(buttons[ref.index].pos), None, None))
  {
  }
}
