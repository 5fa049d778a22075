/**
 * The control panel page as one state object: the mirror of the server's grid and tallies,
 * the button mode, the clicked button and the label draft, the on-air-change setting, and the
 * frames sent so far.
 */
module Panel {
  import opened Wrappers
  import opened Protocol
  import opened Grid
  import opened Headers
  import opened Modes
  import opened Editing

  /**
   * An inbound frame, by event name. `Other` stands for an event name other than `init`,
   * `update_button` and `update_tally`, which the handler only logs.
   */
  datatype Inbound =
    | InitMessage(allPos: seq<Button>, tallyStates: seq<int>)
    | UpdateButtonMessage(patch: Record)
    | UpdateTallyMessage(states: seq<int>)
    | Other(event: string)

  /**
   * The `posData.forEach` loop of `init`: `cam` holds the previous row's camera (`null` before the
   * first row) and a column with a fresh header is opened whenever the row's camera differs from it.
   */
  method BuildColumns(allPos: seq<Button>, tallyStates: seq<int>, headers: map<nat, Tally>)
    returns (cols: seq<Column>, hdrs: map<nat, Tally>)
    ensures cols == Segment(allPos)
    ensures hdrs == InitHeaders(headers, allPos, tallyStates)
    ensures forall j :: 0 <= j < |allPos| ==> allPos[j].cam in hdrs
  {
    cols, hdrs := [], headers;
    var cam: Option<nat> := None;
    var i := 0;
    while i < |allPos|
      invariant 0 <= i <= |allPos|
      invariant cols == Segment(allPos[..i])
      invariant hdrs == InitHeaders(headers, allPos[..i], tallyStates)
      invariant cam == if i == 0 then None else Some(allPos[i - 1].cam)
      invariant forall j :: 0 <= j < i ==> allPos[j].cam in hdrs
    {
      var row := allPos[i];
      SegmentStep(allPos, i);
      InitHeadersStep(headers, allPos, tallyStates, i);
      if cam != Some(row.cam) {
        cam := Some(row.cam);
        cols := cols + [Column(row.cam, i)];
        hdrs := hdrs[row.cam := FreshTally(tallyStates, row.cam)];
      }
      i := i + 1;
    }
    assert allPos[..i] == allPos;
  }

  class ControlPanel {
    /** The rendered buttons in document order, each with its jQuery data. */
    var buttons: seq<Button>
    /** The camera columns of the grid, in document order. */
    var columns: seq<Column>
    /** `ptzHeaders`: the header element kept for each camera, shown by its tally. */
    var headers: map<nat, Tally>
    /** How many `init` frames have rebuilt the grid; tells live elements from removed ones. */
    var generation: nat
    var mode: Mode
    var clickedButton: Option<ClickRef>
    /** The label input's text and the checked colour radio of the label dialog. */
    var draftName: string
    var draftClass: Option<string>
    /** The checked state of `#on-air-change-on`. */
    var onAirChange: bool
    /** Every frame handed to the WebSocket, oldest first. */
    var outbox: seq<Message>
    /** The values of the colour radios of the label dialog. */
    const classChoices: set<string>

    ghost predicate Valid()
      reads this
    {
      (forall i :: 0 <= i < |buttons| ==> buttons[i].cam in headers) &&
      columns == Segment(buttons) &&
      (clickedButton.Some? ==> clickedButton.value.generation <= generation) &&
      (clickedButton.Some? && IsLive(clickedButton.value, generation) ==> clickedButton.value.index < |buttons|) &&
      (draftClass.Some? ==> draftClass.value in classChoices)
    }

    /** The page before the first frame: an empty grid, Recall mode, nothing clicked, nothing sent. */
    constructor (onAirChange: bool, classChoices: set<string>, checkedClass: Option<string>)
      requires checkedClass.Some? ==> checkedClass.value in classChoices
      ensures Valid()
      ensures buttons == [] && columns == [] && headers == map[] && generation == 0
      ensures mode == Recall && clickedButton == None
      ensures draftName == "" && draftClass == checkedClass
      ensures this.onAirChange == onAirChange && this.classChoices == classChoices
      ensures outbox == []
    {
      buttons, columns, headers, generation := [], [], map[], 0;
      mode, clickedButton := Recall, None;
      draftName, draftClass := "", checkedClass;
      this.onAirChange, this.classChoices := onAirChange, classChoices;
      outbox := [];
    }

    /**
     * `init`: the grid is emptied and rebuilt from `allPos` in input order; a column (and a fresh
     * header showing `tallyStates[cam]`) is opened whenever `cam` changes.
     */
    method Init(allPos: seq<Button>, tallyStates: seq<int>)
      requires Valid()
      modifies this
      ensures Valid()
      ensures buttons == allPos
      ensures columns == Segment(allPos)
      ensures headers == InitHeaders(old(headers), allPos, tallyStates)
      ensures generation == old(generation) + 1
      ensures mode == old(mode) && clickedButton == old(clickedButton)
      ensures draftName == old(draftName) && draftClass == old(draftClass)
      ensures onAirChange == old(onAirChange) && outbox == old(outbox)
    {
      generation := generation + 1;
      var cols, hdrs := BuildColumns(allPos, tallyStates, headers);
      buttons, columns, headers := allPos, cols, hdrs;
    }

    /** `update_button` from the server: the shallow-merge patch of `updateButton`. */
    method UpdateButton(patch: Record)
      requires Valid()
      modifies this
      ensures Valid()
      ensures buttons == PatchGrid(old(buttons), patch)
      ensures columns == old(columns) && headers == old(headers) && generation == old(generation)
      ensures mode == old(mode) && clickedButton == old(clickedButton)
      ensures draftName == old(draftName) && draftClass == old(draftClass)
      ensures onAirChange == old(onAirChange) && outbox == old(outbox)
    {
      buttons := PatchGrid(buttons, patch);
      SegmentDependsOnCams(old(buttons), buttons);
    }

    /**
     * `update_tally`: `updatePtzHeader(i, states[i])` for each index in turn, stopping at the first
     * index that has no header (the lookup throws there). `completed` says no index was missing.
     */
    method UpdateTally(states: seq<int>) returns (completed: bool)
      requires Valid()
      modifies this
      ensures Valid()
      ensures headers == TallyResult(old(headers), states)
      ensures completed <==> forall i :: 0 <= i < |states| ==> i in old(headers)
      ensures buttons == old(buttons) && columns == old(columns) && generation == old(generation)
      ensures mode == old(mode) && clickedButton == old(clickedButton)
      ensures draftName == old(draftName) && draftClass == old(draftClass)
      ensures onAirChange == old(onAirChange) && outbox == old(outbox)
    {
      ghost var reach := FirstMissing(old(headers).Keys, 0, |states|);
      var i := 0;
      completed := true;
      while i < |states|
        invariant i <= reach
        invariant headers == TallyPrefix(old(headers), states, i)
        invariant completed
        modifies this`headers
      {
        if i !in headers {
          completed := false;
          break;
        }
        match TallyOf(states[i]) {
          case Some(t) => headers := headers[i := t];
          case None =>
        }
        assert headers == TallyPrefix(old(headers), states, i + 1);
        i := i + 1;
      }
      assert i == reach;
    }

    /** The `onmessage` switch; an unknown event changes nothing. */
    method OnMessage(msg: Inbound)
      requires Valid()
      modifies this
      ensures Valid()
      ensures msg.Other? ==> buttons == old(buttons) && columns == old(columns) && headers == old(headers) &&
                             generation == old(generation)
      ensures msg.InitMessage? ==> buttons == msg.allPos && columns == Segment(msg.allPos) &&
                                   headers == InitHeaders(old(headers), msg.allPos, msg.tallyStates)
      ensures msg.UpdateButtonMessage? ==> buttons == PatchGrid(old(buttons), msg.patch) && headers == old(headers)
      ensures msg.UpdateTallyMessage? ==> buttons == old(buttons) && headers == TallyResult(old(headers), msg.states)
      ensures msg.InitMessage? ==> generation == old(generation) + 1
      ensures !msg.InitMessage? ==> generation == old(generation)
      ensures mode == old(mode) && clickedButton == old(clickedButton)
      ensures draftName == old(draftName) && draftClass == old(draftClass)
      ensures onAirChange == old(onAirChange) && outbox == old(outbox)
    {
      match msg
      case InitMessage(allPos, tallyStates) => Init(allPos, tallyStates);
      case UpdateButtonMessage(patch) => UpdateButton(patch);
      case UpdateTallyMessage(states) => var _ := UpdateTally(states);
      case Other(_) =>
    }

    /** A change on the mode radio group: the mode becomes the selected one. */
    method SelectMode(m: Mode)
      requires Valid()
      modifies this`mode
      ensures Valid()
      ensures mode == m
    {
      mode := m;
    }

    /** The page-wide keyup handler; `prevented` is whether the browser default was cancelled. */
    method KeyUp(key: string, ctrl: bool, alt: bool) returns (prevented: bool)
      requires Valid()
      modifies this`mode
      ensures Valid()
      ensures mode == (match Shortcut(key, ctrl, alt) case Some(m) => m case None => old(mode))
      ensures prevented == PreventsDefault(ctrl, alt)
    {
      match Shortcut(key, ctrl, alt) {
        case Some(m) => SelectMode(m);
        case None =>
      }
      prevented := PreventsDefault(ctrl, alt);
    }

    /** A click on the on-air-change group sets the protection setting. */
    method SetOnAirChange(on: bool)
      requires Valid()
      modifies this`onAirChange
      ensures Valid()
      ensures onAirChange == on
    {
      onAirChange := on;
    }

    /** `sendOnOff`, as the power and focus-lock groups call it with their event pairs. */
    method SendOnOff(value: string, onEvent: string, offEvent: string)
      requires Valid()
      modifies this`outbox
      ensures Valid()
      ensures outbox == old(outbox) + (match OnOff(value, onEvent, offEvent) case Some(m) => [m] case None => [])
    {
      match OnOff(value, onEvent, offEvent) {
        case Some(m) => outbox := outbox + [m];
        case None =>
      }
    }

    /** The clear-all button: `clear_all` with `null` data, only once the user has confirmed. */
    method ClearAll(confirmed: bool)
      requires Valid()
      modifies this`outbox
      ensures Valid()
      ensures outbox == old(outbox) + (if confirmed then [Message("clear_all", Null)] else [])
    {
      if confirmed {
        outbox := outbox + [Message("clear_all", Null)];
      }
    }

    /**
     * A click on grid button `index`: it always becomes the clicked button; the mode decides what
     * is sent, and a Label click pre-fills the dialog from the button's name and class.
     */
    method Click(index: nat) returns (feedback: Feedback)
      requires Valid() && index < |buttons|
      modifies this
      ensures Valid()
      ensures clickedButton == Some(ClickRef(index, generation))
      ensures var r := Dispatch(mode, buttons[index], headers[buttons[index].cam], onAirChange);
        outbox == old(outbox) + r.sent && feedback == r.feedback
      ensures mode == Label ==>
        (draftName == buttons[index].name &&
         draftClass == (if buttons[index].btnClass in classChoices then Some(buttons[index].btnClass) else old(draftClass)))
      ensures mode != Label ==> draftName == old(draftName) && draftClass == old(draftClass)
      ensures buttons == old(buttons) && columns == old(columns) && headers == old(headers)
      ensures generation == old(generation) && mode == old(mode) && onAirChange == old(onAirChange)
    {
      clickedButton := Some(ClickRef(index, generation));
      var b := buttons[index];
      var r := Dispatch(mode, b, headers[b.cam], onAirChange);
      outbox := outbox + r.sent;
      feedback := r.feedback;
      if r.opensEditor {
        if b.btnClass in classChoices {
          draftClass := Some(b.btnClass);
        }
        draftName := b.name;
      }
    }

    /** Typing in the label input. */
    method EditName(name: string)
      requires Valid()
      modifies this`draftName
      ensures Valid()
      ensures draftName == name
    {
      draftName := name;
    }

    /** Checking one of the colour radios. */
    method ChooseClass(btnClass: string)
      requires Valid() && btnClass in classChoices
      modifies this`draftClass
      ensures Valid()
      ensures draftClass == Some(btnClass)
    {
      draftClass := Some(btnClass);
    }

    /**
     * The dialog's Save: the clicked element's data is merged with the draft first, the merged
     * record is sent as `update_button`, and the clicked button is cleared. With no clicked
     * button the handler throws before doing anything.
     */
    method Save()
      requires Valid()
      modifies this
      ensures Valid()
      ensures old(clickedButton).None? ==> buttons == old(buttons) && outbox == old(outbox) && clickedButton == None
      ensures old(clickedButton).Some? ==>
        var draft := DraftPatch(old(draftName), old(draftClass));
        buttons == SavedGrid(old(buttons), old(clickedButton).value, old(generation), draft) &&
        outbox == old(outbox) + [Message("update_button", Object(SavedRecord(old(buttons), old(clickedButton).value, old(generation), draft)))] &&
        clickedButton == None
      ensures columns == old(columns) && headers == old(headers) && generation == old(generation)
      ensures mode == old(mode) && onAirChange == old(onAirChange)
      ensures draftName == old(draftName) && draftClass == old(draftClass)
    {
      match clickedButton {
        case None =>
        case Some(ref) =>
          var draft := DraftPatch(draftName, draftClass);
          var saved := SavedRecord(buttons, ref, generation, draft);
          var grid := SavedGrid(buttons, ref, generation, draft);
          SegmentDependsOnCams(buttons, grid);
          buttons := grid;
          outbox := outbox + [Message("update_button", Object(saved))];
          clickedButton := None;
      }
    }

    /**
     * Save+Set: Save, then, once the dialog has closed, `savePos` on the data object Save extended,
     * which sends `save_pos` for the same `cam` and `pos`.
     */
    method SaveAndSet() returns (feedback: Feedback)
      requires Valid()
      modifies this
      ensures Valid()
      ensures old(clickedButton).None? ==> buttons == old(buttons) && outbox == old(outbox) && feedback == NoFlash
      ensures old(clickedButton).Some? ==>
        var draft := DraftPatch(old(draftName), old(draftClass));
        var saved := SavedRecord(old(buttons), old(clickedButton).value, old(generation), draft);
        buttons == SavedGrid(old(buttons), old(clickedButton).value, old(generation), draft) &&
        outbox == old(outbox) + [Message("update_button", Object(saved)), SavePos(saved)] &&
        feedback == PulseGreen
      ensures clickedButton == None
      ensures columns == old(columns) && headers == old(headers) && generation == old(generation)
      ensures mode == old(mode) && onAirChange == old(onAirChange)
      ensures draftName == old(draftName) && draftClass == old(draftClass)
    {
      feedback := NoFlash;
      if clickedButton.Some? {
        var ref := clickedButton.value;
        var saved := SavedRecord(buttons, ref, generation, DraftPatch(draftName, draftClass));
        Save();
        outbox := outbox + [SavePos(saved)];
        feedback := PulseGreen;
      }
    }
  }
}
