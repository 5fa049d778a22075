# ptzctrl control panel: client state core

A Dafny model of the client half of the ptzctrl multi-camera preset panel (`static/control.js`).
The page keeps a local mirror of the server's button grid (one column per camera) and of the
per-camera tally state (idle / preview / program). It turns clicks on the grid into WebSocket
frames according to a three-way mode: Recall, Set and Label.

The model has these modules:

- `Protocol` (`protocol.dfy`): the button row, the JSON objects that carry button data, the
  `{event, data}` frame built by `wsSend`, `$.extend`, `savePos` and `sendOnOff`.
- `Grid` (`grid.dfy`): the id lookup, the shallow-merge patch of `updateButton`, and the
  column segmentation of the `init` loop.
- `Headers` (`headers.dfy`): tally classes (`updatePtzHeader`), the headers `init` creates, and
  the positional `update_tally`.
- `Modes` (`modes.dfy`): the mode, its keyboard shortcuts, and the click dispatcher as a function.
- `Editing` (`editing.dfy`): what Save and Save+Set store and send.
- `Panel` (`panel.dfy`): a class `ControlPanel` whose fields are the page's mutable state. It has
  one method per event handler. `outbox` stands for the WebSocket: every frame sent is appended
  to it.

Some modelling decisions follow the code closely:

- `ptzHeaders` is never cleared by `init`. A header made by an earlier `init` stays in the map,
  so `InitHeaders` starts from the old map.
- A tally state other than 0, 1 or 2 has no entry in `TALLY_CLASSES`. The header's class is then
  left as it was. A fresh header with such a state has no class, and it is modelled as `Idle`.
  The recall guard only tests for `btn-danger`, so it cannot tell those two apart.
- In `update_tally`, an index with no header makes `ptzHeaders[index].attr` throw. The rest of
  the array is then not applied (`FirstMissing`, `TallyResult`). A stricter design would reject
  a mismatched array as a whole. The code does not, and the model follows the code.
- `clickedButton` is set on every click, in every mode (static/control.js:203). It is a
  reference to the button element. `init` empties the wrapper, and jQuery then drops the data of
  the removed elements. So a Save that comes after an `init` changes no live button. It sends
  only `name` and `btn_class`, and Save+Set then sends a `save_pos` with neither `cam` nor
  `pos`. `ClickRef` records the `init` generation to tell whether the element is still live.
- Save with no clicked button throws at `null.data()` and does nothing. Dismissing the dialog
  does not clear `clickedButton` in the code, so the model has no cancel operation.
- `$.extend` skips `undefined` values. If no colour radio is checked, Save keeps the button's
  class. If a Label click finds no radio for the button's class, the previous radio stays checked.

## Model

| member | source | states |
|---|---|---|
| Protocol.Extend | static/control.js:78 | for each of `cam`, `pos`, `name` and `btn_class`, a key present in the source object overwrites and an absent key keeps the target's value |
| Protocol.OnOff | static/control.js:93-101 | "on" sends exactly the on-event with `null` data, "off" exactly the off-event with `null` data, and any other value sends nothing |
| Protocol.SavePos | static/control.js:111-117 | a `save_pos` frame whose object carries the `cam` and `pos` of the data and no name or class |
| Protocol.RecallPos | static/control.js:210-213 | a `recall_pos` frame whose object carries the `cam` and `pos` of the data and no name or class |
| Protocol.PowerMessage | static/control.js:159-160 | "on" sends `power_on`, "off" sends `power_off`, both with `null`; any other value sends nothing |
| Protocol.FocusMessage | static/control.js:162-163 | "on" sends `focus_lock`, "off" sends `focus_unlock`, both with `null`; any other value sends nothing |
| Protocol.ExtendWithFullRecord | static/control.js:78 | extending with an object that has every key yields that object |
| Protocol.ExtendIdempotent | static/control.js:78 | extending twice with the same object equals extending once |
| Grid.IndexOf | static/control.js:74-76 | the id lookup finds the first button with identity `(cam, pos)`; none is found exactly when no button has it |
| Grid.PatchGrid | static/control.js:141-143 | an `update_button` patch never changes the number of buttons or any button's `(cam, pos)` |
| Grid.Merge | static/control.js:78 | the merged button's record is exactly `$.extend` of the stored data object with the patch |
| Grid.MergeIsShallow | static/control.js:73-85 | fields present in the patch overwrite, absent fields stay, and a matching identity is kept |
| Grid.MergeIdempotent | static/control.js:78 | applying the same patch twice equals applying it once |
| Grid.MergeFullRecord | static/control.js:141-143 | a full button record overwrites every field, so the last broadcast wins |
| Grid.PatchTargetsFirstMatch | static/control.js:73-85 | the patch merges into the first button with its identity and leaves every other button unchanged |
| Grid.PatchMissingIsNoop | static/control.js:74-78 | a patch for an identity not on the grid inserts nothing and changes nothing |
| Grid.PatchWithFullRecord | static/control.js:141-143 | after a full record is broadcast for a button on the grid, that button equals the record |
| Grid.SegmentStep | static/control.js:133-138 | one more row opens one more column exactly when its `cam` differs from the previous row's |
| Grid.Segment | static/control.js:130-139 | no more columns than rows, none exactly when there are no rows, and every column starts at a row of the grid |
| Grid.SegmentSpec | static/control.js:130-139 | every column starts at a change of `cam` and carries that row's camera; columns are in grid order; every change of `cam` opens a column |
| Grid.ColumnContents | static/control.js:133-139 | every button from a column's first one up to the next column has that column's camera |
| Grid.NoColumnWithoutRows | static/control.js:133-137 | a camera with no rows gets no column |
| Grid.SegmentDependsOnCams | static/control.js:73-85 | the columns depend only on the buttons' cameras, so patches keep them |
| Headers.TallyOf | static/control.js:49-53 | 0 is Idle, 1 is Preview, 2 is Program, and no other number has an entry in the class table |
| Headers.CssClass | static/control.js:49-53 | the header shows `btn-danger`, the class the recall guard tests for, exactly when its camera is in Program |
| Headers.TallyClassTable | static/control.js:49-53 | the class table: 0 shows `""`, 1 shows `btn-success`, 2 shows `btn-danger` |
| Headers.FreshTally | static/control.js:34-35 | a header made for `cam` shows the tally of `tally_states[cam]`, or no colour (Idle) when that entry is missing or out of range |
| Headers.InitHeadersStep | static/control.js:134-136 | one more row replaces its camera's header exactly at a change of `cam` |
| Headers.InitHeaders | static/control.js:133-137 | `init` never removes a header from `ptzHeaders` and adds at most one per row |
| Headers.InitHeadersSpec | static/control.js:30-35 | after `init`, each camera with rows shows `tally_states[cam]`; other headers are kept; no header is added for a camera without rows |
| Headers.FirstMissing | static/control.js:54-55 | the index where the `update_tally` loop throws: every earlier index has a header, and this one has none or is the end |
| Headers.TallyPrefix | static/control.js:145 | after the first `upTo` calls of `updatePtzHeader`, those indices show `data[i]` when it is a valid state, later headers are unchanged, and no header is added or removed |
| Headers.TallyResult | static/control.js:144-146 | `update_tally` never adds or removes a header and leaves every header beyond the array unchanged |
| Headers.TallyPositional | static/control.js:144-146 | when every index has a header, `data[i]` becomes camera `i`'s tally; an out-of-range state and the headers beyond the array are unchanged |
| Headers.TallyStopsAtMissingHeader | static/control.js:54-55 | entries at and after an index with no header are not applied |
| Modes.ShortcutBindings | static/control.js:179-195 | with Ctrl or Alt held, r/R/ArrowLeft select Recall, s/S/ArrowDown select Set and l/L/ArrowRight select Label; no other key selects a mode; a selection implies the default is prevented |
| Modes.Shortcut | static/control.js:179-192 | a mode is selected only with Ctrl or Alt held, and only by a one-letter key or one of the three arrow keys |
| Modes.Dispatch | static/control.js:202-227 | the click handler: the editor opens exactly in Label, at most one frame is sent and it carries only the button's `cam` and `pos`, and the red flash comes exactly with a rejected recall |
| Modes.RecallGuard | static/control.js:206-215 | in Recall, nothing is sent and the flash is red exactly when the camera is in Program and on-air change is off; otherwise one `recall_pos {cam, pos}` is sent |
| Modes.SetSavesPosition | static/control.js:216-218 | in Set, exactly one `save_pos` with only `cam` and `pos` is sent, with a green flash |
| Modes.LabelSendsNothing | static/control.js:219-225 | in Label, nothing is sent and the editor opens |
| Modes.ClickEventsByMode | static/control.js:205-226 | a click sends at most one frame, its event is fixed by the mode, and only Label opens the editor |
| Editing.SaveIsLocalFirst | static/control.js:242-247 | Save on a live element stores the draft name and class, keeps the identity, touches no other button, and sends exactly the stored record |
| Editing.SaveOfRemovedElement | static/control.js:242-247 | Save on an element removed by `init` (whose data `ptzWrapper.empty()` dropped) changes no live button and sends the draft alone |
| Editing.SaveSetSamePosition | static/control.js:251-255 | the `save_pos` after Save+Set carries the same `cam`/`pos` as the element's data, which are the edited button's identity when it is live |
| Editing.ElementData | static/control.js:252 | the data of a live element carries the button's `cam` and `pos` and every key; the data of a removed element has no key |
| Editing.SavedRecord | static/control.js:243-247 | the sent record carries the draft's name and checked class, and the element data's `cam` and `pos` |
| Editing.SavedGrid | static/control.js:243-246 | Save changes only the clicked live button, keeps every identity, and never changes the number of buttons |
| Panel.BuildColumns | static/control.js:130-139 | the `forEach` loop yields exactly the columns `Segment(all_pos)` and the headers `InitHeaders`, and every row's camera has a header |
| Panel.ControlPanel.constructor | static/control.js:165-169 | the page starts empty, in Recall mode, with nothing clicked and nothing sent |
| Panel.ControlPanel.Init | static/control.js:126-140 | the grid becomes exactly `all_pos` in input order, with the columns and headers above; mode, clicked button, draft and outbox are unchanged |
| Panel.ControlPanel.UpdateButton | static/control.js:141-143 | the grid becomes `PatchGrid` of the old grid; nothing else changes |
| Panel.ControlPanel.UpdateTally | static/control.js:144-146 | the headers become `TallyResult` of the old headers; the loop completes exactly when every index has a header; nothing else changes |
| Panel.ControlPanel.OnMessage | static/control.js:120-150 | dispatch by event; `init` starts a new element generation and no other frame does; an unknown event changes neither grid nor tally; no inbound frame changes mode, clicked button or outbox |
| Panel.ControlPanel.SelectMode | static/control.js:171-173 | the mode becomes the selected one |
| Panel.ControlPanel.KeyUp | static/control.js:179-195 | the mode becomes the shortcut's mode, if any, and is otherwise unchanged; the default is prevented exactly with Ctrl or Alt |
| Panel.ControlPanel.SetOnAirChange | static/control.js:10-11 | the on-air-change setting becomes the clicked value |
| Panel.ControlPanel.SendOnOff | static/control.js:93-101 | the outbox gains the `OnOff` message, or nothing for a value other than "on"/"off" |
| Panel.ControlPanel.ClearAll | static/control.js:153-157 | `clear_all` with `null` is sent exactly when the user confirmed |
| Panel.ControlPanel.Click | static/control.js:202-227 | the button becomes the clicked one; the outbox gains exactly `Dispatch`'s frames; Label pre-fills the draft; grid, headers and mode are unchanged |
| Panel.ControlPanel.EditName | static/control.js:244 | the draft name becomes the typed text |
| Panel.ControlPanel.ChooseClass | static/control.js:245 | the draft class becomes the checked radio's value |
| Panel.ControlPanel.Save | static/control.js:242-250 | the grid is merged locally before one `update_button` with the stored record is appended; the clicked button is cleared; with no clicked button, nothing happens |
| Panel.ControlPanel.SaveAndSet | static/control.js:251-255 | Save, then exactly one `save_pos` for the same `cam`/`pos` after the `update_button` |

## Left out

- DOM construction and CSS manipulation (`$.new`, `makePtzCol`, `makePtzButton`, `.text()`, `.addClass()`): the grid, column and header fields stand for them.
- The camera addresses (`camera_ips`): they only feed the column headings' text.
- `flashBackground`, its timer and durations: only the kind of flash is returned from `Click` and `SaveAndSet`.
- The Bootstrap dialog: showing, hiding, focus and text selection, and the Enter/Ctrl+Enter keys inside it. The `hidden.bs.modal` chaining is modelled as a `save_pos` appended right after the `update_button`, with no other event in between.
- `localStorage` and the initial click that restores the on-air-change setting: the setting is a constructor argument and `SetOnAirChange`. The `confirm()` dialog of clear-all is the `confirmed` argument.
- The WebSocket transport and `JSON.parse`/`JSON.stringify`: `outbox` and the `Inbound` datatype stand for them. JSON `null` inside a button object, and keys other than the four button keys, are not modelled.
- Malformed inbound frames, such as `init` data missing a key or `update_tally` data that is not an array.
- The mode radio values are taken to be the three mode names; a mode value other than those three would make a click do nothing, and this is not modelled.
- main.py: the server side (asyncio WebSocket server, Flask thread, UDP camera commands, database) is not part of this model.
