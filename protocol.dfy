/**
 * The shapes exchanged with the server over the WebSocket: a button row, the JSON object that
 * carries (part of) a button row, and the `{event, data}` frame built by `wsSend`.
 */
module Protocol {
  import opened Wrappers

  /** One preset button as the server's `all_pos` rows describe it; identified by `(cam, pos)`. */
  datatype Button = Button(cam: nat, pos: nat, name: string, btnClass: string)

  /**
   * A JSON object with any subset of the four keys `cam`, `pos`, `name` and `btn_class`;
   * a key that is absent (or `undefined` on the JavaScript side) is `None`.
   */
  datatype Record = Record(cam: Option<nat>, pos: Option<nat>, name: Option<string>, btnClass: Option<string>)

  /** The `data` member of a frame: `null` or an object. */
  datatype Data = Null | Object(record: Record)

  /** One outgoing frame `{"event": event, "data": data}`. */
  datatype Message = Message(event: string, data: Data)

  const EMPTY_RECORD := Record(None, None, None, None)

  /** The data object jQuery keeps for a rendered button: a copy of its row. */
  function ButtonRecord(b: Button): Record {
    Record(Some(b.cam), Some(b.pos), Some(b.name), Some(b.btnClass))
  }

  /** The `{cam, pos}` object that `savePos` and the recall branch build from a data object. */
  function KeyOf(r: Record): Record {
    Record(r.cam, r.pos, None, None)
  }

  /**
   * `$.extend(target, source)`: every key present in `source` overwrites, keys absent from it
   * keep the target's value.
   */
  function Extend(target: Record, source: Record): (r: Record)
    ensures source.cam.Some? ==> r.cam == source.cam
    ensures source.cam.None? ==> r.cam == target.cam
    ensures source.pos.Some? ==> r.pos == source.pos
    ensures source.pos.None? ==> r.pos == target.pos
    ensures source.name.Some? ==> r.name == source.name
    ensures source.name.None? ==> r.name == target.name
    ensures source.btnClass.Some? ==> r.btnClass == source.btnClass
    ensures source.btnClass.None? ==> r.btnClass == target.btnClass
    ensures source.cam.None? && source.pos.None? ==> KeyOf(r) == KeyOf(target)
  {
    Record(if source.cam.Some? then source.cam else target.cam,
           if source.pos.Some? then source.pos else target.pos,
           if source.name.Some? then source.name else target.name,
           if source.btnClass.Some? then source.btnClass else target.btnClass)
  }

  /** `savePos(data)`: a `save_pos` frame carrying only the `cam` and `pos` of `data`. */
  function SavePos(data: Record): (m: Message)
    ensures m.event == "save_pos" && m.data.Object?
    ensures m.data.record.name.None? && m.data.record.btnClass.None?
    ensures KeyOf(m.data.record) == KeyOf(data)
  {
    Message("save_pos", Object(KeyOf(data)))
  }

  /** The recall branch of the click handler: a `recall_pos` frame with `cam` and `pos` only. */
  function RecallPos(data: Record): (m: Message)
    ensures m.event == "recall_pos" && m.data.Object?
    ensures m.data.record.name.None? && m.data.record.btnClass.None?
    ensures KeyOf(m.data.record) == KeyOf(data)
  {
    Message("recall_pos", Object(KeyOf(data)))
  }

  /** `sendOnOff`: "on" and "off" pick one of two events with `null` data; anything else sends nothing. */
  function OnOff(value: string, onEvent: string, offEvent: string): (m: Option<Message>)
    ensures m.Some? <==> value == "on" || value == "off"
    ensures value == "on" ==> m == Some(Message(onEvent, Null))
    ensures value == "off" ==> m == Some(Message(offEvent, Null))
  {
    if value == "on" then Some(Message(onEvent, Null))
    else if value == "off" then Some(Message(offEvent, Null))
    else None
  }

  /** The power group: `power_on` / `power_off`. */
  function PowerMessage(value: string): (m: Option<Message>)
    ensures value == "on" ==> m == Some(Message("power_on", Null))
    ensures value == "off" ==> m == Some(Message("power_off", Null))
    ensures value != "on" && value != "off" ==> m == None
  {
    OnOff(value, "power_on", "power_off")
  }

  /** The focus-lock group: `focus_lock` / `focus_unlock`. */
  function FocusMessage(value: string): (m: Option<Message>)
    ensures value == "on" ==> m == Some(Message("focus_lock", Null))
    ensures value == "off" ==> m == Some(Message("focus_unlock", Null))
    ensures value != "on" && value != "off" ==> m == None
  {
    OnOff(value, "focus_lock", "focus_unlock")
  }

  /** Extending with an object that has every key yields exactly that object. */
  lemma ExtendWithFullRecord(target: Record, b: Button)
    ensures Extend(target, ButtonRecord(b)) == ButtonRecord(b)
  {
  }

  /** Extending twice with the same object is extending once. */
  lemma ExtendIdempotent(target: Record, source: Record)
    ensures Extend(Extend(target, source), source) == Extend(target, source)
  {
  }
}
