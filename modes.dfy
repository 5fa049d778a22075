/**
 * The three-way button mode, its keyboard shortcuts, and what a click on a grid button does
 * in each mode.
 */
module Modes {
  import opened Wrappers
  import opened Protocol
  import opened Headers

  /** `mode_recall`, `mode_set` and `mode_label`. */
  datatype Mode = Recall | Set | Label

  /** The background flash a click gives: none, `pulse-red` (rejected) or `pulse-green` (saved). */
  datatype Feedback = NoFlash | PulseRed | PulseGreen

  /** What a click does to the outside world: frames sent, the flash, and whether the label editor opens. */
  datatype Response = Response(sent: seq<Message>, feedback: Feedback, opensEditor: bool)

  /**
   * The page-wide keyup handler: with Ctrl or Alt held, r/R/ArrowLeft select Recall,
   * s/S/ArrowDown select Set and l/L/ArrowRight select Label.
   */
  function Shortcut(key: string, ctrl: bool, alt: bool): (m: Option<Mode>)
    ensures m.Some? ==> ctrl || alt
    ensures m.Some? ==> |key| == 1 || key in {"ArrowLeft", "ArrowDown", "ArrowRight"}
  {
    if !(ctrl || alt) then None
    else if key in {"r", "R", "ArrowLeft"} then Some(Recall)
    else if key in {"s", "S", "ArrowDown"} then Some(Set)
    else if key in {"l", "L", "ArrowRight"} then Some(Label)
    else None
  }

  /** The keyup handler cancels the browser's default action whenever Ctrl or Alt is held. */
  function PreventsDefault(ctrl: bool, alt: bool): bool {
    ctrl || alt
  }

  /** No key selects a mode unless a modifier is held, and then only the nine bound keys do. */
  lemma ShortcutBindings(key: string, ctrl: bool, alt: bool)
    ensures Shortcut(key, ctrl, alt).Some? ==> PreventsDefault(ctrl, alt)
    ensures Shortcut(key, ctrl, alt) == Some(Recall) <==> (ctrl || alt) && (key == "r" || key == "R" || key == "ArrowLeft")
    ensures Shortcut(key, ctrl, alt) == Some(Set) <==> (ctrl || alt) && (key == "s" || key == "S" || key == "ArrowDown")
    ensures Shortcut(key, ctrl, alt) == Some(Label) <==> (ctrl || alt) && (key == "l" || key == "L" || key == "ArrowRight")
  {
  }

  /**
   * The `.ptz-button` click handler, given the clicked button's data, its camera's header and
   * the on-air-change setting.
   */
  function Dispatch(mode: Mode, b: Button, header: Tally, onAirChange: bool): (r: Response)
    ensures r.opensEditor <==> mode == Label
    ensures |r.sent| <= 1
    ensures forall m :: m in r.sent ==> m.data == Object(Record(Some(b.cam), Some(b.pos), None, None))
    ensures r.feedback == PulseRed <==> mode == Recall && r.sent == []
  {
    match mode
    case Recall =>
      if CssClass(header) == "btn-danger" && !onAirChange then Response([], PulseRed, false)
      else Response([RecallPos(ButtonRecord(b))], NoFlash, false)
    case Set => Response([SavePos(ButtonRecord(b))], PulseGreen, false)
    case Label => Response([], NoFlash, true)
  }

  /**
   * Recall guard: a camera in Program with on-air change off sends nothing and flashes red;
   * otherwise exactly one `recall_pos {cam, pos}` is sent.
   */
  lemma RecallGuard(b: Button, header: Tally, onAirChange: bool)
    ensures var r := Dispatch(Recall, b, header, onAirChange);
      (r.sent == [] <==> header == Program && !onAirChange) &&
      (r.sent == [] ==> r.feedback == PulseRed) &&
      (r.sent != [] ==> r.sent == [Message("recall_pos", Object(Record(Some(b.cam), Some(b.pos), None, None)))]) &&
      !r.opensEditor
  {
  }

  /** A Set click sends exactly one `save_pos` with only `cam` and `pos`, and flashes green. */
  lemma SetSavesPosition(b: Button, header: Tally, onAirChange: bool)
    ensures Dispatch(Set, b, header, onAirChange) ==
      Response([Message("save_pos", Object(Record(Some(b.cam), Some(b.pos), None, None)))], PulseGreen, false)
  {
  }

  /** A Label click sends nothing; it only opens the editor. */
  lemma LabelSendsNothing(b: Button, header: Tally, onAirChange: bool)
    ensures Dispatch(Label, b, header, onAirChange).sent == []
    ensures Dispatch(Label, b, header, onAirChange).opensEditor
  {
  }

  /**
   * Mode exclusivity: a click sends at most one frame, its event is fixed by the mode, and only
   * a Label click opens the editor.
   */
  lemma ClickEventsByMode(mode: Mode, b: Button, header: Tally, onAirChange: bool)
    ensures var r := Dispatch(mode, b, header, onAirChange);
      |r.sent| <= 1 &&
      (forall m :: m in r.sent ==> m.event == (if mode == Recall then "recall_pos" else "save_pos")) &&
      (r.opensEditor <==> mode == Label) &&
      (mode == Label ==> r.sent == [])
  {
  }
}
