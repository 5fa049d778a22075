/**
 * The local mirror of the button grid: the buttons in document order, the camera columns the
 * `init` handler cuts them into, and the shallow-merge patch that `updateButton` applies.
 */
module Grid {
  import opened Wrappers
  import opened Protocol

  predicate HasKey(b: Button, cam: nat, pos: nat) {
    b.cam == cam && b.pos == pos
  }

  /**
   * The button that the id lookup `#button-<cam>-<pos>` finds: the first one in document order
   * with that identity, or none.
   */
  function IndexOf(buttons: seq<Button>, cam: nat, pos: nat): (r: Option<nat>)
    ensures r.Some? ==> r.value < |buttons| && HasKey(buttons[r.value], cam, pos)
    ensures r.Some? ==> forall j :: 0 <= j < r.value ==> !HasKey(buttons[j], cam, pos)
    ensures r.None? <==> forall j :: 0 <= j < |buttons| ==> !HasKey(buttons[j], cam, pos)
  {
    if buttons == [] then None
    else if HasKey(buttons[0], cam, pos) then Some(0)
    else match IndexOf(buttons[1..], cam, pos)
      case None => None
      case Some(i) => Some(i + 1)
  }

  /** `$.extend(button.data(), patch)` read back as a button: present keys win, absent keys stay. */
  function Merge(b: Button, patch: Record): (r: Button)
    ensures ButtonRecord(r) == Extend(ButtonRecord(b), patch)
  {
    Button(patch.cam.GetOr(b.cam), patch.pos.GetOr(b.pos), patch.name.GetOr(b.name), patch.btnClass.GetOr(b.btnClass))
  }

  /**
   * The inbound `update_button` patch: the button found by `(cam, pos)` is merged with the patch;
   * a patch without both keys, or for an identity not on the grid, changes nothing.
   */
  function PatchGrid(buttons: seq<Button>, patch: Record): (r: seq<Button>)
    ensures |r| == |buttons|
    ensures forall i :: 0 <= i < |r| ==> r[i].cam == buttons[i].cam && r[i].pos == buttons[i].pos
  {
    if patch.cam.Some? && patch.pos.Some? then
      match IndexOf(buttons, patch.cam.value, patch.pos.value)
      case Some(i) => buttons[i := Merge(buttons[i], patch)]
      case None => buttons
    else buttons
  }

  /** A patch merges keys that are present and keeps the others; a matching identity is kept. */
  lemma MergeIsShallow(b: Button, patch: Record)
    ensures Merge(b, patch).name == (if patch.name.Some? then patch.name.value else b.name)
    ensures Merge(b, patch).btnClass == (if patch.btnClass.Some? then patch.btnClass.value else b.btnClass)
    ensures patch.cam in {None, Some(b.cam)} && patch.pos in {None, Some(b.pos)} ==>
              Merge(b, patch).cam == b.cam && Merge(b, patch).pos == b.pos
  {
  }

  /** Merging the same patch again changes nothing. */
  lemma MergeIdempotent(b: Button, patch: Record)
    ensures Merge(Merge(b, patch), patch) == Merge(b, patch)
  {
  }

  /** A full record (what a client broadcasts after Save) overwrites every field: last broadcast wins. */
  lemma MergeFullRecord(b: Button, c: Button)
    ensures Merge(b, ButtonRecord(c)) == c
  {
  }

  /** The patch touches exactly the first button with its identity and merges into it. */
  lemma PatchTargetsFirstMatch(buttons: seq<Button>, patch: Record, i: nat)
    requires patch.cam.Some? && patch.pos.Some?
    requires i < |buttons| && HasKey(buttons[i], patch.cam.value, patch.pos.value)
    requires forall j :: 0 <= j < i ==> !HasKey(buttons[j], patch.cam.value, patch.pos.value)
    ensures PatchGrid(buttons, patch)[i] == Merge(buttons[i], patch)
    ensures forall j :: 0 <= j < |buttons| && j != i ==> PatchGrid(buttons, patch)[j] == buttons[j]
  {
  }

  /** A patch for an identity that is not on the grid inserts nothing and changes nothing. */
  lemma PatchMissingIsNoop(buttons: seq<Button>, patch: Record)
    requires forall j :: 0 <= j < |buttons| ==> patch.cam != Some(buttons[j].cam) || patch.pos != Some(buttons[j].pos)
    ensures PatchGrid(buttons, patch) == buttons
  {
    if patch.cam.Some? && patch.pos.Some? {
      assert forall j :: 0 <= j < |buttons| ==> !HasKey(buttons[j], patch.cam.value, patch.pos.value);
    }
  }

  /** Broadcasting a full record for a button on the grid makes that button equal to the record. */
  lemma PatchWithFullRecord(buttons: seq<Button>, c: Button)
    requires exists j :: 0 <= j < |buttons| && HasKey(buttons[j], c.cam, c.pos)
    ensures IndexOf(buttons, c.cam, c.pos).Some?
    ensures PatchGrid(buttons, ButtonRecord(c))[IndexOf(buttons, c.cam, c.pos).value] == c
  {
    MergeFullRecord(buttons[IndexOf(buttons, c.cam, c.pos).value], c);
  }

  // ---------------------------------------------------------------------------------------------
  // Camera columns

  /** One camera column: its camera and the index in the grid of its first button. */
  datatype Column = Column(cam: nat, first: nat)

  /** The `init` loop opens a new column at the first row and whenever `cam` differs from the previous row's. */
  predicate StartsColumn(rows: seq<Button>, i: nat)
    requires i < |rows|
  {
    i == 0 || rows[i].cam != rows[i - 1].cam
  }

  /** The columns the `init` loop creates for `rows`, in order. */
  function Segment(rows: seq<Button>): (cols: seq<Column>)
    ensures |cols| <= |rows|
    ensures cols == [] <==> rows == []
    ensures forall k :: 0 <= k < |cols| ==> cols[k].first < |rows|
    decreases |rows|
  {
    if rows == [] then []
    else
      var n := |rows| - 1;
      if StartsColumn(rows, n) then Segment(rows[..n]) + [Column(rows[n].cam, n)] else Segment(rows[..n])
  }

  /** Reading one more row opens one more column exactly at a change point. */
  lemma SegmentStep(rows: seq<Button>, i: nat)
    requires i < |rows|
    ensures Segment(rows[..i + 1]) ==
      if StartsColumn(rows, i) then Segment(rows[..i]) + [Column(rows[i].cam, i)] else Segment(rows[..i])
  {
    assert rows[..i + 1][..i] == rows[..i];
  }

  /** Where column `k` ends: at the next column's first button, or at the end of the grid. */
  function ColumnEnd(cols: seq<Column>, k: nat, n: nat): nat
    requires k < |cols|
  {
    if k + 1 < |cols| then cols[k + 1].first else n
  }

  /**
   * The columns are exactly the change points of `cam`: every column starts at a change point and
   * carries that row's camera, the columns are in grid order, and every change point opens one.
   */
  lemma {:induction false} SegmentSpec(rows: seq<Button>)
    ensures forall k :: 0 <= k < |Segment(rows)| ==>
              Segment(rows)[k].first < |rows| && StartsColumn(rows, Segment(rows)[k].first) &&
              Segment(rows)[k].cam == rows[Segment(rows)[k].first].cam
    ensures forall k, l :: 0 <= k < l < |Segment(rows)| ==> Segment(rows)[k].first < Segment(rows)[l].first
    ensures forall i :: 0 <= i < |rows| && StartsColumn(rows, i) ==>
              exists k :: 0 <= k < |Segment(rows)| && Segment(rows)[k].first == i
    decreases |rows|
  {
    if rows != [] {
      var n := |rows| - 1;
      var pre := rows[..n];
      SegmentSpec(pre);
      assert forall i :: 0 <= i < n ==> pre[i] == rows[i];
      assert forall i :: 0 <= i < n ==> StartsColumn(pre, i) == StartsColumn(rows, i);
      var cols := Segment(rows);
      if StartsColumn(rows, n) {
        assert cols == Segment(pre) + [Column(rows[n].cam, n)];
        forall i | 0 <= i < |rows| && StartsColumn(rows, i)
          ensures exists k :: 0 <= k < |cols| && cols[k].first == i
        {
          if i == n {
            assert cols[|cols| - 1].first == n;
          } else {
            assert StartsColumn(pre, i);
            var k :| 0 <= k < |Segment(pre)| && Segment(pre)[k].first == i;
            assert cols[k].first == i;
          }
        }
      } else {
        assert cols == Segment(pre);
      }
    }
  }

  /** Every button from a column's first one up to the next column has that column's camera. */
  lemma {:induction false} ColumnContents(rows: seq<Button>, k: nat, i: nat)
    requires k < |Segment(rows)|
    requires Segment(rows)[k].first <= i < ColumnEnd(Segment(rows), k, |rows|)
    requires i < |rows|
    ensures rows[i].cam == Segment(rows)[k].cam
    decreases i
  {
    SegmentSpec(rows);
    var cols := Segment(rows);
    if i > cols[k].first {
      assert forall l :: 0 <= l <= k ==> cols[l].first <= cols[k].first;
      assert forall l :: k < l < |cols| ==> cols[l].first >= ColumnEnd(cols, k, |rows|);
      assert !StartsColumn(rows, i);
      ColumnContents(rows, k, i - 1);
    }
  }

  /** A camera that has no rows gets no column. */
  lemma NoColumnWithoutRows(rows: seq<Button>, cam: nat)
    requires forall i :: 0 <= i < |rows| ==> rows[i].cam != cam
    ensures forall k :: 0 <= k < |Segment(rows)| ==> Segment(rows)[k].cam != cam
  {
    SegmentSpec(rows);
  }

  /** The columns depend only on the cameras of the rows, so a patch that keeps those keeps the columns. */
  lemma {:induction false} SegmentDependsOnCams(a: seq<Button>, b: seq<Button>)
    requires |a| == |b|
    requires forall i :: 0 <= i < |a| ==> a[i].cam == b[i].cam
    ensures Segment(a) == Segment(b)
    decreases |a|
  {
    if a != [] {
      var n := |a| - 1;
      SegmentDependsOnCams(a[..n], b[..n]);
    }
  }
}
