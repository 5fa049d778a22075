/**
 * The per-camera column headers and their tally colouring: `updatePtzHeader`, the headers the
 * `init` handler creates, and the positional `update_tally` replace.
 */
module Headers {
  import opened Wrappers
  import opened Protocol
  import opened Grid

  /** The on-air state a header shows: idle (not used), preview, or program (live). */
  datatype Tally = Idle | Preview | Program

  /** The tally state numbers the server sends; any other value has no entry in the class table. */
  function TallyOf(state: int): (t: Option<Tally>)
    ensures t.Some? <==> 0 <= state <= 2
    ensures t == Some(Idle) <==> state == 0
    ensures t == Some(Preview) <==> state == 1
    ensures t == Some(Program) <==> state == 2
  {
    if state == 0 then Some(Idle)
    else if state == 1 then Some(Preview)
    else if state == 2 then Some(Program)
    else None
  }

  /** The CSS class a header carries for a tally state. */
  function CssClass(t: Tally): (c: string)
    ensures c == "btn-danger" <==> t == Program
  {
    match t
    case Idle => ""
    case Preview => "btn-success"
    case Program => "btn-danger"
  }

  /** `TALLY_CLASSES`: 0 shows no colour, 1 (Preview) `btn-success`, 2 (Program) `btn-danger`. */
  lemma TallyClassTable()
    ensures CssClass(TallyOf(0).value) == ""
    ensures CssClass(TallyOf(1).value) == "btn-success"
    ensures CssClass(TallyOf(2).value) == "btn-danger"
  {
  }

  /**
   * The tally of a header that `makePtzCol` has just created for `cam`: `tally_states[cam]`,
   * or no class (shown as Idle) when that entry is missing or out of range.
   */
  function FreshTally(tallyStates: seq<int>, cam: nat): (t: Tally)
    ensures cam < |tallyStates| && TallyOf(tallyStates[cam]).Some? ==> Some(t) == TallyOf(tallyStates[cam])
    ensures cam >= |tallyStates| || TallyOf(tallyStates[cam]).None? ==> t == Idle
  {
    if cam < |tallyStates| && TallyOf(tallyStates[cam]).Some? then TallyOf(tallyStates[cam]).value else Idle
  }

  ghost predicate HasCamera(rows: seq<Button>, cam: nat) {
    exists i :: 0 <= i < |rows| && rows[i].cam == cam
  }

  /**
   * The header map after the `init` loop: every column it opens replaces the header of its camera;
   * headers of cameras without rows are never removed from the map.
   */
  function InitHeaders(headers: map<nat, Tally>, rows: seq<Button>, tallyStates: seq<int>): (r: map<nat, Tally>)
    ensures headers.Keys <= r.Keys
    ensures |r.Keys| <= |headers.Keys| + |rows|
    decreases |rows|
  {
    if rows == [] then headers
    else
      var n := |rows| - 1;
      var before := InitHeaders(headers, rows[..n], tallyStates);
      if StartsColumn(rows, n) then before[rows[n].cam := FreshTally(tallyStates, rows[n].cam)] else before
  }

  /** Reading one more row replaces its camera's header exactly at a change point. */
  lemma InitHeadersStep(headers: map<nat, Tally>, rows: seq<Button>, tallyStates: seq<int>, i: nat)
    requires i < |rows|
    ensures InitHeaders(headers, rows[..i + 1], tallyStates) ==
      if StartsColumn(rows, i) then InitHeaders(headers, rows[..i], tallyStates)[rows[i].cam := FreshTally(tallyStates, rows[i].cam)]
      else InitHeaders(headers, rows[..i], tallyStates)
  {
    assert rows[..i + 1][..i] == rows[..i];
  }

  /**
   * After `init` the cameras that have rows show `tally_states[cam]`, all other headers are
   * kept as they were, and no header is added for a camera without rows.
   */
  lemma {:induction false} InitHeadersSpec(headers: map<nat, Tally>, rows: seq<Button>, tallyStates: seq<int>)
    ensures forall c :: c in InitHeaders(headers, rows, tallyStates) <==> c in headers || HasCamera(rows, c)
    ensures forall c :: HasCamera(rows, c) ==> InitHeaders(headers, rows, tallyStates)[c] == FreshTally(tallyStates, c)
    ensures forall c :: c in headers && !HasCamera(rows, c) ==> InitHeaders(headers, rows, tallyStates)[c] == headers[c]
    decreases |rows|
  {
    if rows != [] {
      var n := |rows| - 1;
      var pre := rows[..n];
      InitHeadersSpec(headers, pre, tallyStates);
      assert forall i :: 0 <= i < n ==> pre[i] == rows[i];
      forall c
        ensures HasCamera(rows, c) <==> HasCamera(pre, c) || rows[n].cam == c
      {
        if HasCamera(rows, c) && rows[n].cam != c {
          var i :| 0 <= i < |rows| && rows[i].cam == c;
          assert pre[i].cam == c;
        }
      }
      if !StartsColumn(rows, n) {
        assert pre[n - 1].cam == rows[n].cam;
        assert HasCamera(pre, rows[n].cam);
      }
    }
  }

  /** The first index from `from` on that has no header, or `n` if all of them have one. */
  function FirstMissing(keys: set<nat>, from: nat, n: nat): (r: nat)
    requires from <= n
    ensures from <= r <= n
    ensures forall j :: from <= j < r ==> j in keys
    ensures r < n ==> r !in keys
    decreases n - from
  {
    if from == n || from !in keys then from else FirstMissing(keys, from + 1, n)
  }

  /** The headers after `updatePtzHeader(i, states[i])` for every `i < upTo`. */
  function TallyPrefix(headers: map<nat, Tally>, states: seq<int>, upTo: nat): (r: map<nat, Tally>)
    requires upTo <= |states|
    ensures r.Keys == headers.Keys
    ensures forall c :: c in headers && upTo <= c ==> r[c] == headers[c]
    ensures forall c :: c in headers && c < upTo && TallyOf(states[c]).Some? ==> r[c] == TallyOf(states[c]).value
  {
    map c | c in headers :: if c < upTo && TallyOf(states[c]).Some? then TallyOf(states[c]).value else headers[c]
  }

  /**
   * The headers after the `update_tally` forEach: entries are applied by index until the first index
   * with no header, where `ptzHeaders[index].attr` throws and the rest of the array is dropped.
   */
  function TallyResult(headers: map<nat, Tally>, states: seq<int>): (r: map<nat, Tally>)
    ensures r.Keys == headers.Keys
    ensures forall c :: c in headers && c >= |states| ==> r[c] == headers[c]
  {
    TallyPrefix(headers, states, FirstMissing(headers.Keys, 0, |states|))
  }

  /**
   * `update_tally` is positional: when every index of the array has a header, `states[i]` becomes
   * camera `i`'s tally (an out-of-range state leaves it), and other headers are untouched.
   */
  lemma TallyPositional(headers: map<nat, Tally>, states: seq<int>)
    requires forall i :: 0 <= i < |states| ==> i in headers
    ensures TallyResult(headers, states).Keys == headers.Keys
    ensures forall i :: 0 <= i < |states| && TallyOf(states[i]).Some? ==>
              TallyResult(headers, states)[i] == TallyOf(states[i]).value
    ensures forall i :: 0 <= i < |states| && TallyOf(states[i]).None? ==>
              TallyResult(headers, states)[i] == headers[i]
    ensures forall c :: c in headers && c >= |states| ==> TallyResult(headers, states)[c] == headers[c]
  {
    assert FirstMissing(headers.Keys, 0, |states|) == |states|;
  }

  /** Entries at and after the first index with no header are not applied. */
  lemma TallyStopsAtMissingHeader(headers: map<nat, Tally>, states: seq<int>, k: nat)
    requires k < |states| && k !in headers
    ensures forall c :: c in headers && c >= k ==> TallyResult(headers, states)[c] == headers[c]
  {
    assert FirstMissing(headers.Keys, 0, |states|) <= k;
  }
}
