/**
 * The per-record-type column rewrites of cmd/expand and the selector of the
 * record type. A record is a CSV row; the rewrite overwrites a fixed set of
 * its columns in place and keeps every other column and the row length.
 */
module ExpandRecords {
  import opened Wrappers
  import opened Expand

  /** The two column rewrites: plain re-encoding and flow expansion. */
  datatype ColumnOp = Reencode | FlowExpand

  function ApplyOp(c: Codec, op: ColumnOp, field: string): Result<string, Failure> {
    match op
    case Reencode => ReencodeField(c, field)
    case FlowExpand => FlowColumn(c, field)
  }

  predicate Distinct(cols: seq<nat>) {
    forall i, j :: 0 <= i < j < |cols| ==> cols[i] != cols[j]
  }

  /**
   * Rewrites the columns `cols` of `rec` in order with `op`; the first
   * failure, or a column past the end of the row (a Go index panic), is the
   * result. On success the row keeps its length and every other column; with
   * distinct columns, it succeeds exactly when every listed column exists and
   * its rewrite succeeds, and each listed column holds its rewrite.
   */
  function Rewrite(c: Codec, rec: seq<string>, cols: seq<nat>, op: ColumnOp): (r: Result<seq<string>, Failure>)
    decreases |cols|
    ensures r.Ok? ==> |r.value| == |rec|
    ensures r.Ok? ==> forall i :: 0 <= i < |rec| && i !in cols ==> r.value[i] == rec[i]
    ensures Distinct(cols) ==>
              (r.Ok? <==> forall k :: 0 <= k < |cols| ==> cols[k] < |rec| && ApplyOp(c, op, rec[cols[k]]).Ok?)
    ensures Distinct(cols) && r.Ok? ==>
              forall k :: 0 <= k < |cols| ==> r.value[cols[k]] == ApplyOp(c, op, rec[cols[k]]).value
  {
    if cols == [] then Ok(rec)
    else if cols[0] >= |rec| then Fail(IndexOutOfRange)
    else
      match ApplyOp(c, op, rec[cols[0]])
      case Fail(e) => Fail(e)
      case Ok(v) =>
        var next := rec[cols[0] := v];
        assert Distinct(cols) ==> forall k :: 1 <= k < |cols| ==> cols[k] != cols[0] && cols[1..][k - 1] == cols[k];
        Rewrite(c, next, cols[1..], op)
  }

  /** Unfolding one column of a rewrite. */
  lemma RewriteStep(c: Codec, rec: seq<string>, cols: seq<nat>, k: nat, op: ColumnOp)
    requires k < |cols| && cols[k] < |rec| && ApplyOp(c, op, rec[cols[k]]).Ok?
    ensures Rewrite(c, rec, cols[k..], op)
         == Rewrite(c, rec[cols[k] := ApplyOp(c, op, rec[cols[k]]).value], cols[k + 1..], op)
  {
    assert cols[k..][0] == cols[k] && cols[k..][1..] == cols[k + 1..];
  }

  /** Rewrites the listed columns of `record` in place with reencode_field. */
  method ReencodeColumns(c: Codec, record: array<string>, cols: seq<nat>) returns (outcome: Result<(), Failure>)
    modifies record
    ensures match Rewrite(c, old(record[..]), cols, Reencode)
            case Ok(r) => outcome.Ok? && record[..] == r
            case Fail(e) => outcome == Fail(e)
  {
    for k := 0 to |cols|
      invariant Rewrite(c, old(record[..]), cols, Reencode) == Rewrite(c, record[..], cols[k..], Reencode)
    {
      var i := cols[k];
      if i >= record.Length {
        return Fail(IndexOutOfRange);
      }
      var r := ReencodeField(c, record[i]);
      if r.Fail? {
        return Fail(r.error);
      }
      RewriteStep(c, record[..], cols, k, Reencode);
      record[i] := r.value;
    }
    return Ok(());
  }

  /** Rewrites the listed columns of `record` in place with expand_flow. */
  method ExpandFlowColumns(c: Codec, record: array<string>, cols: seq<nat>) returns (outcome: Result<(), Failure>)
    modifies record
    ensures match Rewrite(c, old(record[..]), cols, FlowExpand)
            case Ok(r) => outcome.Ok? && record[..] == r
            case Fail(e) => outcome == Fail(e)
  {
    for k := 0 to |cols|
      invariant Rewrite(c, old(record[..]), cols, FlowExpand) == Rewrite(c, record[..], cols[k..], FlowExpand)
    {
      var i := cols[k];
      if i >= record.Length {
        return Fail(IndexOutOfRange);
      }
      var r := ExpandFlow(c, record[i]);
      if r.Fail? {
        return Fail(r.error);
      }
      RewriteStep(c, record[..], cols, k, FlowExpand);
      record[i] := r.value;
    }
    return Ok(());
  }

  // ---------------------------------------------------------------------------
  // Steps and actions
  // ---------------------------------------------------------------------------

  /** The columns the comments name for a step: data, error and children. */
  const EncodedStepColumns: seq<nat> := [3, 12, 14]

  /** The array declared for actions (its comments name data, input and output: 2, 6, 7). */
  const EncodedActionColumns: seq<nat> := [3, 12, 14]

  /** What `for i := range a` binds: the indices of `a`, not its elements. */
  function RangeIndices(n: nat): (r: seq<nat>)
    ensures |r| == n && Distinct(r)
    ensures forall k :: 0 <= k < n ==> r[k] == k
  {
    seq(n, k => k)
  }

  /** The row expand_step produces: columns 0, 1 and 2 re-encoded. */
  function StepRecord(c: Codec, rec: seq<string>): Result<seq<string>, Failure> {
    Rewrite(c, rec, RangeIndices(|EncodedStepColumns|), Reencode)
  }

  /** The row expand_action produces: columns 0, 1 and 2 re-encoded. */
  function ActionRecord(c: Codec, rec: seq<string>): Result<seq<string>, Failure> {
    Rewrite(c, rec, RangeIndices(|EncodedActionColumns|), Reencode)
  }

  /**
   * Steps and actions are rewritten alike. The rewrite succeeds exactly when
   * the row has at least three columns and each of columns 0-2 re-encodes;
   * then the row keeps its length, columns 0-2 hold their re-encodings and
   * every other column is unchanged.
   */
  lemma StepAndActionColumns(c: Codec, rec: seq<string>)
    ensures ActionRecord(c, rec) == StepRecord(c, rec)
    ensures var r := StepRecord(c, rec);
            && (r.Ok? <==> |rec| >= 3 && forall i :: 0 <= i < 3 ==> ReencodeField(c, rec[i]).Ok?)
            && (r.Ok? ==>
                  && |r.value| == |rec|
                  && (forall i :: 0 <= i < 3 ==> r.value[i] == ReencodeField(c, rec[i]).value)
                  && (forall i :: 3 <= i < |rec| ==> r.value[i] == rec[i]))
  {
    var cols := RangeIndices(3);
    var r := StepRecord(c, rec);
    assert r == Rewrite(c, rec, cols, Reencode);
    if r.Ok? {
      forall i | 3 <= i < |rec|
        ensures r.value[i] == rec[i]
      {
        assert i !in cols;
      }
    }
    if |rec| >= 3 && forall i :: 0 <= i < 3 ==> ReencodeField(c, rec[i]).Ok? {
      assert forall k :: 0 <= k < |cols| ==> cols[k] < |rec| && ApplyOp(c, Reencode, rec[cols[k]]).Ok?;
    }
  }

  /** expand_step: rewrites columns 0, 1 and 2 of the record in place. */
  method ExpandStep(c: Codec, record: array<string>) returns (outcome: Result<(), Failure>)
    modifies record
    ensures match StepRecord(c, old(record[..]))
            case Ok(r) => outcome.Ok? && record[..] == r
            case Fail(e) => outcome == Fail(e)
  {
    outcome := ReencodeColumns(c, record, RangeIndices(|EncodedStepColumns|));
  }

  /** expand_action: rewrites columns 0, 1 and 2 of the record in place. */
  method ExpandAction(c: Codec, record: array<string>) returns (outcome: Result<(), Failure>)
    modifies record
    ensures match ActionRecord(c, old(record[..]))
            case Ok(r) => outcome.Ok? && record[..] == r
            case Fail(e) => outcome == Fail(e)
  {
    outcome := ReencodeColumns(c, record, RangeIndices(|EncodedActionColumns|));
  }

  // ---------------------------------------------------------------------------
  // Execution plans
  // ---------------------------------------------------------------------------

  /** The column layout of an execution plan: columns to re-encode and columns holding flows. */
  datatype Layout = Layout(encoded: seq<nat>, flows: seq<nat>)

  /**
   * The layout chosen by probing the step_ids column (14): with msgpack
   * values the columns from root_plan_step_id on sit one place later.
   */
  function PlanLayout(stepIds: string): (l: Layout)
    ensures IsHexEncoded(stepIds) ==> l == Layout([1, 13, 14], [11, 12])
    ensures !IsHexEncoded(stepIds) ==> l == Layout([1, 12, 14], [10, 11])
    ensures Distinct(l.encoded) && Distinct(l.flows)
    ensures forall i :: i in l.encoded ==> i !in l.flows && i <= 14
    ensures forall i :: i in l.flows ==> i <= 14
  {
    if IsHexEncoded(stepIds) then Layout([1, 13, 14], [11, 12])
    else Layout([1, 12, 14], [10, 11])
  }

  /**
   * The row expand_execution_plan produces: the layout is chosen from column
   * 14 as it is before any rewrite, then the encoded columns are re-encoded
   * and after them the flow columns expanded. A row without column 14 fails
   * on the probe.
   */
  function ExecutionPlanRecord(c: Codec, rec: seq<string>): Result<seq<string>, Failure> {
    if |rec| < 15 then Fail(IndexOutOfRange)
    else
      var layout := PlanLayout(rec[14]);
      match Rewrite(c, rec, layout.encoded, Reencode)
      case Fail(e) => Fail(e)
      case Ok(r) => Rewrite(c, r, layout.flows, FlowExpand)
  }

  /**
   * For a row with at least 15 columns: the result succeeds exactly when each
   * encoded column re-encodes and each flow column expands; then the row
   * keeps its length, the encoded columns hold their re-encodings, the flow
   * columns their expansions (of the original text, the two sets being
   * disjoint), and every other column is unchanged.
   */
  lemma ExecutionPlanColumns(c: Codec, rec: seq<string>)
    requires |rec| >= 15
    ensures var l := PlanLayout(rec[14]);
            var r := ExecutionPlanRecord(c, rec);
            && (r.Ok? <==> (forall i :: i in l.encoded ==> ReencodeField(c, rec[i]).Ok?)
                           && (forall i :: i in l.flows ==> FlowColumn(c, rec[i]).Ok?))
            && (r.Ok? ==>
                  && |r.value| == |rec|
                  && (forall i :: i in l.encoded ==> r.value[i] == ReencodeField(c, rec[i]).value)
                  && (forall i :: i in l.flows ==> r.value[i] == FlowColumn(c, rec[i]).value)
                  && (forall i :: 0 <= i < |rec| && i !in l.encoded && i !in l.flows ==> r.value[i] == rec[i]))
  {
    var l := PlanLayout(rec[14]);
    var r1 := Rewrite(c, rec, l.encoded, Reencode);
    if r1.Ok? {
      assert forall i :: i in l.flows ==> i !in l.encoded;
      assert forall i :: i in l.flows ==> r1.value[i] == rec[i];
      var r2 := Rewrite(c, r1.value, l.flows, FlowExpand);
      assert forall k :: 0 <= k < |l.flows| ==> l.flows[k] in l.flows;
      assert forall k :: 0 <= k < |l.encoded| ==> l.encoded[k] in l.encoded;
    } else {
      assert forall k :: 0 <= k < |l.encoded| ==> l.encoded[k] in l.encoded;
    }
  }

  /** expand_execution_plan: probes column 14, then rewrites the layout's columns in place. */
  method ExpandExecutionPlan(c: Codec, record: array<string>) returns (outcome: Result<(), Failure>)
    modifies record
    ensures match ExecutionPlanRecord(c, old(record[..]))
            case Ok(r) => outcome.Ok? && record[..] == r
            case Fail(e) => outcome == Fail(e)
  {
    if record.Length < 15 {
      return Fail(IndexOutOfRange);
    }
    // The step_ids column decides the layout for the whole record.
    var layout := PlanLayout(record[14]);
    outcome := ReencodeColumns(c, record, layout.encoded);
    if outcome.Fail? {
      return;
    }
    outcome := ExpandFlowColumns(c, record, layout.flows);
  }

  // ---------------------------------------------------------------------------
  // Record types and the selector
  // ---------------------------------------------------------------------------

  datatype RecordType = Action | Step | ExecutionPlan

  datatype UsageError = WrongArgumentCount | UnknownArgument(arg: string)

  /** The command-line token of each record type. */
  function TypeName(t: RecordType): string {
    match t
    case Action => "action"
    case Step => "step"
    case ExecutionPlan => "execution_plan"
  }

  /**
   * The selector of main: exactly one argument, naming a record type. It
   * succeeds exactly on the three names, and the type it picks is the one
   * with that name.
   */
  function SelectRecordType(args: seq<string>): (r: Result<RecordType, UsageError>)
    ensures r.Ok? <==> |args| == 1 && args[0] in {"action", "step", "execution_plan"}
    ensures r.Ok? ==> args == [TypeName(r.value)]
    ensures |args| != 1 ==> r == Fail(WrongArgumentCount)
    ensures |args| == 1 && r.Fail? ==> r == Fail(UnknownArgument(args[0]))
  {
    if |args| != 1 then Fail(WrongArgumentCount)
    else if args[0] == "action" then Ok(Action)
    else if args[0] == "step" then Ok(Step)
    else if args[0] == "execution_plan" then Ok(ExecutionPlan)
    else Fail(UnknownArgument(args[0]))
  }

  /** Every record type is selected by its own name. */
  lemma SelectByName(t: RecordType)
    ensures SelectRecordType([TypeName(t)]) == Ok(t)
  {
  }

  /** The row the selected expansion function produces. */
  function ExpandedRecord(c: Codec, t: RecordType, rec: seq<string>): Result<seq<string>, Failure> {
    match t
    case Action => ActionRecord(c, rec)
    case Step => StepRecord(c, rec)
    case ExecutionPlan => ExecutionPlanRecord(c, rec)
  }

  /** expansion_f(record): the expansion function of the selected type. */
  method ExpandRecord(c: Codec, t: RecordType, record: array<string>) returns (outcome: Result<(), Failure>)
    modifies record
    ensures match ExpandedRecord(c, t, old(record[..]))
            case Ok(r) => outcome.Ok? && record[..] == r
            case Fail(e) => outcome == Fail(e)
  {
    match t {
      case Action => outcome := ExpandAction(c, record);
      case Step => outcome := ExpandStep(c, record);
      case ExecutionPlan => outcome := ExpandExecutionPlan(c, record);
    }
  }

  /**
   * Whatever the record type and the column, an empty column comes out
   * empty: it is either left alone or passed through undecoded.
   */
  lemma EmptyColumnsPassThrough(c: Codec, t: RecordType, rec: seq<string>, i: nat)
    requires ExpandedRecord(c, t, rec).Ok?
    requires i < |rec| && rec[i] == ""
    ensures ExpandedRecord(c, t, rec).value[i] == ""
  {
    match t {
      case Action =>
        StepAndActionColumns(c, rec);
      case Step =>
        StepAndActionColumns(c, rec);
      case ExecutionPlan =>
        ExecutionPlanColumns(c, rec);
    }
  }
}
