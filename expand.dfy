/**
 * Column decoding of cmd/expand: format detection, decoding to a value,
 * re-encoding as JSON text, and the rewrite of compact flows into verbose
 * flow maps.
 */
module Expand {
  import opened Wrappers
  import Hex

  /**
   * A decoded value, as encoding/json or msgpack hand it back through an
   * interface{}. All numbers are one constructor (see README).
   */
  datatype Value =
    | Null
    | Bool(b: bool)
    | Num(n: int)
    | Str(s: string)
    | Arr(items: seq<Value>)
    | Obj(fields: map<string, Value>)

  /** The panics of the tool, each fatal to the run. */
  datatype Failure =
    | HexDecodeError
    | MsgpackDecodeError
    | JsonDecodeError
    | JsonEncodeError
    | UnknownFlowType
    | IndexOutOfRange

  /**
   * The library codecs the tool calls: json.Unmarshal, msgpack.Unmarshal and
   * json.Marshal. Their internals are not modelled; None is a returned error.
   */
  datatype Codec = Codec(
    jsonDecode: string -> Option<Value>,
    msgpackDecode: seq<Hex.byte> -> Option<Value>,
    jsonEncode: Value -> Option<string>)

  // ---------------------------------------------------------------------------
  // Detection, decoding, encoding
  // ---------------------------------------------------------------------------

  /** isHexEncoded: the value starts with a backslash and an `x`. */
  function IsHexEncoded(field: string): (b: bool)
    ensures b <==> |field| >= 2 && field[0] == '\\' && field[1] == 'x'
  {
    |field| >= 2 && field[0..2] == "\\x"
  }

  /**
   * decode: a `\x` value is hex text (after the prefix) holding msgpack;
   * everything else is JSON text. Each stage can fail, and a hex value never
   * reaches the JSON decoder nor a plain value the hex or msgpack decoders.
   */
  function Decode(c: Codec, field: string): (r: Result<Value, Failure>)
    ensures IsHexEncoded(field) ==>
              && (r == Fail(HexDecodeError) <==> !Hex.IsHexText(field[2..]))
              && (Hex.IsHexText(field[2..]) ==>
                    var bytes := Hex.DecodeString(field[2..]).value;
                    && |bytes| == (|field| - 2) / 2
                    && (r.Ok? <==> c.msgpackDecode(bytes).Some?)
                    && (r.Ok? ==> r.value == c.msgpackDecode(bytes).value)
                    && (r.Fail? ==> r.error == MsgpackDecodeError))
    ensures !IsHexEncoded(field) ==>
              && (r.Ok? <==> c.jsonDecode(field).Some?)
              && (r.Ok? ==> r.value == c.jsonDecode(field).value)
              && (r.Fail? ==> r.error == JsonDecodeError)
  {
    if IsHexEncoded(field) then
      match Hex.DecodeString(field[2..])
      case Fail(_) => Fail(HexDecodeError)
      case Ok(bytes) =>
        match c.msgpackDecode(bytes)
        case None => Fail(MsgpackDecodeError)
        case Some(v) => Ok(v)
    else
      match c.jsonDecode(field)
      case None => Fail(JsonDecodeError)
      case Some(v) => Ok(v)
  }

  /** encode: json.Marshal, whose error is fatal. */
  function Encode(c: Codec, v: Value): (r: Result<string, Failure>)
    ensures r.Ok? <==> c.jsonEncode(v).Some?
    ensures r.Ok? ==> r.value == c.jsonEncode(v).value
    ensures r.Fail? ==> r.error == JsonEncodeError
  {
    match c.jsonEncode(v)
    case None => Fail(JsonEncodeError)
    case Some(s) => Ok(s)
  }

  /**
   * What json.Marshal does with a nil map: it writes `null` and reports no
   * error. expand_flow relies on this when its result map stays nil.
   */
  predicate MarshalsNilAsNull(c: Codec) {
    c.jsonEncode(Null) == Some("null")
  }

  /**
   * reencode_field: the empty string passes through without decoding; any
   * other value is decoded and written back as JSON text, and a failure of
   * either step is the result.
   */
  function ReencodeField(c: Codec, field: string): (r: Result<string, Failure>)
    ensures field == "" ==> r == Ok("")
    ensures field != "" ==>
              && (r.Ok? <==> Decode(c, field).Ok? && c.jsonEncode(Decode(c, field).value).Some?)
              && (r.Ok? ==> r.value == c.jsonEncode(Decode(c, field).value).value)
              && (Decode(c, field).Fail? ==> r == Fail(Decode(c, field).error))
  {
    if field == "" then Ok(field)
    else
      match Decode(c, field)
      case Fail(e) => Fail(e)
      case Ok(v) => Encode(c, v)
  }

  /**
   * What the JSON library is expected to satisfy: Marshal yields non-empty
   * text that does not start with `\x` and that Unmarshal reads back as the
   * same value.
   */
  ghost predicate JsonRoundTrips(c: Codec) {
    forall v :: c.jsonEncode(v).Some? ==>
      var s := c.jsonEncode(v).value;
      s != "" && !IsHexEncoded(s) && c.jsonDecode(s) == Some(v)
  }

  /**
   * Re-encoding a column that was already re-encoded changes nothing, given
   * a JSON library that reads back what it writes.
   */
  lemma ReencodeIdempotent(c: Codec, field: string)
    requires JsonRoundTrips(c)
    requires ReencodeField(c, field).Ok?
    ensures ReencodeField(c, ReencodeField(c, field).value) == ReencodeField(c, field)
  {
    if field != "" {
      var v := Decode(c, field).value;
      var s := c.jsonEncode(v).value;
      assert Decode(c, s) == Ok(v);
    }
  }

  // ---------------------------------------------------------------------------
  // Flows
  // ---------------------------------------------------------------------------

  const SequenceClass: string := "Dynflow::Flows::Sequence"
  const ConcurrenceClass: string := "Dynflow::Flows::Concurrence"
  const AtomClass: string := "Dynflow::Flows::Atom"

  /** The verbose map of a leaf flow. */
  function AtomFlow(stepId: Value): Value {
    Obj(map["class" := Str(AtomClass), "step_id" := stepId])
  }

  /**
   * The verbose map of a composite flow. A Go slice that never received an
   * append is nil, and encoding/json writes a nil slice as null; so a flow
   * with no children has "flows": null.
   */
  function CompositeFlow(className: string, children: seq<Value>): Value {
    Obj(map["class" := Str(className), "flows" := if children == [] then Null else Arr(children)])
  }

  /**
   * The children expand_compact_flow builds for n subflows: `range` over a
   * slice with one variable binds the index, so child k is the atom k
   * whatever the k-th subflow was.
   */
  function IndexAtoms(n: nat): seq<Value> {
    seq(n, k => AtomFlow(Num(k)))
  }

  /** A verbose flow: an atom with a numeric step id, or a sequence or concurrence of verbose flows. */
  predicate IsVerboseFlow(v: Value) {
    match v
    case Obj(fields) =>
      && "class" in fields
      && ((fields["class"] == Str(AtomClass)
           && fields.Keys == {"class", "step_id"} && fields["step_id"].Num?)
          || ((fields["class"] == Str(SequenceClass) || fields["class"] == Str(ConcurrenceClass))
              && fields.Keys == {"class", "flows"}
              && (fields["flows"] == Null
                  || (fields["flows"].Arr?
                      && forall child | child in fields["flows"].items :: IsVerboseFlow(child)))))
    case _ => false
  }

  /** The class a compact flow's tag names, if it names one. */
  function TagClass(tag: Value): Option<string> {
    if tag == Str("S") then Some(SequenceClass)
    else if tag == Str("C") then Some(ConcurrenceClass)
    else None
  }

  /**
   * What expand_compact_flow returns. It succeeds exactly on a number and on
   * an array headed by "S" or "C", and then yields a verbose flow; an empty
   * array fails on indexing element 0, every other shape is an unknown flow
   * type.
   */
  function CompactFlow(flow: Value): (r: Result<Value, Failure>)
    ensures r.Ok? <==> flow.Num? || (flow.Arr? && |flow.items| > 0 && TagClass(flow.items[0]).Some?)
    ensures r.Ok? ==> IsVerboseFlow(r.value)
    ensures r.Fail? ==> r.error == (if flow == Arr([]) then IndexOutOfRange else UnknownFlowType)
  {
    match flow
    case Arr(xs) =>
      if |xs| == 0 then Fail(IndexOutOfRange)
      else if TagClass(xs[0]).None? then Fail(UnknownFlowType)
      else Ok(CompositeFlow(TagClass(xs[0]).value, IndexAtoms(|xs| - 1)))
    case Num(_) => Ok(AtomFlow(flow))
    case _ => Fail(UnknownFlowType)
  }

  /**
   * A compact array flow of tag t and n subflows has the tag's class and n
   * children, child k being the atom with step id k: the subflows themselves
   * are neither read nor expanded.
   */
  lemma CompactArrayFlow(tag: Value, subflows: seq<Value>)
    requires TagClass(tag).Some?
    ensures var r := CompactFlow(Arr([tag] + subflows));
            && r.Ok? && r.value.Obj?
            && r.value.fields["class"] == Str(TagClass(tag).value)
            && (subflows == [] <==> r.value.fields["flows"] == Null)
            && (subflows != [] ==>
                  && r.value.fields["flows"].Arr?
                  && |r.value.fields["flows"].items| == |subflows|
                  && forall k :: 0 <= k < |subflows| ==>
                       r.value.fields["flows"].items[k] == AtomFlow(Num(k)))
  {
    var xs := [tag] + subflows;
    assert xs[0] == tag && |xs| - 1 == |subflows|;
  }

  /** A number n becomes exactly the atom with step id n. */
  lemma CompactNumberFlow(n: int)
    ensures CompactFlow(Num(n)) == Ok(Obj(map["class" := Str(AtomClass), "step_id" := Num(n)]))
  {
  }

  /** Two compact arrays with the same tag and as many subflows expand alike. */
  lemma CompactFlowIgnoresSubflows(tag: Value, a: seq<Value>, b: seq<Value>)
    requires |a| == |b|
    ensures CompactFlow(Arr([tag] + a)) == CompactFlow(Arr([tag] + b))
  {
    assert ([tag] + a)[0] == ([tag] + b)[0];
  }

  /**
   * `["S", 1, ["C", 2, 3]]` becomes a sequence of the atoms 0 and 1: the
   * nested concurrence is not expanded.
   */
  lemma NestedFlowExample()
    ensures CompactFlow(Arr([Str("S"), Num(1), Arr([Str("C"), Num(2), Num(3)])]))
         == Ok(CompositeFlow(SequenceClass, [AtomFlow(Num(0)), AtomFlow(Num(1))]))
  {
    assert IndexAtoms(2) == [AtomFlow(Num(0)), AtomFlow(Num(1))];
  }

  /**
   * expand_compact_flow: fills a fresh map; for an array it appends one
   * expanded child per subflow, expanding the index that `range` binds.
   */
  method ExpandCompactFlow(flow: Value) returns (r: Result<Value, Failure>)
    ensures r == CompactFlow(flow)
    decreases if flow.Arr? then 1 else 0
  {
    var result: map<string, Value> := map[];
    match flow {
      case Arr(xs) =>
        if |xs| == 0 {
          return Fail(IndexOutOfRange);
        }
        if xs[0] == Str("S") {
          result := result["class" := Str(SequenceClass)];
        } else if xs[0] == Str("C") {
          result := result["class" := Str(ConcurrenceClass)];
        } else {
          return Fail(UnknownFlowType);
        }
        var subflows: seq<Value> := [];
        var rest := xs[1..];
        for k := 0 to |rest|
          invariant subflows == IndexAtoms(k)
        {
          var child := ExpandCompactFlow(Num(k));
          subflows := subflows + [child.value];
        }
        result := result["flows" := if subflows == [] then Null else Arr(subflows)];
      case Num(_) =>
        result := result["class" := Str(AtomClass)];
        result := result["step_id" := flow];
      case _ =>
        return Fail(UnknownFlowType);
    }
    return Ok(Obj(result));
  }

  /**
   * What expand_flow returns for one column. The empty string passes
   * through undecoded. A decoded map is kept as it is (so the column comes
   * out as reencode_field would give it); arrays and numbers are expanded
   * into verbose flows; any other decoded value leaves the result map nil,
   * which json.Marshal writes as `null` without failing.
   */
  function FlowColumn(c: Codec, field: string): (r: Result<string, Failure>)
    ensures field == "" ==> r == Ok("")
    ensures field != "" && Decode(c, field).Fail? ==> r == Fail(Decode(c, field).error)
    ensures field != "" && Decode(c, field).Ok? && Decode(c, field).value.Obj? ==>
              r == ReencodeField(c, field)
    ensures field != "" && Decode(c, field).Ok? ==>
              var v := Decode(c, field).value;
              && ((v.Null? || v.Bool? || v.Str?) ==> r == Encode(c, Null))
              && ((v.Null? || v.Bool? || v.Str?) && MarshalsNilAsNull(c) ==> r == Ok("null"))
              && ((v.Arr? || v.Num?) ==>
                    r == (if CompactFlow(v).Ok? then Encode(c, CompactFlow(v).value)
                          else Fail(CompactFlow(v).error)))
              && ((v.Arr? || v.Num?) && CompactFlow(v).Ok? ==> IsVerboseFlow(CompactFlow(v).value))
    ensures r.Fail? && r.error == UnknownFlowType ==>
              field != "" && Decode(c, field).Ok? && Decode(c, field).value.Arr?
  {
    if field == "" then Ok(field)
    else
      match Decode(c, field)
      case Fail(e) => Fail(e)
      case Ok(v) =>
        match v
        case Obj(_) => Encode(c, v)
        case Arr(_) | Num(_) =>
          (match CompactFlow(v)
           case Fail(e) => Fail(e)
           case Ok(w) => Encode(c, w))
        case _ => Encode(c, Null)
  }

  /** expand_flow. */
  method ExpandFlow(c: Codec, field: string) returns (r: Result<string, Failure>)
    ensures r == FlowColumn(c, field)
  {
    if field == "" {
      return Ok(field);
    }
    var decoded := Decode(c, field);
    if decoded.Fail? {
      return Fail(decoded.error);
    }
    var intermediate := decoded.value;
    // a result map left nil is encoded as null
    var result: Value := Null;
    if intermediate.Obj? {
      result := intermediate;
    } else if intermediate.Arr? || intermediate.Num? {
      var expanded := ExpandCompactFlow(intermediate);
      if expanded.Fail? {
        return Fail(expanded.error);
      }
      result := expanded.value;
    }
    r := Encode(c, result);
  }
}
