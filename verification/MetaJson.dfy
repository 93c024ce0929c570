/**
 * The reflective JSON printer and reader: a component is a list of described fields, printed as an object
 * by a loop that appends to a string and read back by a loop that sets one field at a time.
 */
module MetaJson {
  import opened Common
  import opened Decimal
  import opened JsonText
  import Doubles

  const INT_MIN: int := -0x8000_0000
  const INT_MAX: int := 0x7FFF_FFFF

  /** The field types the two loops know, and any other type. */
  datatype Kind = IntKind | BoolKind | OtherKind

  datatype Value = IntValue(n: int) | BoolValue(b: bool) | OtherValue

  /** One data member of the reflected type; `name` is missing when none was recorded. */
  datatype Field = Field(name: Option<string>, kind: Kind)

  /** A reflected type, or the invalid handle. */
  type Meta = Option<seq<Field>>

  /** How reading ended: an instance updated throughout, one given up on, or an exception. */
  datatype Status = Accepted | Rejected | Thrown

  predicate IsInt32(n: int) {
    INT_MIN <= n <= INT_MAX
  }

  predicate HasKind(v: Value, kind: Kind) {
    match kind
    case IntKind => v.IntValue? && IsInt32(v.n)
    case BoolKind => v.BoolValue?
    case OtherKind => v.OtherValue?
  }

  /** An instance holds one value of the right type for each field. */
  predicate Fits(fields: seq<Field>, instance: seq<Value>) {
    |instance| == |fields| && forall i :: 0 <= i < |fields| ==> HasKind(instance[i], fields[i].kind)
  }

  /** Names that print as themselves between quotes, as every C++ identifier does. */
  predicate IsPlain(name: string) {
    forall i :: 0 <= i < |name| ==> ' ' <= name[i] && name[i] != '\"' && name[i] != '\\'
  }

  // ---------------------------------------------------------------- printing

  function IntText(n: int): string {
    if n < 0 then "-" + Digits(-n) else Digits(n)
  }

  function BoolText(b: bool): string {
    if b then "true" else "false"
  }

  function ValueText(v: Value): Option<string> {
    match v
    case IntValue(n) => Some(IntText(n))
    case BoolValue(b) => Some(BoolText(b))
    case OtherValue => None
  }

  predicate IsPrintable(field: Field, v: Value) {
    field.name.Some? && ValueText(v).Some?
  }

  function Member(field: Field, v: Value): string
    requires IsPrintable(field, v)
  {
    "\"" + (field.name.value + ("\"" + (":" + ValueText(v).value)))
  }

  /** The members still to be appended; a comma goes before each one but the first. */
  function Members(fields: seq<Field>, instance: seq<Value>, first: bool): string
    requires |instance| == |fields|
    requires forall i :: 0 <= i < |fields| ==> IsPrintable(fields[i], instance[i])
  {
    if fields == [] then ""
    else (if first then "" else ",") + (Member(fields[0], instance[0]) + Members(fields[1..], instance[1..], false))
  }

  function Printed(meta: Meta, instance: seq<Value>): string
    requires meta.Some? ==> |instance| == |meta.value|
  {
    if meta.Some? && forall i :: 0 <= i < |meta.value| ==> IsPrintable(meta.value[i], instance[i])
    then "{" + Members(meta.value, instance, true) + "}"
    else ""
  }

  /** What one turn of the loop appends. */
  lemma MemberAppended(json: string, field: Field, v: Value, first: bool, more: string)
    requires IsPrintable(field, v)
    ensures var comma := if first then json else json + ",";
            comma + "\"" + field.name.value + "\"" + ":" + ValueText(v).value + more ==
            json + ((if first then "" else ",") + (Member(field, v) + more))
  {
    var name, text, comma := field.name.value, ValueText(v).value, if first then "" else ",";
    hide ValueText;
    Assoc(json, comma, "\"");
    var at := json + comma;
    assert at == if first then json else json + ",";
    Assoc(at, "\"", name);
    Assoc(at, "\"" + name, "\"");
    Assoc(at, "\"" + name + "\"", ":");
    Assoc(at, "\"" + name + "\"" + ":", text);
    assert "\"" + name + "\"" + ":" + text == Member(field, v);
    Assoc(at, Member(field, v), more);
    Assoc(json, comma, Member(field, v) + more);
  }

  /** meta_component_to_json: appends member by member, and gives up on the first that cannot be printed. */
  method MetaComponentToJson(meta: Meta, instance: seq<Value>) returns (json: string)
    requires meta.Some? ==> |instance| == |meta.value|
    ensures json == Printed(meta, instance)
    ensures json == "" <==>
            meta.None? || exists i :: 0 <= i < |instance| && (meta.value[i].name.None? || instance[i] == OtherValue)
  {
    if meta.None? {
      return "";
    }
    var fields := meta.value;
    json := "{";
    var first := true;
    for i := 0 to |fields|
      invariant first == (i == 0)
      invariant forall k :: 0 <= k < i ==> IsPrintable(fields[k], instance[k])
      invariant (forall k :: 0 <= k < |fields| ==> IsPrintable(fields[k], instance[k])) ==>
                json + Members(fields[i..], instance[i..], first) == "{" + Members(fields, instance, true)
    {
      if fields[i].name.None? {
        return "";
      }
      var valueText := ValueText(instance[i]);
      if valueText.None? {
        return "";
      }
      ghost var before := json;
      if !first {
        json := json + ",";
      }
      first := false;
      json := json + "\"" + fields[i].name.value + "\"";
      json := json + ":";
      json := json + valueText.value;
      assert fields[i..][1..] == fields[i + 1..] && instance[i..][1..] == instance[i + 1..];
      if forall k :: 0 <= k < |fields| ==> IsPrintable(fields[k], instance[k]) {
        MemberAppended(before, fields[i], instance[i], i == 0, Members(fields[i + 1..], instance[i + 1..], false));
      }
    }
    json := json + "}";
  }

  // ---------------------------------------------------------------- reading

  /** static_cast<int>: toward zero. */
  function Truncated(x: real): int {
    if x >= 0.0 then x.Floor else -((-x).Floor)
  }

  lemma TowardZero(x: real)
    ensures x >= 0.0 ==> Truncated(x) as real <= x < Truncated(x) as real + 1.0
    ensures x <= 0.0 ==> Truncated(x) as real - 1.0 < x <= Truncated(x) as real
  {
    assert x.Floor as real <= x < x.Floor as real + 1.0;
    assert (-x).Floor as real <= -x < (-x).Floor as real + 1.0;
  }

  /** What json_value_to_meta makes of a JSON value for a field of this kind; a number is held as a double. */
  function Converted(kind: Kind, json: Json): (Status, Value) {
    match kind
    case IntKind =>
      if !json.Number? then (Thrown, OtherValue)
      else
        var raw := Doubles.AsDouble(json.number);
        if raw < INT_MIN as real || raw > INT_MAX as real then (Rejected, OtherValue)
        else (Accepted, IntValue(Truncated(raw)))
    case BoolKind => if json.Bool? then (Accepted, BoolValue(json.b)) else (Thrown, OtherValue)
    case OtherKind => (Rejected, OtherValue)
  }

  /** Setting the fields in order until one cannot be set: how it ended, and the instance as it was left. */
  function SetFields(fields: seq<Field>, instance: seq<Value>, members: map<string, Json>): (r: (Status, seq<Value>))
    requires |instance| == |fields|
    ensures |r.1| == |instance|
  {
    if fields == [] then (Accepted, instance)
    else if fields[0].name.None? then (Rejected, instance)
    else
      var name := fields[0].name.value;
      var (status, v) := if name in members then Converted(fields[0].kind, members[name]) else (Accepted, instance[0]);
      if status != Accepted then (status, instance)
      else
        var (status', rest) := SetFields(fields[1..], instance[1..], members);
        (status', [v] + rest)
  }

  /** The members of the object at the front of a text, whatever follows it. */
  function ObjectIn(text: string): Option<map<string, Json>> {
    match ReadValue(text)
    case Some(found) => if found.value.Object? then Some(found.value.members) else None
    case None => None
  }

  function FromJson(meta: Meta, instance: seq<Value>, text: string): (r: (Status, seq<Value>))
    requires meta.Some? ==> |instance| == |meta.value|
    ensures |r.1| == |instance|
  {
    if meta.None? then (Rejected, instance)
    else
      match ObjectIn(text)
      case None => (Rejected, instance)
      case Some(members) => SetFields(meta.value, instance, members)
  }

  /** The component whose fields the reader sets in place. */
  class Instance {
    var values: seq<Value>

    constructor (values: seq<Value>)
      ensures this.values == values
    {
      this.values := values;
    }

    /** json_value_to_meta: range-check, cast and set one field, or leave it alone. */
    method Set(i: nat, kind: Kind, json: Json) returns (status: Status)
      requires i < |values|
      modifies this
      ensures status == Converted(kind, json).0
      ensures values == if status == Accepted then old(values)[i := Converted(kind, json).1] else old(values)
      ensures kind.IntKind? && status == Accepted ==> json.Number? && values[i].IntValue?
      ensures kind.IntKind? && status == Accepted ==>
                var raw, n := Doubles.AsDouble(json.number), values[i].n as real;
                (raw >= 0.0 ==> n <= raw < n + 1.0) && (raw <= 0.0 ==> n - 1.0 < raw <= n)
      ensures kind.BoolKind? ==> if json.Bool? then status == Accepted && values[i] == BoolValue(json.b) else status == Thrown
      ensures kind.OtherKind? ==> status == Rejected
    {
      match kind {
        case IntKind =>
          if !json.Number? {
            return Thrown;
          }
          var raw := Doubles.AsDouble(json.number);
          if raw < INT_MIN as real || raw > INT_MAX as real {
            return Rejected;
          }
          TowardZero(raw);
          values := values[i := IntValue(Truncated(raw))];
          return Accepted;
        case BoolKind =>
          if !json.Bool? {
            return Thrown;
          }
          values := values[i := BoolValue(json.b)];
          return Accepted;
        case OtherKind =>
          return Rejected;
      }
    }
  }

  /** What one turn of the loop adds to the fields already set. */
  lemma FieldSet(fields: seq<Field>, before: seq<Value>, members: map<string, Json>, i: nat, done: seq<Value>)
    requires |before| == |fields| && i < |fields|
    ensures var r := SetFields(fields[i..], before[i..], members);
            var next := SetFields(fields[i + 1..], before[i + 1..], members);
            if fields[i].name.None? then r == (Rejected, before[i..])
            else
              var name := fields[i].name.value;
              var (status, v) := if name in members then Converted(fields[i].kind, members[name]) else (Accepted, before[i]);
              if status != Accepted then r == (status, before[i..])
              else r.0 == next.0 && done + r.1 == (done + [v]) + next.1
  {
    hide Converted;
    assert fields[i..][1..] == fields[i + 1..] && before[i..][1..] == before[i + 1..];
  }

  /** The fields from here on are still as they were. */
  lemma Reached(now: seq<Value>, before: seq<Value>, i: nat)
    requires |now| == |before| && i < |now| && now[i..] == before[i..]
    ensures now[..i] + before[i..] == now && now[i] == before[i] && now[i + 1..] == before[i + 1..]
  {
    assert now[i + 1..] == now[i..][1..] && before[i + 1..] == before[i..][1..];
    assert now[i] == now[i..][0] && before[i] == before[i..][0];
  }

  lemma OneSet(now: seq<Value>, i: nat, v: Value)
    requires i < |now|
    ensures now[i := v][..i + 1] == now[..i] + [v] && now[i := v][i + 1..] == now[i + 1..]
  {
  }

  /** meta_component_from_json: sets what the object mentions, in field order, and stops at the first failure. */
  method MetaComponentFromJson(meta: Meta, instance: Instance, text: string) returns (status: Status)
    requires meta.Some? ==> |instance.values| == |meta.value|
    modifies instance
    ensures (status, instance.values) == FromJson(meta, old(instance.values), text)
    ensures meta.None? || ReadValue(text).None? || !ReadValue(text).value.value.Object? ==>
              status == Rejected && instance.values == old(instance.values)
  {
    if meta.None? {
      return Rejected;
    }
    var parsed := ObjectIn(text);
    if parsed.None? {
      return Rejected;
    }
    var fields, members := meta.value, parsed.value;
    ghost var before := instance.values;
    assert fields[0..] == fields && before[0..] == before;
    assert before[..0] + SetFields(fields, before, members).1 == SetFields(fields, before, members).1;
    for i := 0 to |fields|
      invariant |instance.values| == |fields| && instance.values[i..] == before[i..]
      invariant var r := SetFields(fields[i..], before[i..], members);
                SetFields(fields, before, members) == (r.0, instance.values[..i] + r.1)
    {
      hide SetFields, Converted, ObjectIn;
      ghost var now := instance.values;
      FieldSet(fields, before, members, i, now[..i]);
      Reached(now, before, i);
      if fields[i].name.None? {
        return Rejected;
      }
      var name := fields[i].name.value;
      if name in members {
        status := instance.Set(i, fields[i].kind, members[name]);
        if status != Accepted {
          return;
        }
      }
      OneSet(now, i, instance.values[i]);
      assert instance.values == now[i := instance.values[i]];
    }
    assert instance.values[..|fields|] + before[|fields|..] == instance.values;
    status := Accepted;
  }
}
