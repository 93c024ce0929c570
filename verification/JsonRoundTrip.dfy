/**
 * What the printer and the reader guarantee together: the printed text is an RFC 8259 object holding exactly
 * the fields, reading it into any instance gives the printed values back, and what reading does in general.
 */
module JsonRoundTrip {
  import opened Common
  import opened Decimal
  import opened JsonText
  import opened MetaJson
  import Doubles

  /** A type whose fields all have distinct plain names and are ints or bools. */
  predicate IsRecord(fields: seq<Field>) {
    && (forall i :: 0 <= i < |fields| ==> fields[i].name.Some? && IsPlain(fields[i].name.value) && fields[i].kind != OtherKind)
    && (forall i, j :: 0 <= i < j < |fields| ==> fields[i].name != fields[j].name)
  }

  function JsonOf(v: Value): Json {
    match v
    case IntValue(n) => Number(n as real)
    case BoolValue(b) => Bool(b)
    case OtherValue => Null
  }

  /** The members a printed instance holds, added to those seen before. */
  function Entries(fields: seq<Field>, instance: seq<Value>, seen: map<string, Json>): map<string, Json>
    requires |instance| == |fields| && IsRecord(fields)
  {
    if fields == [] then seen
    else Entries(fields[1..], instance[1..], seen[fields[0].name.value := JsonOf(instance[0])])
  }

  // ---------------------------------------------------------------- numbers and strings at the front of a text

  lemma {:induction false} RunOfDigits(d: string, rest: string)
    requires forall i :: 0 <= i < |d| ==> IsDigit(d[i])
    requires rest != [] ==> !IsDigit(rest[0])
    ensures Run(d + rest) == |d|
  {
    if d == [] {
      assert d + rest == rest;
    } else {
      assert (d + rest)[1..] == d[1..] + rest;
      RunOfDigits(d[1..], rest);
    }
  }

  /** What may follow a number without changing it. */
  predicate EndsNumber(rest: string) {
    rest == [] || (!IsDigit(rest[0]) && rest[0] != '.' && rest[0] != 'e' && rest[0] != 'E')
  }

  lemma ReadIntOfDigits(n: nat, rest: string)
    requires rest != [] ==> !IsDigit(rest[0])
    ensures ReadInt(Digits(n) + rest) == Some(Found(n, rest))
  {
    var d := Digits(n);
    RunOfDigits(d, rest);
    DigitsDenote(n);
    assert (d + rest)[..|d|] == d && (d + rest)[|d|..] == rest;
    if d[0] == '0' {
      assert d == ['0'];
    }
  }

  lemma NothingAfterInt(x: real, rest: string)
    requires EndsNumber(rest)
    ensures ReadFraction(rest) == Some(Found(0.0, rest)) && ReadExponent(rest) == Some(Found(0, rest))
    ensures Scaled(x + 0.0, 0) == x && (rest != [] ==> !IsDigit(rest[0]))
  {
    assert Pow10(0) == 1.0;
  }

  lemma ReadNumberOfInt(n: int, rest: string)
    requires EndsNumber(rest)
    ensures ReadNumber(IntText(n) + rest) == Some(Found(n as real, rest))
  {
    hide ReadInt, Digits, ReadFraction, ReadExponent, Scaled, EndsNumber;
    var s := IntText(n) + rest;
    NothingAfterInt((if n < 0 then -n else n) as real, rest);
    if n < 0 {
      ReadIntOfDigits(-n, rest);
      assert s[1..] == Digits(-n) + rest;
    } else {
      ReadIntOfDigits(n, rest);
      assert s == Digits(n) + rest && s[0] == Digits(n)[0];
    }
  }

  lemma {:induction false} ReadCharsOfPlain(name: string, rest: string)
    requires IsPlain(name)
    ensures ReadChars(name + ("\"" + rest)) == Some(Found(name, rest))
  {
    var s := name + ("\"" + rest);
    if name == [] {
      assert s[1..] == rest;
    } else {
      assert s[0] == name[0] && s[1..] == name[1..] + ("\"" + rest);
      ReadCharsOfPlain(name[1..], rest);
      assert [name[0]] + name[1..] == name;
    }
  }

  // ---------------------------------------------------------------- the printed text is an object

  lemma LiteralsStart(s: string)
    requires s != [] && (s[0] == '-' || IsDigit(s[0]))
    ensures !("true" <= s) && !("false" <= s) && !("null" <= s) && !IsSpace(s[0])
  {
  }

  lemma ReadValueOfInt(n: int, rest: string)
    requires EndsNumber(rest)
    ensures ReadValue(IntText(n) + rest) == Some(Found(Number(n as real), rest))
  {
    hide ReadNumber, ReadChars, ReadMembers, ReadItems;
    var s := IntText(n) + rest;
    LiteralsStart(s);
    ReadNumberOfInt(n, rest);
    assert SkipSpace(s) == s;
  }

  lemma ReadValueOfBool(b: bool, rest: string)
    ensures ReadValue(BoolText(b) + rest) == Some(Found(Bool(b), rest))
  {
    hide ReadNumber, ReadChars, ReadMembers, ReadItems;
    var s := BoolText(b) + rest;
    assert s[0] == BoolText(b)[0];
    assert SkipSpace(s) == s;
    if b {
      assert s[..4] == "true" && s[4..] == rest;
    } else {
      assert s[..5] == "false" && s[5..] == rest;
    }
  }

  lemma ReadValuePrinted(v: Value, rest: string)
    requires v != OtherValue && rest != [] && (rest[0] == ',' || rest[0] == '}')
    ensures ReadValue(ValueText(v).value + rest) == Some(Found(JsonOf(v), rest))
  {
    hide ReadValue;
    match v
    case IntValue(n) => ReadValueOfInt(n, rest);
    case BoolValue(b) => ReadValueOfBool(b, rest);
  }

  lemma AllPrint(fields: seq<Field>, instance: seq<Value>)
    requires IsRecord(fields) && Fits(fields, instance)
    ensures forall i :: 0 <= i < |fields| ==> IsPrintable(fields[i], instance[i])
  {
    forall i | 0 <= i < |fields| ensures IsPrintable(fields[i], instance[i]) {
      assert HasKind(instance[i], fields[i].kind);
    }
  }

  /** One member whose name and value have been recognised, followed by a comma or the closing brace. */
  lemma ReadOneMember(a: string, name: string, b: string, value: Json, rest: string, seen: map<string, Json>)
    requires ReadChars(a) == Some(Found(name, ":" + b)) && ReadValue(b) == Some(Found(value, rest))
    requires rest != [] && (rest[0] == ',' || rest[0] == '}')
    ensures ReadMembers("\"" + a, seen) ==
            var members := seen[name := value];
            if rest[0] == '}' then Some(Found(Object(members), rest[1..])) else ReadMembers(rest[1..], members)
  {
    hide ReadValue, ReadChars;
    var s, u := "\"" + a, ":" + b;
    assert SkipSpace(s) == s && s[1..] == a;
    assert SkipSpace(u) == u && u[1..] == b;
    assert SkipSpace(rest) == rest;
  }

  lemma ReadMemberPrinted(field: Field, v: Value, rest: string, seen: map<string, Json>)
    requires field.name.Some? && IsPlain(field.name.value) && v != OtherValue
    requires rest != [] && (rest[0] == ',' || rest[0] == '}')
    ensures ReadMembers(Member(field, v) + rest, seen) ==
            var members := seen[field.name.value := JsonOf(v)];
            if rest[0] == '}' then Some(Found(Object(members), rest[1..])) else ReadMembers(rest[1..], members)
  {
    var name, text := field.name.value, ValueText(v).value;
    hide ReadValue, ReadChars, ValueText, ReadMembers, IsPlain, JsonOf;
    var b := text + rest;
    ReadCharsOfPlain(name, ":" + b);
    ReadValuePrinted(v, rest);
    ReadOneMember(name + ("\"" + (":" + b)), name, b, JsonOf(v), rest, seen);
    Assoc(":", text, rest);
    Assoc("\"", ":" + text, rest);
    Assoc(name, "\"" + (":" + text), rest);
    Assoc("\"", name + ("\"" + (":" + text)), rest);
  }

  /** The members split after the first; a comma is the only difference the first flag makes. */
  lemma MembersSplit(fields: seq<Field>, instance: seq<Value>, end: string)
    requires |instance| == |fields| && fields != []
    requires forall i :: 0 <= i < |fields| ==> IsPrintable(fields[i], instance[i])
    ensures Members(fields, instance, true) + end == Member(fields[0], instance[0]) + (Members(fields[1..], instance[1..], false) + end)
    ensures Members(fields, instance, false) + end == "," + (Members(fields, instance, true) + end)
  {
    hide Member, IsPrintable;
    var first, more := Member(fields[0], instance[0]), Members(fields[1..], instance[1..], false);
    assert "" + (first + more) == first + more;
    Assoc(first, more, end);
    Assoc(",", first + more, end);
  }

  lemma {:induction false} ReadMembersPrinted(fields: seq<Field>, instance: seq<Value>, tail: string, seen: map<string, Json>)
    requires IsRecord(fields) && Fits(fields, instance) && fields != []
    requires forall i :: 0 <= i < |fields| ==> IsPrintable(fields[i], instance[i])
    ensures ReadMembers(Members(fields, instance, true) + ("}" + tail), seen) ==
            Some(Found(Object(Entries(fields, instance, seen)), tail))
    decreases |fields|
  {
    hide ReadMembers, Member, Members, HasKind, IsPlain, ValueText, JsonOf, IsPrintable;
    var end := "}" + tail;
    assert HasKind(instance[0], fields[0].kind);
    KindPrints(fields[0].kind, instance[0]);
    MembersSplit(fields, instance, end);
    var rest := Members(fields[1..], instance[1..], false) + end;
    var seen' := seen[fields[0].name.value := JsonOf(instance[0])];
    if |fields| > 1 {
      MembersSplit(fields[1..], instance[1..], end);
      assert rest[1..] == Members(fields[1..], instance[1..], true) + end;
      ReadMembersPrinted(fields[1..], instance[1..], tail, seen');
    } else {
      NoMembers(fields[1..], instance[1..]);
      assert rest == end && rest[1..] == tail;
    }
    ReadMemberPrinted(fields[0], instance[0], rest, seen);
  }

  lemma NoMembers(fields: seq<Field>, instance: seq<Value>)
    requires fields == [] && |instance| == |fields|
    ensures Members(fields, instance, false) == Members(fields, instance, true) == ""
  {
  }

  lemma KindPrints(kind: Kind, v: Value)
    requires HasKind(v, kind) && kind != OtherKind
    ensures v != OtherValue && ValueText(v).Some?
  {
  }

  /**
   * The text printed for a record of ints and bools is, from its first character to its last, an object by
   * section 4 of RFC 8259 holding exactly the fields under their names; text after it is left unread.
   */
  lemma PrintedIsObject(fields: seq<Field>, instance: seq<Value>, tail: string)
    requires IsRecord(fields) && Fits(fields, instance)
    ensures ReadValue(Printed(Some(fields), instance) + tail) ==
            Some(Found(Object(Entries(fields, instance, map[])), tail))
  {
    AllPrint(fields, instance);
    PrintedText(fields, instance, tail);
    hide Printed, ReadMembers, Members, Member, HasKind, IsPlain, IsPrintable, ReadValue, Entries;
    var end := "}" + tail;
    var body := Members(fields, instance, true) + end;
    if fields == [] {
      NoEntries(fields, instance);
      NoMembers(fields, instance);
      ReadEmptyObject(tail);
    } else {
      MembersSplit(fields, instance, end);
      MemberStarts(fields[0], instance[0]);
      ReadMembersPrinted(fields, instance, tail, map[]);
      ReadNonEmptyObject(body);
    }
  }

  lemma PrintedText(fields: seq<Field>, instance: seq<Value>, tail: string)
    requires |instance| == |fields|
    requires forall i :: 0 <= i < |fields| ==> IsPrintable(fields[i], instance[i])
    ensures Printed(Some(fields), instance) + tail == "{" + (Members(fields, instance, true) + ("}" + tail))
  {
    hide Members, IsPrintable;
    var members := Members(fields, instance, true);
    Assoc("{" + members, "}", tail);
    Assoc("{", members, "}" + tail);
  }

  lemma ReadEmptyObject(tail: string)
    ensures ReadValue("{" + ("" + ("}" + tail))) == Some(Found(Object(map[]), tail))
  {
    hide ReadNumber, ReadChars, ReadMembers, ReadItems;
    var s := "{" + ("" + ("}" + tail));
    assert SkipSpace(s) == s && SkipSpace(s[1..]) == s[1..];
    assert s[1..][1..] == tail;
  }

  lemma ReadNonEmptyObject(body: string)
    requires Starts(body, '\"')
    ensures ReadValue("{" + body) == ReadMembers(body, map[])
  {
    hide ReadNumber, ReadChars, ReadMembers, ReadItems;
    var s := "{" + body;
    assert s[1..] == body;
    assert SkipSpace(s) == s && SkipSpace(s[1..]) == s[1..];
  }

  lemma MemberStarts(field: Field, v: Value)
    requires IsPrintable(field, v)
    ensures Member(field, v) != [] && Member(field, v)[0] == '\"'
  {
  }

  lemma NoEntries(fields: seq<Field>, instance: seq<Value>)
    requires fields == [] && |instance| == |fields|
    ensures Entries(fields, instance, map[]) == map[]
  {
  }

  lemma MemberText(a: string, m: int)
    ensures Member(Field(Some(a), IntKind), IntValue(m)) == "\"" + a + "\":" + IntText(m)
  {
    hide IntText;
    assert "\"" + (":" + IntText(m)) == "\":" + IntText(m);
  }

  /** The printed text has no space in it: two int fields, as the app's configuration has, look like this. */
  lemma PrintedCompactly(a: string, b: string, m: int, n: int)
    ensures Printed(Some([Field(Some(a), IntKind), Field(Some(b), IntKind)]), [IntValue(m), IntValue(n)]) ==
            "{" + ("\"" + a + "\":" + IntText(m)) + "," + ("\"" + b + "\":" + IntText(n)) + "}"
  {
    var fields, values := [Field(Some(a), IntKind), Field(Some(b), IntKind)], [IntValue(m), IntValue(n)];
    assert forall i :: 0 <= i < 2 ==> IsPrintable(fields[i], values[i]);
    MemberText(a, m);
    MemberText(b, n);
    TwoMembers(fields, values);
    hide Member, Members, IsPrintable;
    assert Printed(Some(fields), values) == "{" + Members(fields, values, true) + "}";
  }

  lemma TwoMembers(fields: seq<Field>, values: seq<Value>)
    requires |fields| == |values| == 2 && forall i :: 0 <= i < 2 ==> IsPrintable(fields[i], values[i])
    ensures Members(fields, values, true) == Member(fields[0], values[0]) + "," + Member(fields[1], values[1])
  {
    hide Member, IsPrintable;
    assert fields[1..] == [fields[1]] && fields[1..][1..] == [] && values[1..] == [values[1]] && values[1..][1..] == [];
    var none: seq<Value> := [];
    assert Members([], none, false) == "";
    assert Members(fields[1..], values[1..], false) == "," + (Member(fields[1], values[1]) + "");
  }

  // ---------------------------------------------------------------- integers

  /** `int` of section 6 of RFC 8259 with an optional minus sign: no fraction, exponent or leading zero. */
  predicate IsIntegerText(s: string) {
    var d := if Starts(s, '-') then s[1..] else s;
    d != [] && (forall i :: 0 <= i < |d| ==> IsDigit(d[i])) && (d[0] == '0' ==> |d| == 1)
  }

  lemma PrintedIntIsInteger(n: int)
    ensures IsIntegerText(IntText(n))
  {
    var m := if n < 0 then -n else n;
    DigitsDenote(m);
    if n < 0 {
      assert IntText(n)[1..] == Digits(m);
    }
  }

  /**
   * An int field takes exactly the decimals between the two limits and the half unit in the last place beyond
   * each that still rounds to it. What it takes is the double's whole part, so toward zero: the cast it makes is
   * always defined, and whole numbers are kept.
   */
  lemma IntFieldTakes(json: Json)
    ensures Converted(IntKind, json).0 == Accepted <==>
            json.Number? && INT_MIN as real - 1.0 / 4194304.0 <= json.number <= INT_MAX as real + 1.0 / 8388608.0
    ensures Converted(IntKind, json).0 == Thrown <==> !json.Number?
    ensures Converted(IntKind, json).0 == Accepted ==> Converted(IntKind, json).1.IntValue? && IsInt32(Converted(IntKind, json).1.n)
    ensures Converted(IntKind, json).0 == Accepted ==>
              var raw, n := Doubles.AsDouble(json.number), Converted(IntKind, json).1.n as real;
              (raw >= 0.0 ==> n <= raw < n + 1.0) && (raw <= 0.0 ==> n - 1.0 < raw <= n)
    ensures forall n: int :: IsInt32(n) && json == Number(n as real) ==> Converted(IntKind, json) == (Accepted, IntValue(n))
  {
    hide Doubles.AsDouble, Truncated;
    if json.Number? {
      Doubles.RoundsIntoInt(json.number);
      TowardZero(Doubles.AsDouble(json.number));
      forall n: int | IsInt32(n) && json == Number(n as real) ensures Converted(IntKind, json) == (Accepted, IntValue(n)) {
        Doubles.WholeIsExact(n);
      }
    }
  }

  // ---------------------------------------------------------------- what reading does

  /** How one field comes out: untouched if the object does not mention it. */
  function FieldResult(field: Field, v: Value, members: map<string, Json>): (Status, Value) {
    if field.name.None? then (Rejected, v)
    else if field.name.value !in members then (Accepted, v)
    else Converted(field.kind, members[field.name.value])
  }

  /** Where the field loop stops: the first field that cannot be set, or the end. */
  function Stop(fields: seq<Field>, instance: seq<Value>, members: map<string, Json>): (k: nat)
    requires |instance| == |fields|
    ensures k <= |fields|
    ensures forall i :: 0 <= i < k ==> FieldResult(fields[i], instance[i], members).0 == Accepted
    ensures k < |fields| ==> FieldResult(fields[k], instance[k], members).0 != Accepted
  {
    if fields == [] || FieldResult(fields[0], instance[0], members).0 != Accepted then 0
    else
      var k := Stop(fields[1..], instance[1..], members);
      assert forall i :: 0 < i < 1 + k ==> FieldResult(fields[i], instance[i], members) == FieldResult(fields[1..][i - 1], instance[1..][i - 1], members);
      1 + k
  }

  /**
   * The field loop sets every field before the first bad one and nothing from there on, and ends the way that
   * field does; it accepts exactly when every field can be set.
   */
  lemma {:induction false} SetFieldsMeaning(fields: seq<Field>, instance: seq<Value>, members: map<string, Json>)
    requires |instance| == |fields|
    ensures var k := Stop(fields, instance, members);
            var (status, after) := SetFields(fields, instance, members);
            && status == (if k == |fields| then Accepted else FieldResult(fields[k], instance[k], members).0)
            && (forall i :: 0 <= i < |fields| ==>
                  after[i] == if i < k then FieldResult(fields[i], instance[i], members).1 else instance[i])
    ensures SetFields(fields, instance, members).0 == Accepted <==>
            forall i :: 0 <= i < |fields| ==> FieldResult(fields[i], instance[i], members).0 == Accepted
  {
    if fields != [] && FieldResult(fields[0], instance[0], members).0 == Accepted {
      SetFieldsMeaning(fields[1..], instance[1..], members);
      var after := SetFields(fields, instance, members).1;
      forall i | 0 < i < |fields|
        ensures after[i] == SetFields(fields[1..], instance[1..], members).1[i - 1]
        ensures fields[i] == fields[1..][i - 1] && instance[i] == instance[1..][i - 1]
      {
      }
    }
  }

  /** Reading keeps every field's type, however it ends. */
  lemma ReadingKeepsFit(meta: Meta, instance: seq<Value>, text: string)
    requires meta.Some? && Fits(meta.value, instance)
    ensures Fits(meta.value, FromJson(meta, instance, text).1)
  {
    hide ReadValue;
    if ObjectIn(text).Some? {
      var members := ObjectIn(text).value;
      SetFieldsMeaning(meta.value, instance, members);
      forall i | 0 <= i < |meta.value|
        ensures FieldResult(meta.value[i], instance[i], members).0 == Accepted ==>
                HasKind(FieldResult(meta.value[i], instance[i], members).1, meta.value[i].kind)
      {
        var field := meta.value[i];
        assert HasKind(instance[i], field.kind);
        if field.name.Some? && field.name.value in members && field.kind.IntKind? {
          IntFieldTakes(members[field.name.value]);
        }
      }
    }
  }

  /** Whether a text is accepted does not depend on the instance it is read into. */
  lemma VerdictIgnoresInstance(meta: Meta, a: seq<Value>, b: seq<Value>, text: string)
    requires meta.Some? ==> |a| == |b| == |meta.value|
    ensures FromJson(meta, a, text).0 == FromJson(meta, b, text).0
  {
    if meta.Some? && ObjectIn(text).Some? {
      VerdictOfFields(meta.value, a, b, ObjectIn(text).value);
    }
  }

  lemma {:induction false} VerdictOfFields(fields: seq<Field>, a: seq<Value>, b: seq<Value>, members: map<string, Json>)
    requires |a| == |b| == |fields|
    ensures SetFields(fields, a, members).0 == SetFields(fields, b, members).0
  {
    if fields != [] {
      VerdictOfFields(fields[1..], a[1..], b[1..], members);
    }
  }

  // ---------------------------------------------------------------- round trip

  lemma {:induction false} EntriesHold(fields: seq<Field>, instance: seq<Value>, seen: map<string, Json>)
    requires IsRecord(fields) && |instance| == |fields|
    ensures var m := Entries(fields, instance, seen);
            && (forall i :: 0 <= i < |fields| ==> fields[i].name.value in m && m[fields[i].name.value] == JsonOf(instance[i]))
            && (forall name :: name in seen && (forall i :: 0 <= i < |fields| ==> fields[i].name.value != name) ==>
                  name in m && m[name] == seen[name])
  {
    if fields != [] {
      var seen' := seen[fields[0].name.value := JsonOf(instance[0])];
      EntriesHold(fields[1..], instance[1..], seen');
      var m := Entries(fields[1..], instance[1..], seen');
      var name := fields[0].name.value;
      assert forall i :: 0 <= i < |fields[1..]| ==> fields[1..][i].name.value != name;
      forall i | 0 < i < |fields| ensures fields[i].name.value in m && m[fields[i].name.value] == JsonOf(instance[i]) {
        assert fields[i] == fields[1..][i - 1] && instance[i] == instance[1..][i - 1];
      }
    }
  }

  lemma ConvertsBack(kind: Kind, v: Value)
    requires HasKind(v, kind) && kind != OtherKind
    ensures Converted(kind, JsonOf(v)) == (Accepted, v)
  {
    if v.IntValue? {
      IntFieldTakes(JsonOf(v));
    }
  }

  /**
   * Printing a record and reading the text into any instance of the type gives the printed record back,
   * whatever follows the text.
   */
  lemma RoundTrip(fields: seq<Field>, instance: seq<Value>, into: seq<Value>, tail: string)
    requires IsRecord(fields) && Fits(fields, instance) && |into| == |fields|
    ensures FromJson(Some(fields), into, Printed(Some(fields), instance) + tail) == (Accepted, instance)
  {
    hide ReadValue, Printed, Entries, HasKind, Converted;
    var members := Entries(fields, instance, map[]);
    PrintedIsObject(fields, instance, tail);
    assert ObjectIn(Printed(Some(fields), instance) + tail) == Some(members);
    EntriesHold(fields, instance, map[]);
    forall i | 0 <= i < |fields|
      ensures FieldResult(fields[i], into[i], members) == (Accepted, instance[i])
    {
      assert HasKind(instance[i], fields[i].kind);
      ConvertsBack(fields[i].kind, instance[i]);
    }
    SetFieldsMeaning(fields, into, members);
    assert SetFields(fields, into, members).1 == instance;
  }

  /** Printing tells instances apart. */
  lemma PrintingIsInjective(fields: seq<Field>, a: seq<Value>, b: seq<Value>)
    requires IsRecord(fields) && Fits(fields, a) && Fits(fields, b)
    requires Printed(Some(fields), a) == Printed(Some(fields), b)
    ensures a == b
  {
    hide Printed, FromJson;
    RoundTrip(fields, a, a, "");
    RoundTrip(fields, b, a, "");
  }
}
