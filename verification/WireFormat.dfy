/** The protobuf wire format: varints, fields, and a reference reader
    (the encoding side is wevibe-dashboard/lib/chain-client.ts). */
module WireFormat {
  import opened Wrappers

  type Byte = b: nat | b < 256 witness 0

  type Bytes = seq<Byte>

  // ----- varints -----

  /** Low seven bits first. A negative number keeps only its low seven bits. */
  function Varint(v: int): (r: Bytes)
    ensures r != []
    decreases if v < 0 then 0 else v
  {
    if v > 127 then [v % 128 + 128] + Varint(v / 128) else [v % 128]
  }

  datatype Read = Read(value: nat, rest: Bytes)

  function ReadVarint(bytes: Bytes): (r: Option<Read>)
    ensures r.Some? ==> |r.value.rest| < |bytes|
  {
    if bytes == [] then None
    else if bytes[0] < 128 then Some(Read(bytes[0], bytes[1..]))
    else match ReadVarint(bytes[1..])
      case None => None
      case Some(more) => Some(Read(bytes[0] - 128 + 128 * more.value, more.rest))
  }

  /** What a reader makes of `v`. */
  function Sent(v: int): nat {
    if v < 0 then v % 128 else v
  }

  lemma {:induction false} VarintReads(v: int, rest: Bytes)
    ensures ReadVarint(Varint(v) + rest) == Some(Read(Sent(v), rest))
    decreases if v < 0 then 0 else v
  {
    var bytes := Varint(v) + rest;
    if v > 127 {
      VarintReads(v / 128, rest);
      assert bytes[1..] == Varint(v / 128) + rest;
    } else {
      assert bytes[1..] == rest;
    }
  }

  /** A number reads back, in front of any bytes, exactly when it is not negative. */
  lemma VarintRoundTrip(v: int, rest: Bytes)
    ensures var read := ReadVarint(Varint(v) + rest);
            v >= 0 <==> read.Some? && read.value.value == v && read.value.rest == rest
  {
    VarintReads(v, rest);
  }

  /** No byte string that reads as `v` is shorter. */
  lemma {:induction false} VarintMinimal(v: nat, bytes: Bytes)
    requires ReadVarint(bytes) == Some(Read(v, []))
    ensures |Varint(v)| <= |bytes|
  {
    if bytes[0] >= 128 {
      var more := ReadVarint(bytes[1..]).value.value;
      assert v / 128 == more;
      VarintMinimal(more, bytes[1..]);
    }
  }

  method EncodeVarint(value: int) returns (result: Bytes)
    ensures result == Varint(value)
  {
    result := [];
    var v := value;
    while v > 0x7f
      invariant result + Varint(v) == Varint(value)
      invariant value < 0 ==> v == value
      decreases v
    {
      assert Varint(v) == [v % 128 + 128] + Varint(v / 128);
      result := result + [v % 128 + 128];
      v := v / 128;
    }
    result := result + [v % 128];
  }

  // ----- fields -----

  datatype Value = Num(n: nat) | Text(bytes: Bytes)

  datatype Field = Field(number: nat, value: Value)

  /** Field numbers whose tag is one byte. */
  predicate Short(f: Field) {
    0 < f.number < 16
  }

  function Tag(f: Field): (r: Byte)
    requires Short(f)
  {
    8 * f.number + if f.value.Num? then 0 else 2
  }

  function EncodeField(f: Field): Bytes
    requires Short(f)
  {
    match f.value
    case Num(n) => [Tag(f)] + Varint(n)
    case Text(bytes) => [Tag(f)] + Varint(|bytes|) + bytes
  }

  predicate AllShort(fields: seq<Field>) {
    forall i :: 0 <= i < |fields| ==> Short(fields[i])
  }

  function EncodeAll(fields: seq<Field>): Bytes
    requires AllShort(fields)
  {
    if fields == [] then [] else EncodeField(fields[0]) + EncodeAll(fields[1..])
  }

  function Prepend(f: Field, more: Option<seq<Field>>): Option<seq<Field>> {
    if more.None? then None else Some([f] + more.value)
  }

  /** Every field, in the order sent; `None` when the bytes are not a message. */
  function ParseFields(bytes: Bytes): Option<seq<Field>>
    decreases |bytes|
  {
    if bytes == [] then Some([])
    else match ReadVarint(bytes)
      case None => None
      case Some(tag) =>
        match ReadVarint(tag.rest)
        case None => None
        case Some(next) =>
          if tag.value % 8 == 0 then Prepend(Field(tag.value / 8, Num(next.value)), ParseFields(next.rest))
          else if tag.value % 8 == 2 && next.value <= |next.rest| then
            Prepend(Field(tag.value / 8, Text(next.rest[..next.value])), ParseFields(next.rest[next.value..]))
          else None
  }

  lemma ParseNum(bytes: Bytes, tag: nat, after: Bytes, n: nat, rest: Bytes)
    requires ReadVarint(bytes) == Some(Read(tag, after)) && ReadVarint(after) == Some(Read(n, rest)) && tag % 8 == 0
    ensures ParseFields(bytes) == Prepend(Field(tag / 8, Num(n)), ParseFields(rest))
  {
  }

  lemma ParseText(bytes: Bytes, tag: nat, after: Bytes, body: Bytes, rest: Bytes)
    requires ReadVarint(bytes) == Some(Read(tag, after)) && tag % 8 == 2
    requires ReadVarint(after) == Some(Read(|body|, body + rest))
    ensures ParseFields(bytes) == Prepend(Field(tag / 8, Text(body)), ParseFields(rest))
  {
    assert (body + rest)[..|body|] == body && (body + rest)[|body|..] == rest;
  }

  lemma TagReads(tag: Byte, after: Bytes, bytes: Bytes)
    requires tag < 128 && bytes == [tag] + after
    ensures ReadVarint(bytes) == Some(Read(tag, after))
  {
  }

  lemma ParseOne(f: Field, rest: Bytes)
    requires Short(f)
    ensures ParseFields(EncodeField(f) + rest) == Prepend(f, ParseFields(rest))
  {
    hide ParseFields, ReadVarint, Varint;
    var bytes := EncodeField(f) + rest;
    match f.value
    case Num(n) =>
      assert bytes == [Tag(f)] + (Varint(n) + rest);
      TagReads(Tag(f), Varint(n) + rest, bytes);
      VarintReads(n, rest);
      ParseNum(bytes, Tag(f), Varint(n) + rest, n, rest);
    case Text(body) =>
      var after := Varint(|body|) + (body + rest);
      assert bytes == [Tag(f)] + after;
      TagReads(Tag(f), after, bytes);
      VarintReads(|body|, body + rest);
      ParseText(bytes, Tag(f), after, body, rest);
  }

  /** Whatever is written is read: every field, in order. */
  lemma {:induction false} ParseAll(fields: seq<Field>)
    requires AllShort(fields)
    ensures ParseFields(EncodeAll(fields)) == Some(fields)
  {
    if fields != [] {
      hide ParseFields, EncodeField;
      ParseOne(fields[0], EncodeAll(fields[1..]));
      ParseAll(fields[1..]);
      assert [fields[0]] + fields[1..] == fields;
    }
  }

  lemma {:induction false} EncodeSnoc(fields: seq<Field>, f: Field)
    requires AllShort(fields) && Short(f)
    ensures AllShort(fields + [f]) && EncodeAll(fields + [f]) == EncodeAll(fields) + EncodeField(f)
  {
    if fields == [] {
      assert fields + [f] == [f];
      assert EncodeAll([f]) == EncodeField(f) + EncodeAll([]);
    } else {
      assert (fields + [f])[0] == fields[0] && (fields + [f])[1..] == fields[1..] + [f];
      EncodeSnoc(fields[1..], f);
      assert EncodeField(fields[0]) + (EncodeAll(fields[1..]) + EncodeField(f))
          == (EncodeField(fields[0]) + EncodeAll(fields[1..])) + EncodeField(f);
    }
  }

  // ----- what a reader collects -----

  /** The values received under each field number, in the order they came. */
  type Received = map<nat, seq<Value>>

  function Under(r: Received, number: nat): seq<Value> {
    if number in r then r[number] else []
  }

  function Added(r: Received, f: Field): Received {
    r[f.number := Under(r, f.number) + [f.value]]
  }

  function Collected(fields: seq<Field>): Received {
    if fields == [] then map[] else Added(Collected(fields[..|fields| - 1]), fields[|fields| - 1])
  }

  function Receive(bytes: Bytes): Option<Received> {
    match ParseFields(bytes) case None => None case Some(fields) => Some(Collected(fields))
  }

  lemma Delivered(w: Wire, r: Received)
    requires w.Says(r)
    ensures Receive(w.bytes) == Some(r)
  {
    SaysIsReceived(w.bytes, r);
  }

  /** A singular text or bytes field: the last one sent, or empty. */
  function TextAt(r: Received, number: nat): Bytes {
    var values := Under(r, number);
    if values != [] && values[|values| - 1].Text? then values[|values| - 1].bytes else []
  }

  /** A singular number: the last one sent, or zero. */
  function NumAt(r: Received, number: nat): nat {
    var values := Under(r, number);
    if values != [] && values[|values| - 1].Num? then values[|values| - 1].n else 0
  }

  predicate BoolAt(r: Received, number: nat) {
    NumAt(r, number) != 0
  }

  /** A repeated text or bytes field. */
  function TextsAt(r: Received, number: nat): seq<Bytes> {
    TextsOf(Under(r, number))
  }

  function TextsOf(values: seq<Value>): seq<Bytes> {
    if values == [] then []
    else if values[0].Text? then [values[0].bytes] + TextsOf(values[1..])
    else TextsOf(values[1..])
  }

  /** The values of one field number, apart from all others. */
  function Every(fields: seq<Field>, number: nat): seq<Value> {
    if fields == [] then []
    else
      var last := fields[|fields| - 1];
      Every(fields[..|fields| - 1], number) + if last.number == number then [last.value] else []
  }

  lemma {:induction false} CollectedIsEvery(fields: seq<Field>, number: nat)
    ensures Under(Collected(fields), number) == Every(fields, number)
    ensures number in Collected(fields) <==> Every(fields, number) != []
  {
    if fields != [] {
      CollectedIsEvery(fields[..|fields| - 1], number);
    }
  }

  /** Fields with different numbers may come in any order: a reader sees the same message whenever each
      number's own values come in the same order. */
  lemma AnyOrderReads(a: seq<Field>, b: seq<Field>)
    requires forall number :: Every(a, number) == Every(b, number)
    ensures Collected(a) == Collected(b)
  {
    forall number: nat
      ensures (number in Collected(a) <==> number in Collected(b))
      ensures Under(Collected(a), number) == Under(Collected(b), number)
    {
      CollectedIsEvery(a, number);
      CollectedIsEvery(b, number);
    }
    assert Collected(a).Keys == Collected(b).Keys;
  }

  // ----- writing a message field by field -----

  /** `bytes` is a message from which a reader collects `r`. */
  ghost predicate IsMessage(bytes: Bytes, r: Received) {
    exists fields :: AllShort(fields) && bytes == EncodeAll(fields) && Collected(fields) == r
  }

  lemma SaysIsReceived(bytes: Bytes, r: Received)
    requires IsMessage(bytes, r)
    ensures Receive(bytes) == Some(r)
  {
    var fields :| AllShort(fields) && bytes == EncodeAll(fields) && Collected(fields) == r;
    ParseAll(fields);
  }

  lemma SaysNothing()
    ensures EMPTY.Says(map[])
  {
    assert AllShort([]) && EncodeAll([]) == [] && Collected([]) == map[];
  }

  lemma SaysMore(bytes: Bytes, r: Received, f: Field)
    requires IsMessage(bytes, r) && Short(f)
    ensures IsMessage(bytes + EncodeField(f), Added(r, f))
  {
    hide EncodeAll, EncodeField, Collected, Added;
    var fields :| AllShort(fields) && bytes == EncodeAll(fields) && Collected(fields) == r;
    EncodeSnoc(fields, f);
    CollectedSnoc(fields, f);
  }

  lemma CollectedSnoc(fields: seq<Field>, f: Field)
    ensures Collected(fields + [f]) == Added(Collected(fields), f)
  {
    assert (fields + [f])[..|fields|] == fields;
  }

  function EncodeTextField(tag: Byte, value: Bytes): Bytes {
    [tag] + Varint(|value|) + value
  }

  function EncodeBoolField(tag: Byte, value: bool): Bytes {
    [tag] + Varint(if value then 1 else 0)
  }

  /** A tag and a number, each written as a varint. */
  function EncodeNumField(tag: Byte, value: int): Bytes {
    Varint(tag) + Varint(value)
  }

  /** The bytes of a message so far; a builder appends one encoded field after another. */
  datatype Wire = Wire(bytes: Bytes) {

    function Text(tag: Byte, value: Bytes): Wire {
      Wire(bytes + EncodeTextField(tag, value))
    }

    function Num(tag: Byte, value: int): Wire {
      Wire(bytes + EncodeNumField(tag, value))
    }

    function Bool(tag: Byte, value: bool): Wire {
      Wire(bytes + EncodeBoolField(tag, value))
    }

    ghost predicate Says(r: Received) {
      IsMessage(bytes, r)
    }
  }

  const EMPTY := Wire([])

  lemma AddedNew(r: Received, number: nat, value: Value)
    requires number !in r
    ensures Added(r, Field(number, value)) == r[number := [value]]
  {
    assert [] + [value] == [value];
  }

  /** No number from `limit` on has been received. */
  ghost predicate Below(r: Received, limit: nat) {
    forall n :: n in r ==> n < limit
  }

  /** Fields under numbers below `limit` read as they did. */
  ghost predicate Keeps(r: Received, was: Received, limit: nat) {
    forall n: nat :: n < limit ==>
      TextAt(r, n) == TextAt(was, n) && NumAt(r, n) == NumAt(was, n) && TextsAt(r, n) == TextsAt(was, n)
  }

  lemma SameUnder(r: Received, was: Received, n: nat)
    requires Under(r, n) == Under(was, n)
    ensures TextAt(r, n) == TextAt(was, n) && NumAt(r, n) == NumAt(was, n) && TextsAt(r, n) == TextsAt(was, n)
  {
  }

  lemma KeepsIf(r: Received, was: Received, limit: nat)
    requires forall n: nat :: n < limit ==> Under(r, n) == Under(was, n)
    ensures Keeps(r, was, limit)
  {
    hide TextAt, NumAt, TextsAt, Under;
    forall n: nat | n < limit
      ensures TextAt(r, n) == TextAt(was, n) && NumAt(r, n) == NumAt(was, n) && TextsAt(r, n) == TextsAt(was, n)
    {
      SameUnder(r, was, n);
    }
  }

  /** Adding under a number above all before it. */
  lemma KeepsAdded(was: Received, number: nat, value: Value)
    requires Below(was, number)
    ensures Keeps(was[number := [value]], was, number) && Below(was[number := [value]], number + 1)
  {
    hide Keeps;
    KeepsIf(was[number := [value]], was, number);
  }

  lemma SayText(w: Wire, r: Received, number: nat, value: Bytes)
    requires w.Says(r) && 0 < number < 16
    ensures w.Text(8 * number + 2, value).Says(Added(r, Field(number, Text(value))))
  {
    hide IsMessage, Added;
    SaysMore(w.bytes, r, Field(number, Text(value)));
  }

  lemma SayNum(w: Wire, r: Received, number: nat, value: int)
    requires w.Says(r) && 0 < number < 16
    ensures w.Num(8 * number, value).Says(Added(r, Field(number, Num(Sent(value)))))
  {
    hide IsMessage, Added;
    assert Varint(value) == Varint(Sent(value));
    SaysMore(w.bytes, r, Field(number, Num(Sent(value))));
  }

  lemma SayBool(w: Wire, r: Received, number: nat, value: bool)
    requires w.Says(r) && 0 < number < 16
    ensures w.Bool(8 * number, value).Says(Added(r, Field(number, Num(if value then 1 else 0))))
  {
    hide IsMessage, Added;
    SaysMore(w.bytes, r, Field(number, Num(if value then 1 else 0)));
  }

  // ----- repeated fields -----

  function AddedAll(r: Received, number: nat, values: seq<Bytes>): Received
  {
    if values == [] then r
    else Added(AddedAll(r, number, values[..|values| - 1]), Field(number, Text(values[|values| - 1])))
  }

  function AsValues(values: seq<Bytes>): (r: seq<Value>)
    ensures |r| == |values| && forall i :: 0 <= i < |r| ==> r[i] == Text(values[i])
  {
    seq(|values|, i requires 0 <= i < |values| => Text(values[i]))
  }

  lemma {:induction false} AddedAllUnder(r: Received, number: nat, values: seq<Bytes>)
    ensures Under(AddedAll(r, number, values), number) == Under(r, number) + AsValues(values)
    ensures forall other :: other != number ==> Under(AddedAll(r, number, values), other) == Under(r, other)
  {
    if values != [] {
      var init := values[..|values| - 1];
      AddedAllUnder(r, number, init);
      assert AsValues(values) == AsValues(init) + [Text(values[|values| - 1])];
      assert Under(r, number) + AsValues(init) + [Text(values[|values| - 1])] == Under(r, number) + AsValues(values);
    } else {
      assert Under(r, number) + AsValues([]) == Under(r, number);
    }
  }

  lemma {:induction false} TextsOfValues(values: seq<Bytes>)
    ensures TextsOf(AsValues(values)) == values
  {
    if values != [] {
      assert AsValues(values)[1..] == AsValues(values[1..]);
      TextsOfValues(values[1..]);
    }
  }

  lemma {:induction false} AddedAllKeys(r: Received, number: nat, values: seq<Bytes>)
    ensures forall other :: other in AddedAll(r, number, values) ==> other in r || other == number
  {
    if values != [] {
      AddedAllKeys(r, number, values[..|values| - 1]);
    }
  }

  /** Appends one field per text, all under one number. */
  method EncodeRepeatedStringField(before: Wire, number: nat, values: seq<Bytes>, ghost was: Received)
    returns (fields: Wire, ghost r: Received)
    requires 0 < number < 16 && before.Says(was) && Below(was, number)
    ensures fields.Says(r) && TextsAt(r, number) == values
    ensures Keeps(r, was, number) && Below(r, number + 1)
  {
    hide Wire.Says, Wire.Text, Added;
    fields := before;
    var i := 0;
    while i < |values|
      invariant i <= |values| && fields.Says(AddedAll(was, number, values[..i]))
    {
      SayText(fields, AddedAll(was, number, values[..i]), number, values[i]);
      assert values[..i + 1][..i] == values[..i];
      fields := fields.Text(8 * number + 2, values[i]);
      i := i + 1;
    }
    assert values[..i] == values;
    r := AddedAll(was, number, values);
    RepeatedReads(was, number, values);
  }

  lemma RepeatedReads(was: Received, number: nat, values: seq<Bytes>)
    requires Below(was, number)
    ensures var r := AddedAll(was, number, values);
            TextsAt(r, number) == values && Keeps(r, was, number) && Below(r, number + 1)
  {
    hide AddedAll, Keeps;
    AddedAllUnder(was, number, values);
    AddedAllKeys(was, number, values);
    KeepsIf(AddedAll(was, number, values), was, number);
    assert [] + AsValues(values) == AsValues(values);
    TextsOfValues(values);
  }
}
