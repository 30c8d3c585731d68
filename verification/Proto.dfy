/**
 Reading agy's step payloads: the first length-delimited field of a number, the assistant text of a
 text step and the call of a tool step; and the stub's encoders, which they invert.
 */
module Proto {
  import opened Common
  import opened Utf8
  import opened Wire

  const FIELD_TEXT := 20
  const FIELD_TEXT_BODY := 1
  const FIELD_TOOL_WRAPPER := 5
  const FIELD_TOOL_CALL := 4
  const FIELD_TOOL_NAME := 2
  const FIELD_TOOL_NAME_ALT := 9
  const FIELD_TOOL_ARGS := 3

  function Skip(buf: Bytes, k: nat): (r: Bytes)
    ensures |r| <= |buf|
  {
    if k <= |buf| then buf[k..] else []
  }

  /** The payload of the first length-delimited field numbered target, over the mathematical lengths. */
  function Scan(buf: Bytes, target: UInt64): Option<Bytes>
    decreases |buf|, 0
  {
    match Varint(buf)
    case None => None
    case Some((tag, n)) => ScanBody(tag / 8, tag % 8, buf[n..], target)
  }

  function ScanBody(number: nat, wire: nat, rest: Bytes, target: UInt64): Option<Bytes>
    decreases |rest|, 1
  {
    if wire == 0 then
      match Varint(rest) {
        case None => None
        case Some((_, m)) => Scan(rest[m..], target)
      }
    else if wire == 2 then
      match Varint(rest) {
        case None => None
        case Some((length, m)) => ScanPayload(number, length, rest[m..], target)
      }
    else if wire == 5 then Scan(Skip(rest, 4), target)
    else if wire == 1 then Scan(Skip(rest, 8), target)
    else None
  }

  function ScanPayload(number: nat, length: nat, rest: Bytes, target: UInt64): Option<Bytes>
    decreases |rest|, 1
  {
    if length > |rest| then None
    else if number == target then Some(rest[..length])
    else Scan(rest[length..], target)
  }

  /** Go's wrapped `i + int(length)` and its two comparisons accept exactly the lengths that fit. */
  lemma WrappedEnd(i: nat, length: UInt64, size: nat)
    requires i <= size < TWO_63
    ensures var end := ToInt64(i + ToInt64(length));
      && (length <= size - i ==> end == i + length)
      && (length > size - i <==> end > size || end < i)
  {
  }

  lemma SkipSkip(blob: Bytes, i: nat, k: nat)
    requires i <= |blob|
    ensures Skip(Skip(blob, i), k) == Skip(blob, i + k)
  {
  }

  /** What is left to find from cursor i on; past the end there is nothing. */
  function ScanFrom(blob: Bytes, i: nat, target: UInt64): Option<Bytes> {
    Scan(Skip(blob, i), target)
  }

  lemma StepTag(blob: Bytes, i: nat, target: UInt64)
    requires i <= |blob|
    ensures match Varint(blob[i..])
            case None => ScanFrom(blob, i, target) == None
            case Some((tag, n)) => ScanFrom(blob, i, target) == ScanBody(tag / 8, tag % 8, blob[i + n..], target)
  {
    hide Varint, ScanBody;
    var read := Varint(blob[i..]);
    if read.Some? {
      SkipSkip(blob, i, read.value.1);
    }
  }

  lemma {:induction false} StepBody(blob: Bytes, i: nat, number: nat, wire: nat, target: UInt64)
    requires i <= |blob|
    ensures var found := ScanBody(number, wire, blob[i..], target);
      && (wire == 5 ==> found == ScanFrom(blob, i + 4, target))
      && (wire == 1 ==> found == ScanFrom(blob, i + 8, target))
      && (wire !in {0, 1, 2, 5} ==> found == None)
      && (wire in {0, 2} && Varint(blob[i..]).None? ==> found == None)
  {
    hide Varint, Scan;
    SkipSkip(blob, i, 4);
    SkipSkip(blob, i, 8);
  }

  lemma {:induction false} StepVarint(blob: Bytes, i: nat, value: UInt64, m: nat, number: nat, target: UInt64)
    requires i <= |blob| && Varint(blob[i..]) == Some((value, m))
    ensures ScanBody(number, 0, blob[i..], target) == ScanFrom(blob, i + m, target)
  {
    hide Varint, Scan;
    SkipSkip(blob, i, m);
  }

  lemma {:induction false} StepBytes(blob: Bytes, i: nat, length: UInt64, m: nat, number: nat, target: UInt64)
    requires i <= |blob| && Varint(blob[i..]) == Some((length, m))
    ensures var found, lo := ScanBody(number, 2, blob[i..], target), i + m;
      if length > |blob| - lo then found == None
      else if number == target then found == Some(blob[lo..lo + length])
      else found == ScanFrom(blob, lo + length, target)
  {
    hide Varint, Scan;
    SkipSkip(blob, i, m);
    if length <= |blob| - (i + m) {
      SkipSkip(blob, i + m, length);
      assert blob[i + m..][..length] == blob[i + m..i + m + length];
    }
  }

  lemma NothingPastEnd(blob: Bytes, i: nat, target: UInt64)
    requires i >= |blob|
    ensures ScanFrom(blob, i, target) == None
  {
    assert Skip(blob, i) == [];
  }

  method ProtoField(blob: Bytes, target: UInt64) returns (raw: Bytes, ok: bool)
    requires |blob| < TWO_63
    ensures Scan(blob, target) == if ok then Some(raw) else None
    ensures ok ==> exists lo: nat, hi: nat :: 2 <= lo <= hi <= |blob| && raw == blob[lo..hi]
    ensures !ok ==> raw == []
  {
    hide Varint, Scan, ScanBody;
    raw, ok := [], false;
    var i: nat := 0;
    assert Skip(blob, 0) == blob;
    while i < |blob|
      invariant Scan(blob, target) == ScanFrom(blob, i, target)
      decreases |blob| - i
    {
      var tag, n, tagOk := ReadVarint(blob[i..]);
      StepTag(blob, i, target);
      if !tagOk {
        return;
      }
      i := i + n;
      var fieldNumber, wireType := tag / 8, tag % 8;
      StepBody(blob, i, fieldNumber, wireType, target);
      if wireType == 0 {
        var value, m, valueOk := ReadVarint(blob[i..]);
        if !valueOk {
          return;
        }
        StepVarint(blob, i, value, m, fieldNumber, target);
        i := i + m;
      } else if wireType == 2 {
        var length, m, lengthOk := ReadVarint(blob[i..]);
        if !lengthOk {
          return;
        }
        StepBytes(blob, i, length, m, fieldNumber, target);
        i := i + m;
        var end := ToInt64(i + ToInt64(length));
        WrappedEnd(i, length, |blob|);
        if end > |blob| || end < i {
          return;
        }
        if fieldNumber == target {
          return blob[i..end], true;
        }
        i := end;
      } else if wireType == 5 {
        i := i + 4;
      } else if wireType == 1 {
        i := i + 8;
      } else {
        return;
      }
    }
    NothingPastEnd(blob, i, target);
  }

  // ----- encoding -----

  datatype Field =
    | VarintField(number: nat, value: UInt64)
    | Fixed64Field(number: nat, octets: Bytes)
    | BytesField(number: nat, payload: Bytes)
    | Fixed32Field(number: nat, octets: Bytes)
  {
    predicate Encodable() {
      && 8 * number + 7 < TWO_64
      && (Fixed64Field? ==> |octets| == 8)
      && (Fixed32Field? ==> |octets| == 4)
      && (BytesField? ==> |payload| < TWO_64)
    }

    function Encode(): Bytes {
      match this
      case VarintField(k, v) => VarintBytes(8 * k) + VarintBytes(v)
      case Fixed64Field(k, o) => VarintBytes(8 * k + 1) + o
      case BytesField(k, p) => VarintBytes(8 * k + 2) + VarintBytes(|p|) + p
      case Fixed32Field(k, o) => VarintBytes(8 * k + 5) + o
    }
  }

  function EncodeAll(fields: seq<Field>): Bytes {
    if fields == [] then [] else fields[0].Encode() + EncodeAll(fields[1..])
  }

  function FirstBytes(fields: seq<Field>, target: nat): Option<Bytes> {
    if fields == [] then None
    else if fields[0].BytesField? && fields[0].number == target then Some(fields[0].payload)
    else FirstBytes(fields[1..], target)
  }

  lemma {:induction false} ScanTag(number: nat, wire: nat, rest: Bytes, target: UInt64)
    requires wire < 8 && 8 * number + 7 < TWO_64
    ensures Scan(VarintBytes(8 * number + wire) + rest, target) == ScanBody(number, wire, rest, target)
  {
    hide Varint, VarintBytes, ScanBody;
    var header := VarintBytes(8 * number + wire);
    VarintRoundTrip(8 * number + wire, rest);
    assert (header + rest)[|header|..] == rest;
  }

  lemma {:induction false} ScanVarintBody(number: nat, v: UInt64, tail: Bytes, target: UInt64)
    ensures ScanBody(number, 0, VarintBytes(v) + tail, target) == Scan(tail, target)
  {
    hide Varint, VarintBytes, Scan;
    VarintRoundTrip(v, tail);
    assert (VarintBytes(v) + tail)[|VarintBytes(v)|..] == tail;
  }

  lemma {:induction false} ScanBytesBody(number: nat, p: Bytes, tail: Bytes, target: UInt64)
    requires |p| < TWO_64
    ensures ScanBody(number, 2, VarintBytes(|p|) + (p + tail), target) ==
            if number == target then Some(p) else Scan(tail, target)
  {
    hide Varint, VarintBytes, Scan;
    var header := VarintBytes(|p|);
    VarintRoundTrip(|p|, p + tail);
    assert (header + (p + tail))[|header|..] == p + tail;
    assert (p + tail)[..|p|] == p && (p + tail)[|p|..] == tail;
  }

  lemma ScanOneField(f: Field, tail: Bytes, target: UInt64)
    requires f.Encodable()
    ensures Scan(f.Encode() + tail, target) ==
            if f.BytesField? && f.number == target then Some(f.payload) else Scan(tail, target)
  {
    hide Varint, VarintBytes, Scan;
    match f
    case VarintField(k, v) =>
      assert f.Encode() + tail == VarintBytes(8 * k + 0) + (VarintBytes(v) + tail);
      ScanTag(k, 0, VarintBytes(v) + tail, target);
      ScanVarintBody(k, v, tail, target);
    case Fixed64Field(k, o) =>
      assert f.Encode() + tail == VarintBytes(8 * k + 1) + (o + tail);
      ScanTag(k, 1, o + tail, target);
      assert Skip(o + tail, 8) == tail;
    case BytesField(k, p) =>
      assert f.Encode() + tail == VarintBytes(8 * k + 2) + (VarintBytes(|p|) + (p + tail));
      ScanTag(k, 2, VarintBytes(|p|) + (p + tail), target);
      ScanBytesBody(k, p, tail, target);
    case Fixed32Field(k, o) =>
      assert f.Encode() + tail == VarintBytes(8 * k + 5) + (o + tail);
      ScanTag(k, 5, o + tail, target);
      assert Skip(o + tail, 4) == tail;
  }

  /** Scanning any encoded list of fields finds the first length-delimited one of the number asked for. */
  lemma {:induction false} ScanFindsFirst(fields: seq<Field>, tail: Bytes, target: UInt64)
    requires forall f | f in fields :: f.Encodable()
    ensures Scan(EncodeAll(fields) + tail, target) ==
            var first := FirstBytes(fields, target); if first.Some? then first else Scan(tail, target)
  {
    hide Scan;
    if fields == [] {
      assert EncodeAll(fields) + tail == tail;
    } else {
      assert EncodeAll(fields) + tail == fields[0].Encode() + (EncodeAll(fields[1..]) + tail);
      ScanOneField(fields[0], EncodeAll(fields[1..]) + tail, target);
      ScanFindsFirst(fields[1..], tail, target);
    }
  }

  // ----- step payloads -----

  function ProtoText(blob: Bytes, target: UInt64): Option<Bytes> {
    match Scan(blob, target)
    case Some(raw) => if ValidUtf8(raw) then Some(raw) else None
    case None => None
  }

  /** Assistant text: field 20, then field 1. */
  function StepText(payload: Bytes): (r: Option<Bytes>)
    ensures r.Some? ==> ValidUtf8(r.value)
  {
    match Scan(payload, FIELD_TEXT)
    case None => None
    case Some(inner) => ProtoText(inner, FIELD_TEXT_BODY)
  }

  datatype Call = Call(name: Bytes, input: Option<Bytes>)

  function ToolName(call: Bytes): Option<Bytes> {
    var name, alt := ProtoText(call, FIELD_TOOL_NAME), ProtoText(call, FIELD_TOOL_NAME_ALT);
    if name.Some? && name.value != [] then name
    else if alt.Some? && alt.value != [] then alt
    else None
  }

  /** A tool step's name and arguments: field 5, then field 4; arguments that are not JSON are dropped. */
  function StepToolCall(payload: Bytes, isJson: Bytes -> bool): Option<Call> {
    match Scan(payload, FIELD_TOOL_WRAPPER)
    case None => None
    case Some(wrapper) =>
      match Scan(wrapper, FIELD_TOOL_CALL)
      case None => None
      case Some(call) =>
        match ToolName(call)
        case None => None
        case Some(name) =>
          var args := ProtoText(call, FIELD_TOOL_ARGS);
          Some(Call(name, if args.Some? && isJson(args.value) then args else None))
  }

  function PbString(field: nat, value: Bytes): Bytes {
    VarintBytes(8 * field + 2) + VarintBytes(|value|) + value
  }

  function TextPayload(text: Bytes): Bytes {
    PbString(FIELD_TEXT, PbString(FIELD_TEXT_BODY, text))
  }

  function ToolPayload(name: Bytes, args: Bytes): Bytes {
    PbString(FIELD_TOOL_WRAPPER, PbString(FIELD_TOOL_CALL, PbString(FIELD_TOOL_NAME, name) + PbString(FIELD_TOOL_ARGS, args)))
  }

  lemma ScanPbString(field: nat, value: Bytes)
    requires 8 * field + 7 < TWO_64 && |value| < TWO_64
    ensures Scan(PbString(field, value), field) == Some(value)
  {
    hide VarintBytes, Scan;
    ScanOneField(BytesField(field, value), [], field);
    assert PbString(field, value) + [] == PbString(field, value);
  }

  /** Whatever the text, decoding the stub's payload gives it back when it is UTF-8, and nothing when it is not. */
  lemma TextRoundTrip(text: Bytes)
    requires |TextPayload(text)| < TWO_63
    ensures StepText(TextPayload(text)) == if ValidUtf8(text) then Some(text) else None
  {
    ScanPbString(FIELD_TEXT_BODY, text);
    ScanPbString(FIELD_TEXT, PbString(FIELD_TEXT_BODY, text));
  }

  /** The name a call message carries: its first field 2, or else its first field 9, when that is non-empty UTF-8. */
  function NameIn(fields: seq<Field>): Option<Bytes> {
    var name, alt := FirstBytes(fields, 2), FirstBytes(fields, 9);
    if name.Some? && name.value != [] && ValidUtf8(name.value) then name
    else if alt.Some? && alt.value != [] && ValidUtf8(alt.value) then alt
    else None
  }

  /** Whatever fields a call message holds, in whatever order, the tool step has its call exactly when one of the names does. */
  lemma {:induction false} CallOfFields(fields: seq<Field>, isJson: Bytes -> bool)
    requires forall f | f in fields :: f.Encodable()
    requires |PbString(5, PbString(4, EncodeAll(fields)))| < TWO_63
    ensures StepToolCall(PbString(5, PbString(4, EncodeAll(fields))), isJson) ==
            if NameIn(fields).None? then None
            else
              var args := FirstBytes(fields, 3);
              Some(Call(NameIn(fields).value, if args.Some? && ValidUtf8(args.value) && isJson(args.value) then args else None))
  {
    hide VarintBytes, Scan, ValidUtf8;
    var call := EncodeAll(fields);
    ScanPbString(FIELD_TOOL_WRAPPER, PbString(FIELD_TOOL_CALL, call));
    ScanPbString(FIELD_TOOL_CALL, call);
    assert EncodeAll(fields) + [] == call;
    NothingPastEnd([], 0, FIELD_TOOL_NAME);
    NothingPastEnd([], 0, FIELD_TOOL_NAME_ALT);
    NothingPastEnd([], 0, FIELD_TOOL_ARGS);
    ScanFindsFirst(fields, [], FIELD_TOOL_NAME);
    ScanFindsFirst(fields, [], FIELD_TOOL_NAME_ALT);
    ScanFindsFirst(fields, [], FIELD_TOOL_ARGS);
    ScanNothing();
  }

  lemma ScanNothing()
    ensures forall target: UInt64 :: Scan([], target) == None
  {
  }

  /** The call comes back exactly when its name is non-empty UTF-8, and its arguments when they are UTF-8 JSON. */
  lemma ToolRoundTrip(name: Bytes, args: Bytes, isJson: Bytes -> bool)
    requires |ToolPayload(name, args)| < TWO_63
    ensures StepToolCall(ToolPayload(name, args), isJson) ==
            if name != [] && ValidUtf8(name)
            then Some(Call(name, if ValidUtf8(args) && isJson(args) then Some(args) else None))
            else None
  {
    hide VarintBytes, Scan, ValidUtf8;
    var fields := [BytesField(FIELD_TOOL_NAME, name), BytesField(FIELD_TOOL_ARGS, args)];
    var call := PbString(FIELD_TOOL_NAME, name) + PbString(FIELD_TOOL_ARGS, args);
    ScanPbString(FIELD_TOOL_WRAPPER, PbString(FIELD_TOOL_CALL, call));
    ScanPbString(FIELD_TOOL_CALL, call);
    assert EncodeAll(fields) + [] == call by {
      assert fields[1..][1..] == [];
      assert EncodeAll(fields[1..]) == fields[1].Encode() + [];
    }
    NothingPastEnd([], 0, FIELD_TOOL_NAME_ALT);
    ScanFindsFirst(fields, [], FIELD_TOOL_NAME);
    ScanFindsFirst(fields, [], FIELD_TOOL_NAME_ALT);
    ScanFindsFirst(fields, [], FIELD_TOOL_ARGS);
    assert FirstBytes(fields, FIELD_TOOL_NAME) == Some(name);
    assert FirstBytes(fields[1..], FIELD_TOOL_ARGS) == Some(args);
    assert fields[1..][1..] == [] && FirstBytes(fields[1..], FIELD_TOOL_NAME_ALT) == None;
  }
}
