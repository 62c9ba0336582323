/** Attribute helpers of the session host: the service name and id of a
    resource, the text form of an attribute value, and lowercase hex
    encoding of bytes with a branch-free nibble computation. */
module OTelUtils {
  import opened Common
  import opened Text
  import opened OTelProto

  const ServiceInstanceId: string := "service.instance.id"
  const ServiceName: string := "service.name"

  predicate IsServiceName(kv: KeyValue)
  {
    kv.key == ServiceName && kv.value.StringValue?
  }

  /** Position of the first `service.name` attribute that holds a string. */
  function ServiceNameIndex(attributes: seq<KeyValue>): (r: Option<nat>)
    ensures r.Some? ==> r.value < |attributes| && IsServiceName(attributes[r.value])
    ensures r.Some? ==> forall j :: 0 <= j < r.value ==> !IsServiceName(attributes[j])
    ensures r.None? ==> forall j :: 0 <= j < |attributes| ==> !IsServiceName(attributes[j])
  {
    if attributes == [] then None
    else if IsServiceName(attributes[0]) then Some(0)
    else match ServiceNameIndex(attributes[1..])
      case None => None
      case Some(k) => Some(k + 1)
  }

  /** The value of the first `service.name` attribute that holds a string,
      or `None` when there is none. */
  function GetServiceName(attributes: seq<KeyValue>): (r: Option<string>)
    ensures r.None? <==>
      forall i :: 0 <= i < |attributes| ==> !(attributes[i].key == ServiceName && attributes[i].value.StringValue?)
    ensures r.Some? ==> exists i :: (0 <= i < |attributes| && attributes[i] == KeyValue(ServiceName, StringValue(r.value)) &&
      forall j :: 0 <= j < i ==> !(attributes[j].key == ServiceName && attributes[j].value.StringValue?))
  {
    match ServiceNameIndex(attributes)
    case None => None
    case Some(k) =>
      assert attributes[k] == KeyValue(ServiceName, StringValue(attributes[k].value.s));
      Some(attributes[k].value.s)
  }

  /** Text form of an attribute value: a string is itself, a bool is
      "true"/"false", an integer is its invariant decimal text; doubles and
      the remaining cases carry their formatted text. */
  function ToStringValue(v: AnyValue): (r: string)
    ensures v.StringValue? ==> r == v.s
    ensures v.BoolValue? ==> (r == "true" <==> v.b) && (r == "false" <==> !v.b)
    ensures v.IntValue? ==> 1 <= |r| && (r[0] == '-' <==> v.i < 0)
  {
    match v
    case StringValue(s) => s
    case BoolValue(b) => if b then "true" else "false"
    case IntValue(i) => IntToDecimal(i)
    case DoubleValue(d) => d.invariantText
    case OtherValue(text) => text
  }

  /** The text of any 64-bit integer attribute reads back as the integer,
      and a different integer never has the same text. */
  lemma ToStringValueOfInt(i: int, j: int)
    requires LongMin <= i <= LongMax && LongMin <= j <= LongMax
    ensures ParseLong(ToStringValue(IntValue(i))) == Some(i)
    ensures ToStringValue(IntValue(i)) == ToStringValue(IntValue(j)) ==> i == j
  {
    ParseIntInOfIntToDecimal(i, LongMin, LongMax);
    ParseIntInOfIntToDecimal(j, LongMin, LongMax);
  }

  /** The value of the LAST attribute with the given key, if any. */
  function LastValue(attributes: seq<KeyValue>, key: string): Option<AnyValue>
  {
    if attributes == [] then None
    else
      var n := |attributes| - 1;
      if attributes[n].key == key then Some(attributes[n].value) else LastValue(attributes[..n], key)
  }

  /** `LastValue` is `None` exactly when no attribute has the key. */
  lemma {:induction false} LastValueAbsent(attributes: seq<KeyValue>, key: string)
    ensures LastValue(attributes, key).None? <==> forall i :: 0 <= i < |attributes| ==> attributes[i].key != key
  {
    if attributes != [] {
      var n := |attributes| - 1;
      LastValueAbsent(attributes[..n], key);
      assert forall i :: 0 <= i < n ==> attributes[..n][i] == attributes[i];
    }
  }

  /** When `LastValue` is `Some(v)`, some attribute with the key holds `v`
      and no later attribute has the key. */
  lemma {:induction false} LastValueIsLast(attributes: seq<KeyValue>, key: string) returns (i: nat)
    requires LastValue(attributes, key).Some?
    ensures i < |attributes| && attributes[i] == KeyValue(key, LastValue(attributes, key).value)
    ensures forall j :: i < j < |attributes| ==> attributes[j].key != key
  {
    var n := |attributes| - 1;
    if attributes[n].key == key {
      i := n;
    } else {
      var prefix := attributes[..n];
      i := LastValueIsLast(prefix, key);
      assert prefix[i] == attributes[i];
      assert forall j :: i < j < n ==> prefix[j] == attributes[j];
    }
  }

  /** The text of an optional attribute value. */
  function TextOf(v: Option<AnyValue>): Option<string>
  {
    match v
    case None => None
    case Some(x) => Some(ToStringValue(x))
  }

  /** The (service name, service id) pair of a resource: the text of the last
      `service.name` and of the last `service.instance.id`, the name
      defaulting to "Unknown" and the id to `None`. */
  function ServiceIdAndName(attributes: seq<KeyValue>): (string, Option<string>)
  {
    (TextOf(LastValue(attributes, ServiceName)).GetOr("Unknown"), TextOf(LastValue(attributes, ServiceInstanceId)))
  }

  /** Without a `service.name` the name is "Unknown"; without a
      `service.instance.id` there is no id, and with one the id is present. */
  lemma ServiceIdAndNameDefaults(attributes: seq<KeyValue>)
    ensures (forall i :: 0 <= i < |attributes| ==> attributes[i].key != ServiceName) ==>
      ServiceIdAndName(attributes).0 == "Unknown"
    ensures (forall i :: 0 <= i < |attributes| ==> attributes[i].key != ServiceInstanceId) <==>
      ServiceIdAndName(attributes).1.None?
  {
    LastValueAbsent(attributes, ServiceName);
    LastValueAbsent(attributes, ServiceInstanceId);
  }

  /** The id is the text of the last `service.instance.id` attribute. */
  lemma ServiceIdIsLast(attributes: seq<KeyValue>, i: nat)
    requires i < |attributes| && attributes[i].key == ServiceInstanceId
    requires forall j :: i < j < |attributes| ==> attributes[j].key != ServiceInstanceId
    ensures ServiceIdAndName(attributes).1 == Some(ToStringValue(attributes[i].value))
  {
    LastValueAbsent(attributes, ServiceInstanceId);
    var k := LastValueIsLast(attributes, ServiceInstanceId);
    assert k == i;
  }

  /** The attribute loop: every attribute with one of the two keys
      overwrites the corresponding local, all other keys are skipped. */
  method GetServiceIdAndName(attributes: seq<KeyValue>) returns (serviceName: string, serviceId: Option<string>)
    ensures (serviceName, serviceId) == ServiceIdAndName(attributes)
  {
    serviceName := "Unknown";
    serviceId := None;
    var i := 0;
    while i < |attributes|
      invariant 0 <= i <= |attributes|
      invariant serviceName == TextOf(LastValue(attributes[..i], ServiceName)).GetOr("Unknown")
      invariant serviceId == TextOf(LastValue(attributes[..i], ServiceInstanceId))
    {
      var attribute := attributes[i];
      assert attributes[..i + 1][..i] == attributes[..i];
      if attribute.key == ServiceInstanceId {
        serviceId := Some(ToStringValue(attribute.value));
      } else if attribute.key == ServiceName {
        serviceName := ToStringValue(attribute.value);
      }
      i := i + 1;
    }
    assert attributes[..i] == attributes;
  }

  // ---- lowercase hex encoding ----

  /** Character code of the lowercase hex digit for a nibble. */
  function HexCode(nibble: bv8): (c: bv32)
    requires nibble < 16
    ensures 0x30 <= c <= 0x66
  {
    if nibble < 10 then 0x30 + nibble as bv32 else 0x57 + nibble as bv32
  }

  /** The lowercase hex digit of a nibble: '0'-'9', then 'a'-'f'. */
  function HexDigit(nibble: bv8): (c: char)
    requires nibble < 16
    ensures '0' <= c <= '9' || 'a' <= c <= 'f'
  {
    HexCode(nibble) as int as char
  }

  /** The hex digits of a byte's high and low nibble. */
  function HighDigit(b: bv8): char
  {
    HexDigit(b >> 4)
  }

  function LowDigit(b: bv8): char
  {
    HexDigit(b & 0x0F)
  }

  /** `packedResult` of `ToCharsBuffer`: unsigned 32-bit arithmetic, `(uint)-(int)x`
      being two's complement negation. */
  function PackedResult(value: bv8): bv32
  {
    var v := value as bv32;
    var difference := ((v & 0xF0) << 4) + (v & 0x0F) - 0x8989;
    ((((0 - difference) & 0x7070) >> 4) + difference + 0xB9B9) | 0x2020
  }

  /** The branch-free computation yields the two hex digit codes: the high
      nibble's in bits 8..15 and the low nibble's in bits 0..7. */
  lemma NibbleTrick(value: bv8)
    ensures (PackedResult(value) >> 8) & 0xFFFF == HexCode(value >> 4)
    ensures PackedResult(value) & 0xFF == HexCode(value & 0x0F)
  {
  }

  /** Writes the two hex digits of `value` at `startingIndex` (high nibble)
      and `startingIndex + 1` (low nibble); the casts to `char` keep 16 bits. */
  method ToCharsBuffer(value: bv8, buffer: array<char>, startingIndex: nat)
    requires startingIndex + 1 < buffer.Length
    modifies buffer
    ensures buffer[startingIndex] == HighDigit(value)
    ensures buffer[startingIndex + 1] == LowDigit(value)
    ensures forall k :: 0 <= k < buffer.Length && k != startingIndex && k != startingIndex + 1 ==>
      buffer[k] == old(buffer[k])
  {
    var packedResult := PackedResult(value);
    NibbleTrick(value);
    buffer[startingIndex + 1] := (packedResult & 0xFF) as int as char;
    buffer[startingIndex] := ((packedResult >> 8) & 0xFFFF) as int as char;
  }

  /** Specification of the encoding: two lowercase hex digits per byte, in order. */
  function HexEncode(bytes: seq<bv8>): (s: string)
    ensures |s| == 2 * |bytes|
  {
    if bytes == [] then [] else [HighDigit(bytes[0]), LowDigit(bytes[0])] + HexEncode(bytes[1..])
  }

  lemma {:induction false} HexEncodeAt(bytes: seq<bv8>, k: nat)
    requires k < |bytes|
    ensures HexEncode(bytes)[2 * k] == HighDigit(bytes[k])
    ensures HexEncode(bytes)[2 * k + 1] == LowDigit(bytes[k])
  {
    if k > 0 {
      HexEncodeAt(bytes[1..], k - 1);
    }
  }

  /** `ToHexString`: "" for no bytes, otherwise a buffer of twice the length
      filled pair by pair. */
  method ToHexString(bytes: seq<bv8>) returns (s: string)
    ensures s == HexEncode(bytes)
    ensures |s| == 2 * |bytes|
  {
    if |bytes| == 0 {
      return "";
    }
    var chars := new char[|bytes| * 2];
    var pos := 0;
    while pos < |bytes|
      invariant 0 <= pos <= |bytes|
      invariant forall k :: 0 <= k < pos ==>
        chars[2 * k] == HighDigit(bytes[k]) && chars[2 * k + 1] == LowDigit(bytes[k])
    {
      ToCharsBuffer(bytes[pos], chars, pos * 2);
      pos := pos + 1;
    }
    s := chars[..];
    forall i | 0 <= i < |s|
      ensures s[i] == HexEncode(bytes)[i]
    {
      HexEncodeAt(bytes, i / 2);
    }
  }

  /** Value of a lowercase hex digit. */
  function NibbleOf(c: char): bv8
  {
    if '0' <= c <= '9' then (c as int - '0' as int) as bv8
    else if 'a' <= c <= 'f' then (c as int - 'a' as int + 10) as bv8
    else 0
  }

  lemma HexCodeValue(nibble: bv8)
    requires nibble < 16
    ensures HexCode(nibble) as int == if nibble < 10 then 0x30 + nibble as int else 0x57 + nibble as int
  {
  }

  lemma NibbleOfHexDigit(nibble: bv8)
    requires nibble < 16
    ensures NibbleOf(HexDigit(nibble)) == nibble
  {
    HexCodeValue(nibble);
    var n := nibble as int;
    assert HexDigit(nibble) as int == if n < 10 then 0x30 + n else 0x57 + n;
    assert (n as bv8) == nibble;
  }

  /** The byte a pair of hex digits stands for. */
  function DecodePair(high: char, low: char): bv8
  {
    (NibbleOf(high) << 4) | NibbleOf(low)
  }

  lemma JoinNibbles(b: bv8)
    ensures ((b >> 4) << 4) | (b & 0x0F) == b
  {
  }

  /** The two digits of a byte decode back to the byte. */
  lemma DecodePairOfByte(b: bv8)
    ensures DecodePair(HighDigit(b), LowDigit(b)) == b
  {
    NibbleOfHexDigit(b >> 4);
    NibbleOfHexDigit(b & 0x0F);
    JoinNibbles(b);
  }

  /** Decoding of a string of hex digit pairs, the inverse of `HexEncode`. */
  function HexDecode(s: string): seq<bv8>
    decreases |s|
  {
    if |s| < 2 then [] else [DecodePair(s[0], s[1])] + HexDecode(s[2..])
  }

  /** Each output pair decodes back to its byte. */
  lemma {:induction false} HexRoundTrip(bytes: seq<bv8>)
    ensures HexDecode(HexEncode(bytes)) == bytes
  {
    if bytes != [] {
      var b := bytes[0];
      DecodePairOfByte(b);
      var s := HexEncode(bytes);
      var high, low := HighDigit(b), LowDigit(b);
      assert s == [high, low] + HexEncode(bytes[1..]);
      assert s[0] == high && s[1] == low && s[2..] == HexEncode(bytes[1..]);
      HexRoundTrip(bytes[1..]);
      assert HexDecode(s) == [DecodePair(high, low)] + HexDecode(s[2..]);
    }
  }
}
